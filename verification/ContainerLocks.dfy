/** Locks of the container contract (contracts/container/contract.go) over runs: what no call can undo, and
    what creating a container again does to it. An id is the hash of the container's serialization, so a
    container that is created again brings the owner and the attributes it was first created with. */
module ContainerLocks {
  import opened Storage
  import opened Containers
  import opened ContainerLaws
  import opened ContainerRuns
  import InfoCodec

  // ---- what one call does to a lock ----

  /** The container is locked up to `until`, or that time has come. */
  predicate Guarded(c: Container, until: int, now: int) {
    until <= now || (LockEnd(c).Some? && until <= LockEnd(c).value)
  }

  lemma {:induction false} LockIndexAppend(attributes: seq<Attribute>, a: Attribute)
    requires LockIndex(attributes) == |attributes|
    ensures LockIndex(attributes + [a]) == if a.LockUntil? then |attributes| else |attributes| + 1
  {
    if attributes == [] {
      assert (attributes + [a])[1..] == [];
    } else {
      assert (attributes + [a])[1..] == attributes[1..] + [a];
      LockIndexAppend(attributes[1..], a);
    }
  }

  lemma {:induction false} LockIndexUpdate(attributes: seq<Attribute>, seconds: int)
    requires LockIndex(attributes) < |attributes|
    ensures LockIndex(attributes[LockIndex(attributes) := LockUntil(seconds)]) == LockIndex(attributes)
  {
    if !attributes[0].LockUntil? {
      var i := LockIndex(attributes);
      LockIndexUpdate(attributes[1..], seconds);
      assert attributes[i := LockUntil(seconds)][1..] == attributes[1..][i - 1 := LockUntil(seconds)];
    }
  }

  /** Setting a lock makes it the effective one, later than any before. */
  lemma SetLockExtends(s: State, e: Env, id: Cid, seconds: int, validUntil: int)
    requires PutLock(s, e, id, seconds, validUntil).Ok?
    ensures var after := PutLock(s, e, id, seconds, validUntil).value;
      && id in s.containers && after.containers.Keys == s.containers.Keys
      && (forall d :: d in s.containers && d != id ==> after.containers[d] == s.containers[d])
      && LockEnd(after.containers[id]) == Some(seconds * 1000) && e.now < seconds * 1000
      && (LockEnd(s.containers[id]).Some? ==> LockEnd(s.containers[id]).value < seconds * 1000)
  {
    var attributes := s.containers[id].attributes;
    if LockIndex(attributes) < |attributes| {
      LockIndexUpdate(attributes, seconds);
    } else {
      LockIndexAppend(attributes, LockUntil(seconds));
    }
  }

  /** Calls other than setting a lock and creating the container leave its attributes alone, drop a lock that
      has run out, or remove the container if it is not locked. */
  lemma OthersRespectLock(s: State, e: Env, op: Operation, id: Cid)
    requires !(op.Create? && op.id == id) && !op.SetLock? && Apply(s, e, op).Ok? && id in s.containers
    ensures var after := Apply(s, e, op).value;
      if id in after.containers then
        || after.containers[id].attributes == s.containers[id].attributes
        || (LockEnd(s.containers[id]).Some? && LockEnd(s.containers[id]).value <= e.now)
      else LockEnd(s.containers[id]).None? || LockEnd(s.containers[id]).value < e.now
  {
    hide LockIndex, Shift, Departed, Sum;
  }

  /** If the call is an accepted creation of the container, it brings a lock up to `until`, or that time has come. */
  ghost predicate Respects(c: Call, id: Cid, until: int) {
    (c.op.Create? && c.op.id == id && Creatable(c.op.attributes, c.env.now))
    ==> Guarded(Container(c.op.owner, 1, c.op.attributes), until, c.env.now)
  }

  /** The attributes are accepted for a new container: no lock among them has run out. */
  predicate Creatable(attributes: seq<Attribute>, now: int) {
    forall a :: a in attributes && a.LockUntil? ==> ValidLock(a.seconds, now)
  }

  lemma StepKeepsGuard(s: State, c: Call, id: Cid, until: int, now: int)
    requires now <= c.env.now && Respects(c, id, until)
    requires id in s.containers && Guarded(s.containers[id], until, now)
    ensures id in Step(s, c).containers ==> Guarded(Step(s, c).containers[id], until, c.env.now)
    ensures id !in Step(s, c).containers ==> until <= c.env.now && c.op == Remove(id) && id in Step(s, c).deleted
  {
    if Apply(s, c.env, c.op).Ok? {
      if c.op.SetLock? {
        SetLockExtends(s, c.env, c.op.id, c.op.seconds, c.op.validUntil);
        hide PutLock, LockIndex;
      } else if c.op.Create? && c.op.id == id {
        hide LockIndex;
      } else {
        OthersRespectLock(s, c.env, c.op, id);
        hide LockIndex;
        if id !in Step(s, c).containers {
          OnlyRemovalRemoves(s, c, id);
        }
        hide Apply;
      }
    }
  }

  /** Only a removal takes a container away, and it leaves the mark. */
  lemma OnlyRemovalRemoves(s: State, c: Call, id: Cid)
    requires id in s.containers && id !in Step(s, c).containers
    ensures c.op == Remove(id) && id in Step(s, c).deleted
  {
    hide LockIndex, Shift, Departed, Sum;
  }

  // ---- runs ----

  /** One of the calls removed the container, at that time or later. */
  ghost predicate RemovedFrom(s: State, calls: seq<Call>, id: Cid, until: int) {
    exists i :: 0 <= i < |calls| && calls[i].op == Remove(id) && until <= calls[i].env.now
                && id in Exec(s, calls[..i]).containers && id !in Exec(s, calls[..i + 1]).containers
  }

  lemma RemovedFromLonger(s: State, init: seq<Call>, c: Call, id: Cid, until: int)
    requires RemovedFrom(s, init, id, until)
    ensures RemovedFrom(s, init + [c], id, until)
  {
    hide Exec;
    var i :| 0 <= i < |init| && init[i].op == Remove(id) && until <= init[i].env.now
             && id in Exec(s, init[..i]).containers && id !in Exec(s, init[..i + 1]).containers;
    var calls := init + [c];
    assert calls[i] == init[i] && calls[..i] == init[..i] && calls[..i + 1] == init[..i + 1];
  }

  lemma RemovedLast(s: State, init: seq<Call>, c: Call, id: Cid, until: int)
    requires c.op == Remove(id) && until <= c.env.now
    requires id in Exec(s, init).containers && id !in Exec(s, init + [c]).containers
    ensures RemovedFrom(s, init + [c], id, until)
  {
    hide Exec;
    var calls := init + [c];
    assert calls[|init|] == c && calls[..|init|] == init && calls[..|init| + 1] == calls;
  }

  lemma {:induction false} GuardLasts(s: State, calls: seq<Call>, id: Cid, until: int, start: int)
    requires Timely(calls) && (calls != [] ==> start <= calls[0].env.now)
    requires forall c :: c in calls ==> Respects(c, id, until)
    requires id in s.containers && s.containers.Keys !! s.deleted && Guarded(s.containers[id], until, start)
    ensures var now, t := if calls == [] then start else calls[|calls| - 1].env.now, Exec(s, calls);
            && t.containers.Keys !! t.deleted
            && if id in t.containers then Guarded(t.containers[id], until, now)
               else id in t.deleted && RemovedFrom(s, calls, id, until)
  {
    hide Step, Guarded, Respects, RemovedFrom;
    if calls != [] {
      var init, c := calls[..|calls| - 1], calls[|calls| - 1];
      assert init + [c] == calls && c in calls && forall d :: d in init ==> d in calls;
      TimelyInit(calls, start);
      hide Timely;
      GuardLasts(s, init, id, until, start);
      var t := Exec(s, init);
      DeletedIsFinal(t, c);
      if id in t.containers {
        StepKeepsGuard(t, c, id, until, if init == [] then start else init[|init| - 1].env.now);
        if id !in Step(t, c).containers {
          RemovedLast(s, init, c, id, until);
        }
      } else {
        RemovedFromLonger(s, init, c, id, until);
      }
    }
  }

  lemma TimelyInit(calls: seq<Call>, start: int)
    requires Timely(calls) && calls != [] && start <= calls[0].env.now
    ensures var init := calls[..|calls| - 1];
      Timely(init) && (if init == [] then start else init[|init| - 1].env.now) <= calls[|calls| - 1].env.now
  {
  }

  /** A container with an effective lock until U is never removed at a block time before U, through any
      calls of which each that creates it again brings a lock until U or later. If it has gone, `Remove` took
      it at U or later, and for good. */
  lemma LockHolds(s: State, calls: seq<Call>, id: Cid)
    requires id in s.containers && s.containers.Keys !! s.deleted && LockEnd(s.containers[id]).Some?
    requires Timely(calls) && forall c :: c in calls ==> Respects(c, id, LockEnd(s.containers[id]).value)
    ensures id !in Exec(s, calls).containers ==>
      id in Exec(s, calls).deleted && RemovedFrom(s, calls, id, LockEnd(s.containers[id]).value)
  {
    GuardLasts(s, calls, id, LockEnd(s.containers[id]).value, if calls == [] then 0 else calls[0].env.now);
  }

  // ---- which locks can be undone ----

  /** Calls from a time on, before another, in which the container is only created with this content. */
  ghost predicate Between(calls: seq<Call>, id: Cid, owner: Owner, attributes: seq<Attribute>, now: int, until: int) {
    && Timely(calls)
    && (forall c :: c in calls ==> now <= c.env.now < until)
    && (forall c :: c in calls && c.op.Create? && c.op.id == id ==> c.op.owner == owner && c.op.attributes == attributes)
  }

  /** Created again, the container would be without a lock, or with one that ends before. */
  predicate Undoes(attributes: seq<Attribute>, now: int, until: int) {
    Creatable(attributes, now)
    && (LockIndex(attributes) == |attributes| || attributes[LockIndex(attributes)].seconds * 1000 < until)
  }

  /** The two calls that undo a lock. */
  function Undoing(id: Cid, owner: Owner, attributes: seq<Attribute>, now: int, until: int): seq<Call> {
    [Call(Env(true, now, 0, 0, 0), Create(id, owner, attributes)), Call(Env(true, until - 1, 0, 0, 0), Remove(id))]
  }

  lemma UndoingRemoves(s: State, id: Cid, owner: Owner, attributes: seq<Attribute>, now: int)
    requires id in s.containers && s.containers.Keys !! s.deleted && |id| == HASH256_LEN
    requires LockEnd(s.containers[id]).Some? && now < LockEnd(s.containers[id]).value
    requires Undoes(attributes, now, LockEnd(s.containers[id]).value)
    ensures var until := LockEnd(s.containers[id]).value; var calls := Undoing(id, owner, attributes, now, until);
      Between(calls, id, owner, attributes, now, until) && id !in Exec(s, calls).containers
  {
    var until := LockEnd(s.containers[id]).value;
    var calls := Undoing(id, owner, attributes, now, until);
    assert calls[..1] == [calls[0]] && [calls[0]][..0] == [];
    assert Exec(s, []) == s;
    var t := Exec(s, calls[..1]);
    assert t == Step(s, calls[0]);
    assert t == s.(containers := s.containers[id := Container(owner, 1, attributes)], owned := s.owned + {(owner, id)});
    assert LockEnd(t.containers[id]).Some? ==> LockEnd(t.containers[id]).value < until - 1;
    hide LockIndex;
    assert Exec(s, calls) == Step(t, calls[1]);
  }

  lemma NoUndoing(s: State, id: Cid, owner: Owner, attributes: seq<Attribute>, now: int, calls: seq<Call>)
    requires id in s.containers && s.containers.Keys !! s.deleted
    requires LockEnd(s.containers[id]).Some? && Between(calls, id, owner, attributes, now, LockEnd(s.containers[id]).value)
    requires !Undoes(attributes, now, LockEnd(s.containers[id]).value)
    ensures id in Exec(s, calls).containers
  {
    var until := LockEnd(s.containers[id]).value;
    forall c | c in calls
      ensures Respects(c, id, until)
    {
      if c.op.Create? && c.op.id == id && Creatable(attributes, c.env.now) {
        assert Creatable(attributes, now) by {
          forall a | a in attributes && a.LockUntil?
            ensures a.seconds * 1000 > now
          {
          }
        }
      }
    }
    GuardLasts(s, calls, id, until, now);
  }

  /** As long as a container can only be created again with its own content, its lock holds through any
      calls, unless those attributes would be accepted again and end earlier or have no lock; then creating it
      again and removing it undoes the lock. */
  lemma LockHoldsIff(s: State, id: Cid, owner: Owner, attributes: seq<Attribute>, now: int)
    requires id in s.containers && s.containers.Keys !! s.deleted && |id| == HASH256_LEN
    requires LockEnd(s.containers[id]).Some? && now < LockEnd(s.containers[id]).value
    ensures var until := LockEnd(s.containers[id]).value;
      (forall calls :: Between(calls, id, owner, attributes, now, until) ==> id in Exec(s, calls).containers)
      <==> !Undoes(attributes, now, until)
  {
    var until := LockEnd(s.containers[id]).value;
    if Undoes(attributes, now, until) {
      UndoingRemoves(s, id, owner, attributes, now);
    } else {
      forall calls | Between(calls, id, owner, attributes, now, until)
        ensures id in Exec(s, calls).containers
      {
        NoUndoing(s, id, owner, attributes, now, calls);
      }
    }
  }

  // ---- ids are hashes ----

  /** Every creation of one id brings the same owner and attributes. */
  ghost predicate ByContents(calls: seq<Call>) {
    forall c, d :: c in calls && d in calls && c.op.Create? && d.op.Create? && c.op.id == d.op.id
      ==> c.op.owner == d.op.owner && c.op.attributes == d.op.attributes
  }

  /** What the contract reads from the serialized attributes. */
  function ReadAll(read: InfoCodec.Attribute -> Attribute, attributes: seq<InfoCodec.Attribute>): seq<Attribute> {
    seq(|attributes|, i requires 0 <= i < |attributes| => read(attributes[i]))
  }

  /** The call creates the container with this description, its id being the hash of the serialization. */
  ghost predicate Describes(info: InfoCodec.Info, c: Call, chain: InfoCodec.Chain, hash: Bytes -> Cid,
                            read: InfoCodec.Attribute -> Attribute)
    requires InfoCodec.IsChain(chain) && c.op.Create?
  {
    && info.Typed() && |InfoCodec.InfoBytes(chain, info)| <= InfoCodec.MAX_INT
    && c.op.id == hash(InfoCodec.InfoBytes(chain, info))
    && c.op.owner == info.owner && c.op.attributes == ReadAll(read, info.attributes)
  }

  /** Where ids are hashes of serializations that do not collide, one id has one content. */
  lemma HashedIdsFixContents(calls: seq<Call>, chain: InfoCodec.Chain, hash: Bytes -> Cid, read: InfoCodec.Attribute -> Attribute)
    requires InfoCodec.IsChain(chain) && forall a, b :: hash(a) == hash(b) ==> a == b
    requires forall c :: c in calls && c.op.Create? ==> exists info :: Describes(info, c, chain, hash, read)
    ensures ByContents(calls)
  {
    forall c, d | c in calls && d in calls && c.op.Create? && d.op.Create? && c.op.id == d.op.id
      ensures c.op.owner == d.op.owner && c.op.attributes == d.op.attributes
    {
      var i :| Describes(i, c, chain, hash, read);
      var j :| Describes(j, d, chain, hash, read);
      InfoCodec.InfoBytesInjective(chain, i, j);
    }
  }

  lemma {:induction false} LiveAndDeletedDiffer(calls: seq<Call>)
    ensures Exec(DEPLOYED, calls).containers.Keys !! Exec(DEPLOYED, calls).deleted
  {
    if calls != [] {
      LiveAndDeletedDiffer(calls[..|calls| - 1]);
      DeletedIsFinal(Exec(DEPLOYED, calls[..|calls| - 1]), calls[|calls| - 1]);
    }
  }

  /** In every run from deployment: a lock given at creation holds, whatever is called afterwards, creating
      the container again included. */
  lemma LockAtCreationHolds(calls: seq<Call>, i: nat, id: Cid)
    requires ByContents(calls) && Timely(calls) && i < |calls| && calls[i].op.Create? && calls[i].op.id == id
    requires Apply(Exec(DEPLOYED, calls[..i]), calls[i].env, calls[i].op).Ok?
    requires LockEnd(Made(calls[i])).Some?
    ensures var until := LockEnd(Made(calls[i])).value;
      id !in Exec(DEPLOYED, calls).containers ==> until <= calls[|calls| - 1].env.now
  {
    hide Exec, LockIndex, Apply, Step, RemovedFrom, Respects;
    var s, rest, until := Exec(DEPLOYED, calls[..i + 1]), calls[i + 1..], LockEnd(Made(calls[i])).value;
    CreatedIsThere(calls, i, id);
    LiveAndDeletedDiffer(calls[..i + 1]);
    ExecSplits(DEPLOYED, calls, i + 1);
    LaterRespect(calls, i, id, until);
    LockHolds(s, rest, id);
    if id !in Exec(s, rest).containers {
      RemovedInTime(calls, i, s, id, until);
    }
  }

  /** The container as the call creates it. */
  function Made(c: Call): Container
    requires c.op.Create?
  {
    Container(c.op.owner, 1, c.op.attributes)
  }

  lemma CreatedIsThere(calls: seq<Call>, i: nat, id: Cid)
    requires i < |calls| && calls[i].op.Create? && calls[i].op.id == id
    requires Apply(Exec(DEPLOYED, calls[..i]), calls[i].env, calls[i].op).Ok?
    ensures var s := Exec(DEPLOYED, calls[..i + 1]); id in s.containers && s.containers[id] == Made(calls[i])
  {
    hide LockIndex;
    ExecOfMore(DEPLOYED, calls, i);
    hide Exec;
  }

  lemma LaterRespect(calls: seq<Call>, i: nat, id: Cid, until: int)
    requires ByContents(calls) && Timely(calls) && i < |calls| && calls[i].op.Create? && calls[i].op.id == id
    requires LockEnd(Made(calls[i])) == Some(until)
    ensures Timely(calls[i + 1..]) && forall c :: c in calls[i + 1..] ==> Respects(c, id, until)
  {
    hide LockIndex, Creatable;
    assert calls[i] in calls;
    forall c | c in calls[i + 1..]
      ensures Respects(c, id, until)
    {
      assert c in calls;
    }
  }

  lemma RemovedInTime(calls: seq<Call>, i: nat, s: State, id: Cid, until: int)
    requires Timely(calls) && i < |calls| && RemovedFrom(s, calls[i + 1..], id, until)
    ensures until <= calls[|calls| - 1].env.now
  {
    hide Exec;
    var rest := calls[i + 1..];
    var j :| 0 <= j < |rest| && until <= rest[j].env.now;
    assert rest[j] == calls[i + 1 + j];
  }

  // ---- runs that go wrong ----

  const DAY := Env(true, 0, 0, 0, 0)

  /** A container is created without a lock, gets one, is created again with what it was created with, and
      removed, all in one block. */
  function Unlocking(id: Cid, o: Owner): seq<Call> {
    [Call(DAY, Create(id, o, [])), Call(DAY, SetLock(id, 10, 10)), Call(DAY, Create(id, o, [])), Call(DAY, Remove(id))]
  }

  /** A lock set after creation is undone by creating the container again, long before it ends. */
  lemma RecreationUnlocks(id: Cid, o: Owner)
    requires |id| == HASH256_LEN
    ensures var calls := Unlocking(id, o); var locked := Exec(DEPLOYED, calls[..2]);
      && ByContents(calls) && Timely(calls)
      && id in locked.containers && LockEnd(locked.containers[id]) == Some(10000)
      && id !in Exec(DEPLOYED, calls).containers
  {
    var calls := Unlocking(id, o);
    hide Exec, Apply;
    ExecOfMore(DEPLOYED, calls, 0);
    ExecOfMore(DEPLOYED, calls, 1);
    ExecOfMore(DEPLOYED, calls, 2);
    ExecOfMore(DEPLOYED, calls, 3);
    assert calls[..0] == [] && calls[..4] == calls;
    ExecOfNone(DEPLOYED);
    UnlockingSteps(id, o);
  }

  function Plain(id: Cid, o: Owner, attributes: seq<Attribute>, revision: nat): State {
    DEPLOYED.(containers := map[id := Container(o, revision, attributes)], owned := {(o, id)})
  }

  lemma UnlockingSteps(id: Cid, o: Owner)
    requires |id| == HASH256_LEN
    ensures var calls := Unlocking(id, o);
      && Step(DEPLOYED, calls[0]) == Plain(id, o, [], 1)
      && Step(Plain(id, o, [], 1), calls[1]) == Plain(id, o, [LockUntil(10)], 2)
      && Step(Plain(id, o, [LockUntil(10)], 2), calls[2]) == Plain(id, o, [], 1)
      && id !in Step(Plain(id, o, [], 1), calls[3]).containers
  {
    var none: seq<Attribute> := [];
    assert LockIndex(none) == 0 && none + [LockUntil(10)] == [LockUntil(10)];
  }

  /** A container is created, handed over, and created again. */
  function Reclaiming(id: Cid, a: Owner, b: Owner): seq<Call> {
    [Call(DAY, Create(id, a, [])), Call(DAY, Transfer(b, id, true, true, 0)), Call(DAY, Create(id, a, []))]
  }

  /** The one who had it gets it back without a word of the new owner, who still has it in the index. */
  lemma RecreationReclaims(id: Cid, a: Owner, b: Owner)
    requires a != b && |b| == HASH160_LEN
    ensures var calls := Reclaiming(id, a, b); var handed, s := Exec(DEPLOYED, calls[..2]), Exec(DEPLOYED, calls);
      && ByContents(calls) && id in handed.containers && handed.containers[id].owner == b
      && id in s.containers && s.containers[id].owner == a && (b, id) in s.owned && !Indexed(s)
  {
    var calls := Reclaiming(id, a, b);
    ExecOfMore(DEPLOYED, calls, 0);
    ExecOfMore(DEPLOYED, calls, 1);
    ExecOfMore(DEPLOYED, calls, 2);
    assert calls[..0] == [] && calls[..3] == calls;
    hide Exec;
  }
}
