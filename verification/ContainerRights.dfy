/** Who may do what to a container (contracts/container/contract.go), and what stays with it through all
    calls: its owner, its attributes other than the lock, its replica numbers. */
module ContainerRights {
  import opened Storage
  import opened Containers
  import opened ContainerLaws
  import opened ContainerRuns
  import opened ContainerLocks

  /** The node is on the container's current list, under its own key. */
  ghost predicate Serves(s: State, cid: Cid, key: Bytes) {
    exists v, a :: Slot(cid, v, a) in s.nodes && s.nodes[Slot(cid, v, a)] == key
  }

  /** Which calls go through. All but handing over and reporting are the alphabet's; a container is handed over
      to a script hash, whoever signs; a node reports under its own signature, at most three times an epoch. A
      commit may also fail for want of a summary, which `CommitKeepsLedger` excludes. */
  lemma AcceptsIff(s: State, e: Env, op: Operation)
    ensures !op.Commit? ==> (Apply(s, e, op).Ok? <==>
      match op
      case Create(id, owner, attributes) =>
        e.alphabet && id !in s.deleted && forall a :: a in attributes && a.LockUntil? ==> 0 < a.seconds && e.now < a.seconds * 1000
      case Remove(id) =>
        e.alphabet && |id| == 32 && (id in s.containers ==> LockEnd(s.containers[id]).None? || LockEnd(s.containers[id]).value < e.now)
      case Transfer(to, id, _, _, _) => |to| == 20 && id in s.containers
      case SetLock(id, seconds, validUntil) =>
        && e.alphabet && e.now <= validUntil * 1000 && id in s.containers && 0 < seconds && e.now < seconds * 1000
        && (LockEnd(s.containers[id]).None? || LockEnd(s.containers[id]).value < seconds * 1000)
      case RemoveLock(id, validUntil) =>
        && e.alphabet && e.now <= validUntil * 1000 && id in s.containers
        && (LockEnd(s.containers[id]).None? || LockEnd(s.containers[id]).value <= e.now)
      case AddNextEpochNodes(cid, vector, keys) =>
        && e.alphabet && |cid| == 32 && vector < 255 && (forall k :: k in keys ==> |k| == 33)
        && (vector == 0 || exists k :: k in s.staged && k.cid == cid && k.vector == vector - 1)
      case Commit(cid, vectors) => true
      case PutReport(cid, size, objects, key, signed) =>
        var k := (cid, StandardAccount(key));
        && signed && cid in s.containers && Serves(s, cid, key)
        && (k in s.reports ==> e.duration != 0 && !(s.reports[k].epoch == e.epoch && s.reports[k].number == 3)))
    ensures op.Commit? && Apply(s, e, op).Ok? ==> e.alphabet && |op.cid| == 32 && forall v :: v in op.vectors ==> v <= 255
  {
    hide LockIndex, Shift, Departed, Sum, Stage, Billing.Updated, SlotsOf;
    if op.PutReport? {
      MembersServe(s, op.cid, op.key);
      hide IsMember, Serves;
    } else if op.AddNextEpochNodes? && 0 < op.vector {
      VectorsStaged(s.staged, op.cid, op.vector - 1);
    }
  }

  lemma VectorsStaged(m: map<Slot, Bytes>, cid: Cid, vector: nat)
    ensures HasVector(m, cid, vector) <==> exists k :: k in m && k.cid == cid && k.vector == vector
  {
    if exists k :: k in m && k.cid == cid && k.vector == vector {
      var k :| k in m && k.cid == cid && k.vector == vector;
      assert k == Slot(cid, vector, k.account);
    }
  }

  lemma MembersServe(s: State, cid: Cid, key: Bytes)
    ensures IsMember(s, cid, key) <==> Serves(s, cid, key)
  {
    if IsMember(s, cid, key) {
      var k :| k in s.nodes && k.cid == cid && s.nodes[k] == key;
      assert k == Slot(cid, k.vector, k.account);
    }
  }

  // ---- whose it is ----

  /** Handing over goes through without a signature of both sides, but then changes nothing. */
  lemma HandoverIff(s: State, to: Owner, id: Cid, fromSigned: bool, toSigned: bool, decoded: int)
    requires TransferContainer(s, to, id, fromSigned, toSigned, decoded).Ok? && s.containers[id].owner != to
    ensures var t, from := TransferContainer(s, to, id, fromSigned, toSigned, decoded).value, s.containers[id].owner;
      && id in t.containers && t.containers.Keys == s.containers.Keys
      && (t.containers[id].owner == to <==> fromSigned && toSigned)
      && (!(fromSigned && toSigned) ==> t == s)
      && (fromSigned && toSigned ==>
            && t.containers[id] == Container(to, s.containers[id].revision + 1, s.containers[id].attributes)
            && (to, id) in t.owned && (from, id) !in t.owned
            && (forall p :: p != (to, id) && p != (from, id) ==> (p in t.owned <==> p in s.owned))
            && (forall c :: c in s.containers && c != id ==> t.containers[c] == s.containers[c])
            && t.deleted == s.deleted && t.nodes == s.nodes && t.staged == s.staged && t.replicas == s.replicas
            && t.reports == s.reports && t.billing == s.billing && t.summaries == s.summaries)
  {
    hide Shift;
  }

  /** The container is handed over by that call, or created again for that owner. */
  predicate GivenTo(c: Call, id: Cid, owner: Owner) {
    c.op == Transfer(owner, id, true, true, if c.op.Transfer? then c.op.decoded else 0)
    || (c.env.alphabet && c.op.Create? && c.op.id == id && c.op.owner == owner)
  }

  /** What an accepted call makes of the containers. */
  ghost predicate Changes(s: State, e: Env, op: Operation, after: map<Cid, Container>) {
    match op
    case Create(id, owner, attributes) =>
      e.alphabet && id !in s.deleted && after == s.containers[id := Container(owner, 1, attributes)]
    case Remove(id) => after == if id in s.containers then s.containers - {id} else s.containers
    case Transfer(to, id, fromSigned, toSigned, _) =>
      id in s.containers &&
      after == if fromSigned && toSigned && s.containers[id].owner != to
               then s.containers[id := Container(to, s.containers[id].revision + 1, s.containers[id].attributes)] else s.containers
    case SetLock(id, _, _) => id in s.containers && id in after && after == s.containers[id := after[id]] && SameButLocks(s.containers[id], after[id])
    case RemoveLock(id, _) => id in s.containers && id in after && after == s.containers[id := after[id]] && SameButLocks(s.containers[id], after[id])
    case _ => after == s.containers
  }

  predicate SameButLocks(c: Container, d: Container) {
    d.owner == c.owner && Others(d.attributes) == Others(c.attributes)
  }

  lemma StepChanges(s: State, e: Env, op: Operation)
    requires Apply(s, e, op).Ok?
    ensures Changes(s, e, op, Apply(s, e, op).value.containers)
  {
    hide Others, Locks, LockIndex, Shift, Sum;
    match op
    case Create(id, owner, attributes) =>
    case Remove(id) => RemoveChanges(s, e, id); hide RemoveContainer;
    case Transfer(to, id, fromSigned, toSigned, decoded) =>
    case SetLock(id, seconds, validUntil) => SetLockWrites(s, e, id, seconds, validUntil); hide PutLock;
    case RemoveLock(id, validUntil) => RemoveLockTakesOne(s, e, id, validUntil); hide DropLock;
    case AddNextEpochNodes(_, _, _) => hide Stage;
    case Commit(cid, vectors) => CommitKeepsContainers(s, e, cid, vectors); hide CommitList;
    case PutReport(cid, size, objects, key, signed) => ReportKeepsContainers(s, e, cid, size, objects, key, signed); hide SaveReport;
  }

  lemma RemoveChanges(s: State, e: Env, id: Cid)
    requires RemoveContainer(s, e, id).Ok?
    ensures RemoveContainer(s, e, id).value.containers == if id in s.containers then s.containers - {id} else s.containers
  {
    hide SlotsOf, Shift, LockIndex;
  }

  lemma CommitKeepsContainers(s: State, e: Env, cid: Cid, vectors: seq<nat>)
    requires CommitList(s, e, cid, vectors).Ok?
    ensures var t := CommitList(s, e, cid, vectors).value;
      t.containers == s.containers && t.owned == s.owned && t.deleted == s.deleted
  {
    hide Shift, SlotsOf, Departed, PutReplicas, Sum, SizeIn, ObjectsIn;
  }

  lemma ReportKeepsContainers(s: State, e: Env, cid: Cid, size: int, objects: int, key: Bytes, signed: bool)
    requires SaveReport(s, e, cid, size, objects, key, signed).Ok?
    ensures var t := SaveReport(s, e, cid, size, objects, key, signed).value;
      t.containers == s.containers && t.owned == s.owned && t.deleted == s.deleted
  {
    hide Shift, IsMember, StatOf, SummaryOf, LogEntry, Billed;
  }

  lemma OwnerChangesOnly(s: State, c: Call, id: Cid)
    requires id in s.containers && id in Step(s, c).containers
    ensures Step(s, c).containers[id].owner == s.containers[id].owner || GivenTo(c, id, Step(s, c).containers[id].owner)
  {
    hide Apply, Others;
    if Apply(s, c.env, c.op).Ok? {
      StepChanges(s, c.env, c.op);
    }
  }

  lemma CreationGives(s: State, c: Call, id: Cid)
    requires id !in s.containers && id in Step(s, c).containers
    ensures c.env.alphabet && c.op.Create? && c.op.id == id && id !in s.deleted
    ensures Step(s, c).containers[id] == Container(c.op.owner, 1, c.op.attributes)
  {
    hide Apply, Others;
    if Apply(s, c.env, c.op).Ok? {
      StepChanges(s, c.env, c.op);
    }
  }

  /** Whom the container belongs to, told by the accepted calls: for whom it was created or whom it was handed
      to last, with both signatures. */
  ghost function GivenLast(calls: seq<Call>, id: Cid): Option<Owner> {
    if calls == [] then None else
      var init, c := calls[..|calls| - 1], calls[|calls| - 1];
      if Apply(Exec(DEPLOYED, init), c.env, c.op).Fault? then GivenLast(init, id)
      else match c.op
        case Create(i, owner, _) => if i == id then Some(owner) else GivenLast(init, id)
        case Transfer(to, i, fromSigned, toSigned, _) => if i == id && fromSigned && toSigned then Some(to) else GivenLast(init, id)
        case _ => GivenLast(init, id)
  }

  lemma StepGives(s: State, c: Call, id: Cid, last: Option<Owner>)
    requires Apply(s, c.env, c.op).Ok? && (id in s.containers ==> last == Some(s.containers[id].owner))
    ensures var now := match c.op
      case Create(i, owner, _) => if i == id then Some(owner) else last
      case Transfer(to, i, fromSigned, toSigned, _) => if i == id && fromSigned && toSigned then Some(to) else last
      case _ => last;
      id in Step(s, c).containers ==> now == Some(Step(s, c).containers[id].owner)
  {
    hide Apply, Others;
    StepChanges(s, c.env, c.op);
  }

  /** In every run a live container belongs to whom it was last given. */
  lemma {:induction false} OwnerTellsCalls(calls: seq<Call>, id: Cid)
    ensures id in Exec(DEPLOYED, calls).containers ==> GivenLast(calls, id) == Some(Exec(DEPLOYED, calls).containers[id].owner)
  {
    hide Apply, Step;
    if calls == [] {
      ExecOfNone(DEPLOYED);
    } else {
      var init, c := calls[..|calls| - 1], calls[|calls| - 1];
      OwnerTellsCalls(init, id);
      if Apply(Exec(DEPLOYED, init), c.env, c.op).Ok? {
        StepGives(Exec(DEPLOYED, init), c, id, GivenLast(init, id));
      } else {
        FailedStep(Exec(DEPLOYED, init), c);
      }
    }
  }

  lemma FailedStep(s: State, c: Call)
    requires Apply(s, c.env, c.op).Fault?
    ensures Step(s, c) == s
  {
    hide Apply;
  }

  // ---- what a removal takes along ----

  /** Of the entries of a storage map exactly those of the container are gone. */
  ghost predicate Cleared<K(!new), V>(m: map<K, V>, after: map<K, V>, ofContainer: K -> bool) {
    && (forall k :: k in after <==> k in m && !ofContainer(k))
    && (forall k :: k in after ==> after[k] == m[k])
  }

  /** An accepted removal of a live container leaves nothing of it but the mark, and nothing else is touched. */
  lemma RemovalClears(s: State, e: Env, id: Cid)
    requires RemoveContainer(s, e, id).Ok? && id in s.containers
    ensures var t := RemoveContainer(s, e, id).value;
      && Cleared(s.containers, t.containers, c => c == id) && t.deleted == s.deleted + {id}
      && (forall p :: p in t.owned <==> p in s.owned && p != (s.containers[id].owner, id))
      && Cleared(s.nodes, t.nodes, (k: Slot) => k.cid == id) && Cleared(s.staged, t.staged, (k: Slot) => k.cid == id)
      && Cleared(s.replicas, t.replicas, (k: (Cid, nat)) => k.0 == id)
      && Cleared(s.reports, t.reports, (k: ReportKey) => k.0 == id) && Cleared(s.billing, t.billing, (k: ReportKey) => k.0 == id)
      && Cleared(s.summaries, t.summaries, c => c == id)
  {
    hide Shift, LockIndex, Cleared;
    ClearedIs(s.containers, {id}, c => c == id);
    ClearedIs(s.nodes, SlotsOf(s.nodes, id), (k: Slot) => k.cid == id);
    ClearedIs(s.staged, SlotsOf(s.staged, id), (k: Slot) => k.cid == id);
    ClearedIs(s.replicas, set k | k in s.replicas && k.0 == id, (k: (Cid, nat)) => k.0 == id);
    ClearedIs(s.reports, set k | k in s.reports && k.0 == id, (k: ReportKey) => k.0 == id);
    ClearedIs(s.billing, set k | k in s.billing && k.0 == id, (k: ReportKey) => k.0 == id);
    ClearedIs(s.summaries, {id}, c => c == id);
    hide SlotsOf;
  }

  lemma ClearedIs<K(!new), V>(m: map<K, V>, gone: set<K>, ofContainer: K -> bool)
    requires forall k :: k in m ==> (k in gone <==> ofContainer(k))
    ensures Cleared(m, m - gone, ofContainer)
  {
  }

  // ---- attributes ----

  /** The attributes other than locks, in order. */
  function Others(attributes: seq<Attribute>): seq<Attribute> {
    if attributes == [] then []
    else (if attributes[0].LockUntil? then [] else [attributes[0]]) + Others(attributes[1..])
  }

  /** The ends of the locks in seconds, in order; the first is the effective one. */
  function Locks(attributes: seq<Attribute>): seq<int> {
    if attributes == [] then []
    else (if attributes[0].LockUntil? then [attributes[0].seconds] else []) + Locks(attributes[1..])
  }

  lemma {:induction false} OthersAppend(a: seq<Attribute>, b: seq<Attribute>)
    ensures Others(a + b) == Others(a) + Others(b)
  {
    if a == [] {
      assert a + b == b;
    } else {
      assert (a + b)[1..] == a[1..] + b;
      OthersAppend(a[1..], b);
      var head := if a[0].LockUntil? then [] else [a[0]];
      assert head + (Others(a[1..]) + Others(b)) == head + Others(a[1..]) + Others(b);
    }
  }

  lemma {:induction false} LocksAppend(a: seq<Attribute>, b: seq<Attribute>)
    ensures Locks(a + b) == Locks(a) + Locks(b)
  {
    if a == [] {
      assert a + b == b;
    } else {
      assert (a + b)[1..] == a[1..] + b;
      LocksAppend(a[1..], b);
      var head := if a[0].LockUntil? then [a[0].seconds] else [];
      assert head + (Locks(a[1..]) + Locks(b)) == head + Locks(a[1..]) + Locks(b);
    }
  }

  lemma PartsAppend(a: seq<Attribute>, b: seq<Attribute>)
    ensures Others(a + b) == Others(a) + Others(b) && Locks(a + b) == Locks(a) + Locks(b)
  {
    OthersAppend(a, b);
    LocksAppend(a, b);
  }

  lemma SingleParts(a: Attribute)
    ensures Others([a]) == if a.LockUntil? then [] else [a]
    ensures Locks([a]) == if a.LockUntil? then [a.seconds] else []
  {
    assert [a][1..] == [];
  }

  lemma {:induction false} BeforeLock(attributes: seq<Attribute>)
    ensures var i := LockIndex(attributes);
      && Locks(attributes[..i]) == []
      && (Locks(attributes) == [] <==> i == |attributes|)
      && (i < |attributes| ==> Locks(attributes)[0] == attributes[i].seconds)
  {
    var i := LockIndex(attributes);
    if attributes != [] && !attributes[0].LockUntil? {
      BeforeLock(attributes[1..]);
      assert attributes[..i][1..] == attributes[1..][..i - 1];
    }
  }

  lemma NoParts()
    ensures Others([]) == [] && Locks([]) == []
  {
  }

  /** The first lock replaced. */
  lemma AtLock(attributes: seq<Attribute>, now: seq<Attribute>)
    requires LockIndex(attributes) < |attributes| && Locks(attributes) != [] && Others(now) == []
    ensures var i := LockIndex(attributes); var after := attributes[..i] + now + attributes[i + 1..];
      && Others(after) == Others(attributes)
      && Locks(after) == Locks(now) + Locks(attributes)[1..]
  {
    hide Others, Locks;
    var i := LockIndex(attributes);
    var head, tail, lock := attributes[..i], attributes[i + 1..], [attributes[i]];
    BeforeLock(attributes);
    SingleParts(attributes[i]);
    assert attributes == head + lock + tail;
    PartsAppend(head + lock, tail);
    PartsAppend(head, lock);
    PartsAppend(head + now, tail);
    PartsAppend(head, now);
  }

  /** Setting a lock writes the effective one, and a new one at the end if there is none; nothing else about
      the container changes. */
  lemma SetLockWrites(s: State, e: Env, id: Cid, seconds: int, validUntil: int)
    requires PutLock(s, e, id, seconds, validUntil).Ok?
    ensures var t := PutLock(s, e, id, seconds, validUntil).value;
      && id in s.containers && t == s.(containers := s.containers[id := t.containers[id]])
      && var c, d := s.containers[id], t.containers[id];
         && d.owner == c.owner && d.revision == c.revision + 1 && Others(d.attributes) == Others(c.attributes)
         && Locks(d.attributes) == [seconds] + (if Locks(c.attributes) == [] then [] else Locks(c.attributes)[1..])
  {
    hide Others, Locks, LockIndex;
    var c, lock := s.containers[id], [LockUntil(seconds)];
    var i := LockIndex(c.attributes);
    BeforeLock(c.attributes);
    SingleParts(LockUntil(seconds));
    if i < |c.attributes| {
      AtLock(c.attributes, lock);
      assert c.attributes[i := LockUntil(seconds)] == c.attributes[..i] + lock + c.attributes[i + 1..];
    } else {
      PartsAppend(c.attributes, lock);
      assert Others(c.attributes) + [] == Others(c.attributes) && [] + [seconds] == [seconds] + [];
    }
  }

  /** Removing a lock takes the effective one away, which has run out, and nothing else. */
  lemma RemoveLockTakesOne(s: State, e: Env, id: Cid, validUntil: int)
    requires DropLock(s, e, id, validUntil).Ok?
    ensures var t := DropLock(s, e, id, validUntil).value;
      && id in s.containers && t == s.(containers := s.containers[id := t.containers[id]])
      && var c, d := s.containers[id], t.containers[id];
         && d.owner == c.owner && Others(d.attributes) == Others(c.attributes)
         && Locks(d.attributes) == (if Locks(c.attributes) == [] then [] else Locks(c.attributes)[1..])
         && (if Locks(c.attributes) == [] then d == c else d.revision == c.revision + 1 && Locks(c.attributes)[0] * 1000 <= e.now)
  {
    var c := s.containers[id];
    var i := LockIndex(c.attributes);
    BeforeLock(c.attributes);
    NoParts();
    hide Others, Locks, LockIndex;
    if i < |c.attributes| {
      AtLock(c.attributes, []);
      assert [] + Locks(c.attributes)[1..] == Locks(c.attributes)[1..];
      assert c.attributes[..i] + [] + c.attributes[i + 1..] == c.attributes[..i] + c.attributes[i + 1..];
    } else {
      assert s.containers[id := c] == s.containers;
    }
  }

  /** A container's attributes other than locks never change, through any calls, unless it is created again. */
  lemma StepKeepsOthers(s: State, c: Call, id: Cid)
    requires id in s.containers && id in Step(s, c).containers && !(c.op.Create? && c.op.id == id)
    ensures Others(Step(s, c).containers[id].attributes) == Others(s.containers[id].attributes)
  {
    hide Apply, Others;
    if Apply(s, c.env, c.op).Ok? {
      StepChanges(s, c.env, c.op);
    }
  }

  lemma {:induction false} OthersLast(s: State, calls: seq<Call>, id: Cid)
    requires id in s.containers && s.containers.Keys !! s.deleted
    requires forall c :: c in calls ==> !(c.op.Create? && c.op.id == id)
    requires id in Exec(s, calls).containers
    ensures Others(Exec(s, calls).containers[id].attributes) == Others(s.containers[id].attributes)
  {
    hide Step, Others;
    if calls != [] {
      var init, c := calls[..|calls| - 1], calls[|calls| - 1];
      assert c in calls && forall d :: d in init ==> d in calls;
      GoneIsMarked(s, init, id);
      if id in Exec(s, init).containers {
        OthersLast(s, init, id);
        StepKeepsOthers(Exec(s, init), c, id);
      } else {
        DeletedIsFinal(Exec(s, init), c);
      }
    }
  }

  /** A container that is gone has left its mark. */
  lemma {:induction false} GoneIsMarked(s: State, calls: seq<Call>, id: Cid)
    requires id in s.containers && s.containers.Keys !! s.deleted
    ensures var t := Exec(s, calls); t.containers.Keys !! t.deleted && (id in t.containers || id in t.deleted)
  {
    hide Step;
    if calls != [] {
      var init, c := calls[..|calls| - 1], calls[|calls| - 1];
      GoneIsMarked(s, init, id);
      DeletedIsFinal(Exec(s, init), c);
      if id in Exec(s, init).containers && id !in Step(Exec(s, init), c).containers {
        OnlyRemovalRemoves(Exec(s, init), c, id);
      }
    }
  }

  // ---- commits ----

  /** Where the sums are kept, a commit goes through exactly for the alphabet, on a proper id, with replica numbers
      up to 255. */
  lemma CommitAcceptsIff(s: State, e: Env, cid: Cid, vectors: seq<nat>)
    requires Ledger(s)
    ensures CommitList(s, e, cid, vectors).Ok? <==> e.alphabet && |cid| == 32 && forall v :: v in vectors ==> v <= 255
  {
    if e.alphabet && |cid| == 32 {
      CommitKeepsLedger(s, e, cid, vectors);
    }
    hide Ledger, Departed, Sum;
  }

  /** A report goes with a commit exactly if it is of a node on the container's list that is not staged for any
      of the placement vectors given a replica number. */
  lemma CommitDropsIff(s: State, e: Env, cid: Cid, vectors: seq<nat>, c: Cid, a: Account)
    requires CommitList(s, e, cid, vectors).Ok? && (c, a) in s.reports
    ensures (c, a) in CommitList(s, e, cid, vectors).value.reports
       <==> c != cid || (forall v :: Slot(cid, v, a) !in s.nodes) || (exists i: nat :: i < |vectors| && Slot(cid, i, a) in s.staged)
  {
    CommitReplacesList(s, e, cid, vectors);
    hide CommitList;
    if c == cid && !Stays(s.staged, cid, a, |vectors|) && Listed(s.nodes, cid, a) {
      DepartedHas(s, cid, a, |vectors|);
    }
  }

  // ---- replica numbers ----

  lemma {:induction false} ReplicasPut(m: map<(Cid, nat), nat>, cid: Cid, vectors: seq<nat>)
    ensures var t := PutReplicas(m, cid, vectors);
      && (forall i: nat :: i < |vectors| ==> (cid, i) in t && t[(cid, i)] == vectors[i])
      && (forall k :: k in t <==> k in m || (k.0 == cid && k.1 < |vectors|))
      && (forall k :: k in m && !(k.0 == cid && k.1 < |vectors|) ==> t[k] == m[k])
  {
    if vectors != [] {
      ReplicasPut(m, cid, vectors[..|vectors| - 1]);
    }
  }

  /** A commit stores exactly the replica numbers given, in order, and leaves those of other containers. */
  lemma CommitStoresReplicas(s: State, e: Env, cid: Cid, vectors: seq<nat>)
    requires CommitList(s, e, cid, vectors).Ok?
    ensures var t := CommitList(s, e, cid, vectors).value;
      && (forall i: nat :: (cid, i) in t.replicas <==> i < |vectors|)
      && (forall i: nat :: i < |vectors| ==> t.replicas[(cid, i)] == vectors[i])
      && (forall k: (Cid, nat) :: k.0 != cid ==> (k in t.replicas <==> k in s.replicas) && (k in s.replicas ==> t.replicas[k] == s.replicas[k]))
  {
    var m := s.replicas - (set k | k in s.replicas && k.0 == cid);
    ReplicasPut(m, cid, vectors);
    assert CommitList(s, e, cid, vectors).value.replicas == PutReplicas(m, cid, vectors) by {
      hide PutReplicas, Departed, Sum, SlotsOf, Shift;
    }
    hide PutReplicas, CommitList;
  }

  // ---- what an error says ----

  /** The container or list a call is about. */
  function Target(op: Operation): Cid {
    match op
    case Create(id, _, _) => id
    case Remove(id) => id
    case Transfer(_, id, _, _, _) => id
    case SetLock(id, _, _) => id
    case RemoveLock(id, _) => id
    case AddNextEpochNodes(cid, _, _) => cid
    case Commit(cid, _) => cid
    case PutReport(cid, _, _, _, _) => cid
  }

  /** A call that fails says why: whatever the order of the checks, the reason given is true. */
  lemma ErrorsAreTrue(s: State, e: Env, op: Operation)
    requires Apply(s, e, op).Fault?
    ensures var id := Target(op);
      match Apply(s, e, op).error
      case NoAlphabetWitness => !e.alphabet && !op.Transfer? && !op.PutReport?
      case NoNodeWitness => op.PutReport? && !op.signed
      case InvalidContainerId => |id| != 32 && (op.Remove? || op.AddNextEpochNodes? || op.Commit?)
      case InvalidReceiver => op.Transfer? && |op.to| != 20
      case NotFound => id !in s.containers && !op.Remove? && (op.Transfer? ==> id !in s.deleted)
      case Deleted => id in s.deleted && (op.Create? || (op.Transfer? && id !in s.containers))
      case Locked =>
        id in s.containers && LockEnd(s.containers[id]).Some?
        && ((op.Remove? && e.now <= LockEnd(s.containers[id]).value) || (op.RemoveLock? && e.now < LockEnd(s.containers[id]).value))
      case InvalidLock =>
        if op.Create? then exists a :: a in op.attributes && a.LockUntil? && (a.seconds <= 0 || a.seconds * 1000 <= e.now)
        else op.SetLock? && (op.seconds <= 0 || op.seconds * 1000 <= e.now
                             || (id in s.containers && LockEnd(s.containers[id]).Some? && op.seconds * 1000 <= LockEnd(s.containers[id]).value))
      case RequestExpired => (op.SetLock? || op.RemoveLock?) && op.validUntil * 1000 < e.now
      case TooManyNodes => (op.AddNextEpochNodes? && 255 <= op.vector) || (op.Commit? && exists v :: v in op.vectors && 255 < v)
      case VectorGap => op.AddNextEpochNodes? && op.vector != 0 && forall k :: k in s.staged ==> k.cid != id || k.vector != op.vector - 1
      case InvalidPublicKey => op.AddNextEpochNodes? && exists k :: k in op.keys && |k| != 33
      case NotMember => op.PutReport? && !Serves(s, id, op.key)
      case TooManyReports =>
        op.PutReport? && var k := (id, StandardAccount(op.key)); k in s.reports && s.reports[k].epoch == e.epoch && s.reports[k].number == 3
      case DivisionByZero => op.PutReport? && e.duration == 0
      case NoSummary => op.Commit? && (id !in s.summaries || id !in s.containers)
  {
    hide LockIndex, Shift, Departed, Sum, Stage, Billing.Updated, SlotsOf, PutReplicas;
    if op.PutReport? {
      MembersServe(s, op.cid, op.key);
      hide IsMember, Serves;
    } else if op.AddNextEpochNodes? && 0 < op.vector {
      VectorsStaged(s.staged, op.cid, op.vector - 1);
    }
  }
}
