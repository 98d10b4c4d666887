/** What each entry point of the container contract keeps: the three levels of sums, the owner index,
    and the bond between reports and membership. */
module ContainerLaws {
  import opened Storage
  import opened Containers

  // ---- the ledger of reports ----

  /** Worth of a container summary to an owner. */
  function OwnedBy(containers: map<Cid, Container>, o: Owner): (Cid, Summary) -> int {
    (c: Cid, sm: Summary) => if c in containers && containers[c].owner == o then sm.size else 0
  }

  /** Container summaries are the sums of the node reports. */
  ghost predicate SummariesAgree(s: State) {
    && (forall c :: SummaryOf(s, c).size == Sum(s.reports, SizeIn(c)))
    && (forall c :: SummaryOf(s, c).objects == Sum(s.reports, ObjectsIn(c)))
  }

  /** An owner's taken space is the sum of the summaries of the containers owned. */
  ghost predicate OwnersAgree(s: State) {
    && (forall o :: Get(s.taken, o) == Sum(s.summaries, OwnedBy(s.containers, o)))
    && (forall o :: o in s.taken ==> 0 < s.taken[o])
  }

  /** Nothing is reported for a container that is not there. */
  ghost predicate Housed(s: State) {
    && s.summaries.Keys <= s.containers.Keys
    && (forall k :: k in s.reports ==> k.0 in s.summaries)
    && (forall k :: k in s.billing ==> k.0 in s.containers)
  }

  ghost predicate Sized(s: State) {
    forall k :: k in s.reports ==> 0 <= s.reports[k].size && 0 <= s.reports[k].objects
  }

  ghost predicate Ledger(s: State) {
    SummariesAgree(s) && OwnersAgree(s) && Housed(s) && Sized(s)
  }

  /** What is taken off the owner was counted before: the clamp in the total never bites. */
  lemma OwnerCovers(s: State, c: Cid)
    requires Ledger(s) && c in s.summaries
    ensures 0 <= s.summaries[c].size <= Get(s.taken, s.containers[c].owner)
  {
    var o := s.containers[c].owner;
    forall d | d in s.summaries
      ensures 0 <= s.summaries[d].size
    {
      assert SummaryOf(s, d).size == Sum(s.reports, SizeIn(d));
      SumNonNegative(s.reports, SizeIn(d));
    }
    SumNonNegative(s.summaries, OwnedBy(s.containers, o));
    assert Get(s.taken, o) == Sum(s.summaries, OwnedBy(s.containers, o));
    assert OwnedBy(s.containers, o)(c, s.summaries[c]) == s.summaries[c].size;
  }

  /** Changing attributes or creating a container without a summary does not move any sum. */
  lemma OwnersUnmoved(s: State, containers: map<Cid, Container>)
    requires OwnersAgree(s)
    requires forall c :: c in s.summaries ==> (c in containers <==> c in s.containers)
    requires forall c :: c in s.summaries && c in containers ==> containers[c].owner == s.containers[c].owner
    ensures OwnersAgree(s.(containers := containers))
  {
    forall o
      ensures Sum(s.summaries, OwnedBy(containers, o)) == Sum(s.summaries, OwnedBy(s.containers, o))
    {
      SumAgrees(s.summaries, s.summaries, OwnedBy(containers, o), OwnedBy(s.containers, o));
    }
  }

  /** One summary and, by the same amount, its owner's total change. */
  lemma OwnersShift(s: State, c: Cid, sm: Summary)
    requires OwnersAgree(s) && c in s.containers
    requires 0 <= Get(s.taken, s.containers[c].owner) + (sm.size - SummaryOf(s, c).size)
    ensures OwnersAgree(s.(summaries := s.summaries[c := sm],
                           taken := Shift(s.taken, s.containers[c].owner, sm.size - SummaryOf(s, c).size)))
  {
    var after := s.(summaries := s.summaries[c := sm],
                    taken := Shift(s.taken, s.containers[c].owner, sm.size - SummaryOf(s, c).size));
    forall o
      ensures Get(after.taken, o) == Sum(after.summaries, OwnedBy(after.containers, o))
    {
      SumPut(s.summaries, c, sm, OwnedBy(s.containers, o));
      assert Get(s.taken, o) == Sum(s.summaries, OwnedBy(s.containers, o));
    }
  }

  lemma LockKeepsLedger(s: State, id: Cid, c: Container)
    requires Ledger(s) && id in s.containers && c.owner == s.containers[id].owner
    ensures Ledger(s.(containers := s.containers[id := c]))
  {
    var after := s.(containers := s.containers[id := c]);
    OwnersUnmoved(s, after.containers);
    assert forall d :: SummaryOf(after, d) == SummaryOf(s, d);
  }

  lemma EraseKeepsSummaries(s: State, id: Cid)
    requires SummariesAgree(s) && id in s.containers
    ensures SummariesAgree(Erase(s, id))
  {
    var after := Erase(s, id);
    forall c
      ensures SummaryOf(after, c).size == Sum(after.reports, SizeIn(c))
      ensures SummaryOf(after, c).objects == Sum(after.reports, ObjectsIn(c))
    {
      if c == id {
        SumWorthless(after.reports, SizeIn(c));
        SumWorthless(after.reports, ObjectsIn(c));
      } else {
        SumAgrees(after.reports, s.reports, SizeIn(c), SizeIn(c));
        SumAgrees(after.reports, s.reports, ObjectsIn(c), ObjectsIn(c));
        assert SummaryOf(s, c).size == Sum(s.reports, SizeIn(c));
      }
    }
  }

  /** Removal takes the container's whole summary off its owner. */
  lemma EraseKeepsLedger(s: State, id: Cid)
    requires Ledger(s) && id in s.containers
    ensures Ledger(Erase(s, id))
  {
    var after, owner := Erase(s, id), s.containers[id].owner;
    EraseKeepsSummaries(s, id);
    if id in s.summaries {
      OwnerCovers(s, id);
    }
    forall o
      ensures Get(after.taken, o) == Sum(after.summaries, OwnedBy(after.containers, o))
    {
      SumDelete(s.summaries, id, OwnedBy(s.containers, o));
      SumAgrees(after.summaries, after.summaries, OwnedBy(after.containers, o), OwnedBy(s.containers, o));
      assert Get(s.taken, o) == Sum(s.summaries, OwnedBy(s.containers, o));
    }
  }

  lemma ShiftGets(taken: map<Owner, int>, owner: Owner, diff: int, o: Owner)
    ensures o != owner ==> Get(Shift(taken, owner, diff), o) == Get(taken, o)
    ensures diff != 0 ==> Get(Shift(taken, owner, diff), owner) == if 0 < Get(taken, owner) + diff then Get(taken, owner) + diff else 0
    ensures diff == 0 ==> Shift(taken, owner, diff) == taken
    ensures (forall p :: p in taken ==> 0 < taken[p]) ==> forall p :: p in Shift(taken, owner, diff) ==> 0 < Shift(taken, owner, diff)[p]
  {
  }

  /** What the owners own after the handover. */
  lemma HandoverMovesSum(s: State, to: Owner, id: Cid, c: Container, o: Owner)
    requires OwnersAgree(s) && id in s.summaries && id in s.containers && s.containers[id].owner != to && c.owner == to
    ensures Sum(s.summaries, OwnedBy(s.containers[id := c], o))
         == Get(s.taken, o) + (if o == to then s.summaries[id].size else 0)
            - (if o == s.containers[id].owner then s.summaries[id].size else 0)
  {
    var worth, worth' := OwnedBy(s.containers, o), OwnedBy(s.containers[id := c], o);
    SumDelete(s.summaries, id, worth);
    SumDelete(s.summaries, id, worth');
    SumAgrees(s.summaries - {id}, s.summaries - {id}, worth, worth');
    assert Get(s.taken, o) == Sum(s.summaries, worth);
  }

  /** Creating a container keeps all sums exact, unless the id is live under another owner and its container
      has something on its summary. */
  lemma CreateKeepsLedgerIff(s: State, e: Env, id: Cid, owner: Owner, attributes: seq<Attribute>)
    requires Ledger(s) && CreateContainer(s, e, id, owner, attributes).Ok?
    ensures Ledger(CreateContainer(s, e, id, owner, attributes).value)
       <==> (id in s.containers && s.containers[id].owner != owner ==> SummaryOf(s, id).size == 0)
  {
    hide Sum;
    var after := CreateContainer(s, e, id, owner, attributes).value;
    assert forall c :: SummaryOf(after, c) == SummaryOf(s, c);
    if id in s.containers && s.containers[id].owner != owner && id in s.summaries {
      forall o
        ensures Sum(s.summaries, OwnedBy(after.containers, o))
             == Get(s.taken, o) + (if o == owner then s.summaries[id].size else 0)
                - (if o == s.containers[id].owner then s.summaries[id].size else 0)
      {
        HandoverMovesSum(s, owner, id, Container(owner, 1, attributes), o);
      }
      assert OwnersAgree(after) ==> Get(after.taken, owner) == Sum(after.summaries, OwnedBy(after.containers, owner));
    } else {
      OwnersUnmoved(s, after.containers);
    }
  }

  /** What the contract stores for the two owners. */
  lemma HandoverTotals(taken: map<Owner, int>, from: Owner, to: Owner, size: int, decoded: int)
    requires from != to && (forall p :: p in taken ==> 0 < taken[p]) && 0 <= size <= Get(taken, from)
    ensures var after := Shift(Shift(taken, from, -decoded), to, decoded);
      && (forall o :: o != from && o != to ==> Get(after, o) == Get(taken, o))
      && (forall p :: p in after ==> 0 < after[p])
      && (Get(after, from) == Get(taken, from) - size && Get(after, to) == Get(taken, to) + size <==> decoded == size)
  {
    var mid := Shift(taken, from, -decoded);
    var after := Shift(mid, to, decoded);
    forall o
      ensures o != from && o != to ==> Get(after, o) == Get(taken, o)
    {
      ShiftGets(taken, from, -decoded, o);
      ShiftGets(mid, to, decoded, o);
    }
    ShiftGets(taken, from, -decoded, to);
    ShiftGets(mid, to, decoded, from);
    assert 0 <= Get(taken, to);
  }

  /** Handing over a container moves its size from one owner's total to the other's exactly if the
      contract reads the size that the summary holds. */
  lemma TransferKeepsLedgerIff(s: State, to: Owner, id: Cid, decoded: int)
    requires Ledger(s) && id in s.summaries && |to| == HASH160_LEN && s.containers[id].owner != to
    ensures TransferContainer(s, to, id, true, true, decoded).Ok?
    ensures Ledger(TransferContainer(s, to, id, true, true, decoded).value) <==> decoded == s.summaries[id].size
  {
    hide Sum, Shift;
    var after := TransferContainer(s, to, id, true, true, decoded).value;
    var from, size := s.containers[id].owner, s.summaries[id].size;
    OwnerCovers(s, id);
    HandoverTotals(s.taken, from, to, size, decoded);
    forall o
      ensures Sum(after.summaries, OwnedBy(after.containers, o))
           == Get(s.taken, o) + (if o == to then size else 0) - (if o == from then size else 0)
    {
      HandoverMovesSum(s, to, id, after.containers[id], o);
    }
    assert SummariesAgree(after) by {
      assert forall c :: SummaryOf(after, c) == SummaryOf(s, c);
    }
    if OwnersAgree(after) {
      assert Get(after.taken, from) == Sum(after.summaries, OwnedBy(after.containers, from));
      assert Get(after.taken, to) == Sum(after.summaries, OwnedBy(after.containers, to));
    }
  }

  lemma AnyTransferKeepsLedgerIff(s: State, to: Owner, id: Cid, fromSigned: bool, toSigned: bool, decoded: int)
    requires Ledger(s) && TransferContainer(s, to, id, fromSigned, toSigned, decoded).Ok?
    ensures Ledger(TransferContainer(s, to, id, fromSigned, toSigned, decoded).value)
       <==> (fromSigned && toSigned && id in s.summaries && s.containers[id].owner != to ==> decoded == s.summaries[id].size)
  {
    if fromSigned && toSigned && s.containers[id].owner != to {
      if id in s.summaries {
        TransferKeepsLedgerIff(s, to, id, decoded);
      } else {
        var after := TransferContainer(s, to, id, fromSigned, toSigned, decoded).value;
        OwnersUnmoved(s, after.containers);
        assert forall c :: SummaryOf(after, c) == SummaryOf(s, c);
      }
    }
  }

  /** The contract reads a serialized structure as one integer. Where that is not the size it holds, here zero,
      the new owner is charged for nothing and the old one goes on paying. */
  lemma MisreadSummaryStays(s: State, to: Owner, id: Cid)
    requires Ledger(s) && id in s.summaries && |to| == HASH160_LEN && s.containers[id].owner != to
    requires 0 < s.summaries[id].size
    ensures TransferContainer(s, to, id, true, true, 0).Ok?
    ensures var after := TransferContainer(s, to, id, true, true, 0).value;
      && after.containers[id].owner == to && after.taken == s.taken && !Ledger(after)
  {
    TransferKeepsLedgerIff(s, to, id, 0);
    hide Ledger;
  }

  lemma SaveKeepsSummaries(s: State, k: ReportKey, r: NodeReport)
    requires SummariesAgree(s)
    ensures var was := if k in s.reports then s.reports[k] else NodeReport([], 0, 0, 0, 0);
            var sm := SummaryOf(s, k.0);
            SummariesAgree(s.(reports := s.reports[k := r],
                              summaries := s.summaries[k.0 := Summary(sm.size - was.size + r.size, sm.objects - was.objects + r.objects)]))
  {
    var was := if k in s.reports then s.reports[k] else NodeReport([], 0, 0, 0, 0);
    var sm := SummaryOf(s, k.0);
    var after := s.(reports := s.reports[k := r],
                    summaries := s.summaries[k.0 := Summary(sm.size - was.size + r.size, sm.objects - was.objects + r.objects)]);
    forall c
      ensures SummaryOf(after, c).size == Sum(after.reports, SizeIn(c))
      ensures SummaryOf(after, c).objects == Sum(after.reports, ObjectsIn(c))
    {
      SumPut(s.reports, k, r, SizeIn(c));
      SumPut(s.reports, k, r, ObjectsIn(c));
      assert SummaryOf(s, c).size == Sum(s.reports, SizeIn(c));
      assert SummaryOf(s, c).objects == Sum(s.reports, ObjectsIn(c));
    }
  }

  lemma SummariesOnly(s: State, t: State)
    requires SummariesAgree(s) && t.reports == s.reports && t.summaries == s.summaries
    ensures SummariesAgree(t)
  {
    assert forall c :: SummaryOf(t, c) == SummaryOf(s, c);
  }

  lemma OwnersOnly(s: State, t: State)
    requires OwnersAgree(s) && t.taken == s.taken && t.summaries == s.summaries && t.containers == s.containers
    ensures OwnersAgree(t)
  {
  }

  lemma ShiftBelowZero(s: State, c: Cid, sm: Summary)
    requires OwnersAgree(s) && c in s.containers
    requires Get(s.taken, s.containers[c].owner) + (sm.size - SummaryOf(s, c).size) < 0
    ensures Sum(s.summaries[c := sm], OwnedBy(s.containers, s.containers[c].owner)) < 0
  {
    var o := s.containers[c].owner;
    SumPut(s.summaries, c, sm, OwnedBy(s.containers, o));
    assert Get(s.taken, o) == Sum(s.summaries, OwnedBy(s.containers, o));
  }

  /** What a saved report changes in the ledger, and by how much. */
  lemma SaveEffect(s: State, e: Env, cid: Cid, size: int, objects: int, key: Bytes)
    requires SaveReport(s, e, cid, size, objects, key, true).Ok?
    ensures var after, k := SaveReport(s, e, cid, size, objects, key, true).value, (cid, StandardAccount(key));
            var was := if k in s.reports then s.reports[k] else NodeReport([], 0, 0, 0, 0);
            var base, sm := SummaryOf(s, cid), SummaryOf(after, cid);
      && cid in s.containers && after.containers == s.containers
      && k in after.reports && after.reports == s.reports[k := after.reports[k]]
      && after.reports[k].size == size && after.reports[k].objects == objects
      && after.summaries == s.summaries[cid := sm]
      && sm == Summary(base.size - was.size + size, base.objects - was.objects + objects)
      && after.taken == Shift(s.taken, s.containers[cid].owner, size - was.size)
      && after.billing.Keys == s.billing.Keys + {k}
  {
    hide Shift, IsMember;
  }

  lemma SavedSummaries(s: State, e: Env, cid: Cid, size: int, objects: int, key: Bytes)
    requires SummariesAgree(s) && SaveReport(s, e, cid, size, objects, key, true).Ok?
    ensures SummariesAgree(SaveReport(s, e, cid, size, objects, key, true).value)
  {
    SaveEffect(s, e, cid, size, objects, key);
    hide SummariesAgree, Sum, SaveReport, Shift;
    var after, k := SaveReport(s, e, cid, size, objects, key, true).value, (cid, StandardAccount(key));
    SaveKeepsSummaries(s, k, after.reports[k]);
    SummariesOnly(s.(reports := after.reports, summaries := after.summaries), after);
  }

  lemma SavedOwnersIff(s: State, e: Env, cid: Cid, size: int, objects: int, key: Bytes)
    requires OwnersAgree(s) && SaveReport(s, e, cid, size, objects, key, true).Ok?
    ensures var after, k := SaveReport(s, e, cid, size, objects, key, true).value, (cid, StandardAccount(key));
            var was := if k in s.reports then s.reports[k].size else 0;
            OwnersAgree(after) <==> 0 <= Get(s.taken, s.containers[cid].owner) + size - was
  {
    SaveEffect(s, e, cid, size, objects, key);
    hide OwnersAgree, Sum, SaveReport, Shift;
    var after := SaveReport(s, e, cid, size, objects, key, true).value;
    var sm := SummaryOf(after, cid);
    OwnersShiftIff(s, cid, sm);
    OwnersSame(s.(summaries := s.summaries[cid := sm],
                  taken := Shift(s.taken, s.containers[cid].owner, sm.size - SummaryOf(s, cid).size)), after);
  }

  lemma OwnersSame(s: State, t: State)
    requires t.taken == s.taken && t.summaries == s.summaries && t.containers == s.containers
    ensures OwnersAgree(s) <==> OwnersAgree(t)
  {
  }

  /** A report keeps the sums exactly if it does not push the owner's total below zero, where the
      contract forgets by how much. */
  lemma SaveKeepsSumsIff(s: State, e: Env, cid: Cid, size: int, objects: int, key: Bytes)
    requires SummariesAgree(s) && OwnersAgree(s) && Housed(s)
    requires SaveReport(s, e, cid, size, objects, key, true).Ok?
    ensures var after, k := SaveReport(s, e, cid, size, objects, key, true).value, (cid, StandardAccount(key));
            var was := if k in s.reports then s.reports[k].size else 0;
      && SummariesAgree(after) && Housed(after)
      && (OwnersAgree(after) <==> 0 <= Get(s.taken, s.containers[cid].owner) + size - was)
  {
    SavedSummaries(s, e, cid, size, objects, key);
    SavedOwnersIff(s, e, cid, size, objects, key);
    SaveEffect(s, e, cid, size, objects, key);
    hide SummariesAgree, OwnersAgree, SaveReport, Shift;
  }

  /** A first report of a negative size, for an owner with nothing else, is forgotten in the owner's total
      but not in the container's. */
  lemma NegativeReportBreaksSums(s: State, e: Env, cid: Cid, key: Bytes)
    requires SummariesAgree(s) && OwnersAgree(s) && Housed(s)
    requires cid in s.containers && IsMember(s, cid, key) && (cid, StandardAccount(key)) !in s.reports
    requires Get(s.taken, s.containers[cid].owner) == 0
    ensures SaveReport(s, e, cid, -5, 0, key, true).Ok?
    ensures var after := SaveReport(s, e, cid, -5, 0, key, true).value;
      && Get(after.taken, s.containers[cid].owner) == 0
      && SummaryOf(after, cid).size == SummaryOf(s, cid).size - 5
      && !OwnersAgree(after)
  {
    SaveKeepsSumsIff(s, e, cid, -5, 0, key);
    hide SummariesAgree, OwnersAgree, Housed;
  }

  lemma OwnersShiftIff(s: State, c: Cid, sm: Summary)
    requires OwnersAgree(s) && c in s.containers
    ensures OwnersAgree(s.(summaries := s.summaries[c := sm],
                           taken := Shift(s.taken, s.containers[c].owner, sm.size - SummaryOf(s, c).size)))
       <==> 0 <= Get(s.taken, s.containers[c].owner) + (sm.size - SummaryOf(s, c).size)
  {
    var o := s.containers[c].owner;
    if 0 <= Get(s.taken, o) + (sm.size - SummaryOf(s, c).size) {
      OwnersShift(s, c, sm);
    } else {
      ShiftBelowZero(s, c, sm);
      assert Sum(s.summaries[c := sm], OwnedBy(s.containers, o)) < 0;
      assert 0 <= Get(Shift(s.taken, o, sm.size - SummaryOf(s, c).size), o);
    }
  }

  /** No report is larger than what its container's owner is charged for. */
  lemma ReportIsCovered(s: State, k: ReportKey)
    requires Ledger(s) && k in s.reports
    ensures k.0 in s.containers && 0 <= s.reports[k].size <= Get(s.taken, s.containers[k.0].owner)
  {
    OwnerCovers(s, k.0);
    assert SummaryOf(s, k.0).size == Sum(s.reports, SizeIn(k.0));
    SumNonNegative(s.reports, SizeIn(k.0));
    assert SizeIn(k.0)(k, s.reports[k]) == s.reports[k].size;
  }

  /** A report keeps the ledger exactly if its sizes are sizes. */
  lemma SaveKeepsLedgerIff(s: State, e: Env, cid: Cid, size: int, objects: int, key: Bytes, signed: bool)
    requires Ledger(s) && SaveReport(s, e, cid, size, objects, key, signed).Ok?
    ensures Ledger(SaveReport(s, e, cid, size, objects, key, signed).value) <==> 0 <= size && 0 <= objects
  {
    hide Shift, SummariesAgree, OwnersAgree, Housed, IsMember;
    assert signed;
    hide SaveReport;
    var k := (cid, StandardAccount(key));
    if k in s.reports {
      ReportIsCovered(s, k);
    }
    TakenIsPositive(s);
    SaveKeepsSumsIff(s, e, cid, size, objects, key);
    SaveEffect(s, e, cid, size, objects, key);
  }

  lemma TakenIsPositive(s: State)
    requires OwnersAgree(s)
    ensures forall o :: 0 <= Get(s.taken, o)
  {
    hide Sum;
  }

  // ---- committing a node list ----

  lemma DepartedSums(s: State, cid: Cid, n: nat)
    requires Ledger(s)
    ensures var reports := s.reports - Departed(s, cid, n);
      && (forall c :: c != cid ==> Sum(reports, SizeIn(c)) == Sum(s.reports, SizeIn(c))
                                   && Sum(reports, ObjectsIn(c)) == Sum(s.reports, ObjectsIn(c)))
      && 0 <= Sum(reports, SizeIn(cid))
  {
    var reports := s.reports - Departed(s, cid, n);
    forall c | c != cid
      ensures Sum(reports, SizeIn(c)) == Sum(s.reports, SizeIn(c)) && Sum(reports, ObjectsIn(c)) == Sum(s.reports, ObjectsIn(c))
    {
      SumAgrees(reports, s.reports, SizeIn(c), SizeIn(c));
      SumAgrees(reports, s.reports, ObjectsIn(c), ObjectsIn(c));
    }
    SumNonNegative(reports, SizeIn(cid));
  }

  /** A container with nothing reported has no departed reports to take off. */
  lemma NothingDeparts(s: State, cid: Cid, n: nat)
    requires Housed(s) && cid !in s.summaries
    ensures s.reports - Departed(s, cid, n) == s.reports
  {
  }

  /** The container's summary after the commit, written as a function of what is left. */
  ghost function Rest(s: State, cid: Cid, n: nat): Summary {
    var reports := s.reports - Departed(s, cid, n);
    Summary(Sum(reports, SizeIn(cid)), Sum(reports, ObjectsIn(cid)))
  }

  lemma CommitSums(s: State, e: Env, cid: Cid, vectors: seq<nat>)
    requires Ledger(s) && |cid| == HASH256_LEN && e.alphabet && ReplicasFit(vectors) && cid in s.summaries
    ensures CommitList(s, e, cid, vectors).Ok?
    ensures var after, rest := CommitList(s, e, cid, vectors).value, Rest(s, cid, |vectors|);
      && after.summaries == s.summaries[cid := rest] && after.containers == s.containers && after.billing == s.billing
      && after.taken == Shift(s.taken, s.containers[cid].owner, rest.size - s.summaries[cid].size)
      && after.reports == s.reports - Departed(s, cid, |vectors|)
  {
    hide Sum, Departed;
    assert SummaryOf(s, cid).size == Sum(s.reports, SizeIn(cid));
    assert SummaryOf(s, cid).objects == Sum(s.reports, ObjectsIn(cid));
  }

  lemma CommitUnreported(s: State, e: Env, cid: Cid, vectors: seq<nat>)
    requires Ledger(s) && |cid| == HASH256_LEN && e.alphabet && ReplicasFit(vectors) && cid !in s.summaries
    ensures CommitList(s, e, cid, vectors).Ok?
    ensures Ledger(CommitList(s, e, cid, vectors).value)
  {
    hide Sum, Departed;
    NothingDeparts(s, cid, |vectors|);
    var after := CommitList(s, e, cid, vectors).value;
    SummariesOnly(s, after);
    OwnersOnly(s, after);
  }

  lemma CommitKeepsSummaries(s: State, e: Env, cid: Cid, vectors: seq<nat>)
    requires Ledger(s) && |cid| == HASH256_LEN && e.alphabet && ReplicasFit(vectors)
    requires cid in s.summaries && CommitList(s, e, cid, vectors).Ok?
    ensures SummariesAgree(CommitList(s, e, cid, vectors).value)
  {
    hide Sum, Departed, CommitList;
    CommitSums(s, e, cid, vectors);
    DepartedSums(s, cid, |vectors|);
    var after := CommitList(s, e, cid, vectors).value;
    forall c
      ensures SummaryOf(after, c).size == Sum(after.reports, SizeIn(c))
      ensures SummaryOf(after, c).objects == Sum(after.reports, ObjectsIn(c))
    {
      assert SummaryOf(s, c).size == Sum(s.reports, SizeIn(c));
      assert SummaryOf(s, c).objects == Sum(s.reports, ObjectsIn(c));
    }
  }

  /** Committing a list with proper replica numbers never fails for want of a summary, and takes each
      departed node's report off the container and its owner once. */
  lemma CommitKeepsLedger(s: State, e: Env, cid: Cid, vectors: seq<nat>)
    requires Ledger(s) && |cid| == HASH256_LEN && e.alphabet
    ensures CommitList(s, e, cid, vectors).Ok? <==> ReplicasFit(vectors)
    ensures ReplicasFit(vectors) ==> Ledger(CommitList(s, e, cid, vectors).value)
  {
    if ReplicasFit(vectors) {
      hide Sum, Departed, CommitList, SummariesAgree, OwnersAgree, ReplicasFit;
      if cid in s.summaries {
        CommitSums(s, e, cid, vectors);
        CommitKeepsSummaries(s, e, cid, vectors);
        OwnerCovers(s, cid);
        DepartedSums(s, cid, |vectors|);
        var after, rest := CommitList(s, e, cid, vectors).value, Rest(s, cid, |vectors|);
        OwnersShift(s, cid, rest);
        OwnersOnly(s.(summaries := s.summaries[cid := rest],
                      taken := Shift(s.taken, s.containers[cid].owner, rest.size - SummaryOf(s, cid).size)), after);
      } else {
        CommitUnreported(s, e, cid, vectors);
      }
    } else {
      hide Sum, Departed, SummariesAgree, OwnersAgree, ReplicasFit;
    }
  }

  /** The current list of the container becomes exactly what was staged, the stage is left empty, and no
      other container's lists change. */
  lemma CommitReplacesList(s: State, e: Env, cid: Cid, vectors: seq<nat>)
    requires CommitList(s, e, cid, vectors).Ok?
    ensures var after := CommitList(s, e, cid, vectors).value;
      && (forall k :: k in after.nodes <==> if k.cid == cid then k in s.staged else k in s.nodes)
      && (forall k :: k in after.nodes ==> after.nodes[k] == if k.cid == cid then s.staged[k] else s.nodes[k])
      && (forall k :: k in after.staged <==> k in s.staged && k.cid != cid)
      && (forall k :: k in after.staged ==> after.staged[k] == s.staged[k])
      && (forall k :: k in after.reports <==> k in s.reports && k !in Departed(s, cid, |vectors|))
      && (forall k :: k in after.reports ==> after.reports[k] == s.reports[k])
  {
    hide Departed, Sum, PutReplicas, Shift;
    ListsSwap(s.nodes, s.staged, cid);
    hide SlotsOf;
  }

  lemma ListsSwap(nodes: map<Slot, Bytes>, staged: map<Slot, Bytes>, cid: Cid)
    ensures var after := nodes - SlotsOf(nodes, cid) + (staged - (staged.Keys - SlotsOf(staged, cid)));
      && (forall k :: k in after <==> if k.cid == cid then k in staged else k in nodes)
      && (forall k :: k in after ==> after[k] == if k.cid == cid then staged[k] else nodes[k])
    ensures var rest := staged - SlotsOf(staged, cid);
      && (forall k :: k in rest <==> k in staged && k.cid != cid)
      && (forall k :: k in rest ==> rest[k] == staged[k])
  {
  }

  // ---- membership ----

  /** Lists are keyed by the accounts of the keys they hold. */
  ghost predicate Keyed(m: map<Slot, Bytes>) {
    forall k :: k in m ==> k.account == StandardAccount(m[k])
  }

  /** The placement vectors in use form a prefix 0..k. */
  ghost predicate Prefixed(m: map<Slot, Bytes>) {
    forall k :: k in m && 0 < k.vector ==> HasVector(m, k.cid, k.vector - 1)
  }

  ghost predicate Listed(m: map<Slot, Bytes>, cid: Cid, a: Account) {
    exists v :: Slot(cid, v, a) in m
  }

  /** Whoever has a report on record is on the container's current list. */
  ghost predicate ReportersListed(s: State) {
    forall k :: k in s.reports ==> Listed(s.nodes, k.0, k.1)
  }

  ghost predicate Membership(s: State) {
    Keyed(s.nodes) && Keyed(s.staged) && Prefixed(s.nodes) && Prefixed(s.staged) && ReportersListed(s)
  }

  lemma CommitKeepsMembership(s: State, e: Env, cid: Cid, vectors: seq<nat>)
    requires Membership(s) && CommitList(s, e, cid, vectors).Ok?
    ensures Membership(CommitList(s, e, cid, vectors).value)
  {
    var after := CommitList(s, e, cid, vectors).value;
    CommitReplacesList(s, e, cid, vectors);
    forall k | k in after.nodes && 0 < k.vector
      ensures HasVector(after.nodes, k.cid, k.vector - 1)
    {
      if k.cid == cid {
        var a :| Slot(k.cid, k.vector - 1, a) in s.staged;
        assert Slot(k.cid, k.vector - 1, a) in after.nodes;
      } else {
        var a :| Slot(k.cid, k.vector - 1, a) in s.nodes;
        assert Slot(k.cid, k.vector - 1, a) in after.nodes;
      }
    }
    forall k | k in after.staged && 0 < k.vector
      ensures HasVector(after.staged, k.cid, k.vector - 1)
    {
      var a :| Slot(k.cid, k.vector - 1, a) in s.staged;
      assert Slot(k.cid, k.vector - 1, a) in after.staged;
    }
    forall k | k in after.reports
      ensures Listed(after.nodes, k.0, k.1)
    {
      var v :| Slot(k.0, v, k.1) in s.nodes;
      if k.0 == cid {
        assert Stays(s.staged, cid, k.1, |vectors|);
        var i :| 0 <= i < |vectors| && Slot(cid, i, k.1) in s.staged;
        assert Slot(cid, i, k.1) in after.nodes;
      } else {
        assert Slot(k.0, v, k.1) in after.nodes;
      }
    }
  }

  /** A reporter keeps its report over a commit exactly if it is staged for one of the vectors given a
      replica number. So those who keep their reports are those who stay members, exactly as far as the
      replica numbers reach every reporter that is staged. */
  lemma CommitKeepsReportIff(s: State, e: Env, cid: Cid, vectors: seq<nat>, a: Account)
    requires Membership(s) && CommitList(s, e, cid, vectors).Ok? && (cid, a) in s.reports
    ensures var after, stays := CommitList(s, e, cid, vectors).value, Stays(s.staged, cid, a, |vectors|);
      && ((cid, a) in after.reports <==> stays)
      && (((cid, a) in after.reports <==> Listed(after.nodes, cid, a)) <==> (Listed(s.staged, cid, a) ==> stays))
  {
    var after := CommitList(s, e, cid, vectors).value;
    CommitReplacesList(s, e, cid, vectors);
    assert (cid, a) in Departed(s, cid, |vectors|) <==> !Stays(s.staged, cid, a, |vectors|) by {
      hide CommitList;
      if !Stays(s.staged, cid, a, |vectors|) {
        DepartedHas(s, cid, a, |vectors|);
      }
    }
    hide CommitList, Departed, Stays;
    ListedWhereStaged(after.nodes, s.staged, cid, a);
    assert Stays(s.staged, cid, a, |vectors|) ==> Listed(s.staged, cid, a) by {
      StaysIsListed(s.staged, cid, a, |vectors|);
    }
  }

  lemma ListedWhereStaged(nodes: map<Slot, Bytes>, staged: map<Slot, Bytes>, cid: Cid, a: Account)
    requires forall k: Slot :: k.cid == cid ==> (k in nodes <==> k in staged)
    ensures Listed(nodes, cid, a) <==> Listed(staged, cid, a)
  {
    if Listed(nodes, cid, a) {
      var v :| Slot(cid, v, a) in nodes;
      assert Slot(cid, v, a) in staged;
    }
    if Listed(staged, cid, a) {
      var v :| Slot(cid, v, a) in staged;
      assert Slot(cid, v, a) in nodes;
    }
  }

  lemma StaysIsListed(staged: map<Slot, Bytes>, cid: Cid, a: Account, n: nat)
    ensures Stays(staged, cid, a, n) ==> Listed(staged, cid, a)
  {
  }

  /** With too few replica numbers a node that stays a member loses its report: here one staged for the
      second vector only, committed with a single replica number. */
  lemma ShortCommitDropsMember(s: State, e: Env, cid: Cid, a: Account)
    requires Listed(s.nodes, cid, a) && e.alphabet && |cid| == HASH256_LEN && (cid, a) in s.reports
    requires Slot(cid, 1, a) in s.staged && Slot(cid, 0, a) !in s.staged
    requires CommitList(s, e, cid, [1]).Ok?
    ensures var after := CommitList(s, e, cid, [1]).value;
            Listed(after.nodes, cid, a) && (cid, a) !in after.reports
  {
    CommitReplacesList(s, e, cid, [1]);
    hide CommitList, Departed;
    assert Slot(cid, 1, a) in CommitList(s, e, cid, [1]).value.nodes;
    assert !Stays(s.staged, cid, a, 1);
    DepartedHas(s, cid, a, 1);
  }

  lemma DepartedHas(s: State, cid: Cid, a: Account, n: nat)
    requires Listed(s.nodes, cid, a) && !Stays(s.staged, cid, a, n) && (cid, a) in s.reports
    ensures (cid, a) in Departed(s, cid, n)
  {
    var v :| Slot(cid, v, a) in s.nodes;
    assert Slot(cid, v, a).account == a;
  }

  lemma {:induction false} StageAdds(staged: map<Slot, Bytes>, cid: Cid, vector: nat, keys: seq<Bytes>)
    ensures forall k :: k in Stage(staged, cid, vector, keys) <==>
              k in staged || (k.cid == cid && k.vector == vector && k.account.key in keys)
    ensures forall k :: k in staged && k !in Stage(map[], cid, vector, keys) ==> Stage(staged, cid, vector, keys)[k] == staged[k]
    ensures Keyed(staged) ==> Keyed(Stage(staged, cid, vector, keys))
  {
    if keys != [] {
      var init := keys[..|keys| - 1];
      StageAdds(staged, cid, vector, init);
      StageAdds(map[], cid, vector, init);
      assert keys == init + [keys[|keys| - 1]];
    }
  }

  lemma StageKeepsMembership(s: State, e: Env, cid: Cid, vector: nat, keys: seq<Bytes>)
    requires Membership(s) && StageNodes(s, e, cid, vector, keys).Ok?
    ensures Membership(StageNodes(s, e, cid, vector, keys).value)
  {
    var after := StageNodes(s, e, cid, vector, keys).value;
    StageAdds(s.staged, cid, vector, keys);
    forall k | k in after.staged && 0 < k.vector
      ensures HasVector(after.staged, k.cid, k.vector - 1)
    {
      var a :| Slot(k.cid, k.vector - 1, a) in s.staged;
      assert Slot(k.cid, k.vector - 1, a) in after.staged;
    }
  }

  lemma EraseKeepsMembership(s: State, id: Cid)
    requires Membership(s) && id in s.containers
    ensures Membership(Erase(s, id))
  {
    var after := Erase(s, id);
    forall k | k in after.nodes && 0 < k.vector
      ensures HasVector(after.nodes, k.cid, k.vector - 1)
    {
      var a :| Slot(k.cid, k.vector - 1, a) in s.nodes;
      assert Slot(k.cid, k.vector - 1, a) in after.nodes;
    }
    forall k | k in after.staged && 0 < k.vector
      ensures HasVector(after.staged, k.cid, k.vector - 1)
    {
      var a :| Slot(k.cid, k.vector - 1, a) in s.staged;
      assert Slot(k.cid, k.vector - 1, a) in after.staged;
    }
    forall k | k in after.reports
      ensures Listed(after.nodes, k.0, k.1)
    {
      var v :| Slot(k.0, v, k.1) in s.nodes;
      assert Slot(k.0, v, k.1) in after.nodes;
    }
  }

  lemma SaveKeepsMembership(s: State, e: Env, cid: Cid, size: int, objects: int, key: Bytes, signed: bool)
    requires Membership(s) && SaveReport(s, e, cid, size, objects, key, signed).Ok?
    ensures Membership(SaveReport(s, e, cid, size, objects, key, signed).value)
  {
    var after := SaveReport(s, e, cid, size, objects, key, signed).value;
    var k :| k in s.nodes && k.cid == cid && s.nodes[k] == key;
    assert k == Slot(cid, k.vector, StandardAccount(key));
    forall r | r in after.reports
      ensures Listed(after.nodes, r.0, r.1)
    {
      if r == (cid, StandardAccount(key)) {
        assert Slot(r.0, k.vector, r.1) in after.nodes;
      }
    }
  }

  // ---- the owner index ----

  ghost predicate Indexed(s: State) {
    && s.containers.Keys !! s.deleted
    && (forall o, c :: (o, c) in s.owned <==> c in s.containers && s.containers[c].owner == o)
  }

  /** Creating a container keeps the index exact unless the id is live already under another owner. */
  lemma CreateKeepsIndexIff(s: State, e: Env, id: Cid, owner: Owner, attributes: seq<Attribute>)
    requires Indexed(s) && CreateContainer(s, e, id, owner, attributes).Ok?
    ensures Indexed(CreateContainer(s, e, id, owner, attributes).value)
       <==> (id in s.containers ==> s.containers[id].owner == owner)
  {
    var after := CreateContainer(s, e, id, owner, attributes).value;
    if id in s.containers && s.containers[id].owner != owner {
      assert (s.containers[id].owner, id) in after.owned;
    }
  }

  /** What the sums need of an accepted call: no id taken over with something on its summary, a summary read
      as what it holds, and sizes that are sizes. */
  predicate KeepsSums(s: State, op: Operation) {
    match op
    case Create(id, owner, _) => id in s.containers && s.containers[id].owner != owner ==> SummaryOf(s, id).size == 0
    case Transfer(to, id, fromSigned, toSigned, decoded) =>
      (fromSigned && toSigned && id in s.containers && s.containers[id].owner != to && id in s.summaries)
      ==> decoded == s.summaries[id].size
    case PutReport(_, size, objects, _, _) => 0 <= size && 0 <= objects
    case _ => true
  }

  /** What the owner index needs: no id taken over from another owner. */
  predicate KeepsOwners(s: State, op: Operation) {
    op.Create? && op.id in s.containers ==> s.containers[op.id].owner == op.owner
  }

  ghost predicate Invariant(s: State) {
    Ledger(s) && Membership(s) && Indexed(s)
  }

  lemma StageKeepsLedger(s: State, e: Env, cid: Cid, vector: nat, keys: seq<Bytes>)
    requires Ledger(s) && StageNodes(s, e, cid, vector, keys).Ok?
    ensures Ledger(StageNodes(s, e, cid, vector, keys).value)
  {
    hide Sum, Stage;
    assert forall c :: SummaryOf(StageNodes(s, e, cid, vector, keys).value, c) == SummaryOf(s, c);
  }

  lemma CommittedKeepsLedger(s: State, e: Env, cid: Cid, vectors: seq<nat>)
    requires Ledger(s) && CommitList(s, e, cid, vectors).Ok?
    ensures Ledger(CommitList(s, e, cid, vectors).value)
  {
    hide Sum, Departed, Ledger, SlotsOf, PutReplicas, Shift;
    CommitKeepsLedger(s, e, cid, vectors);
  }

  lemma ApplyKeepsLedgerIff(s: State, e: Env, op: Operation)
    requires Ledger(s) && Apply(s, e, op).Ok?
    ensures Ledger(Apply(s, e, op).value) <==> KeepsSums(s, op)
  {
    hide CommitList, StageNodes, SaveReport, Shift, LockIndex, SummariesAgree, OwnersAgree, Sized;
    var after := Apply(s, e, op).value;
    match op
    case Create(id, owner, attributes) => CreateKeepsLedgerIff(s, e, id, owner, attributes);
    case Remove(id) => if id in s.containers { EraseKeepsLedger(s, id); }
    case Transfer(to, id, fromSigned, toSigned, decoded) => AnyTransferKeepsLedgerIff(s, to, id, fromSigned, toSigned, decoded);
    case SetLock(id, _, _) => LockKeepsLedger(s, id, after.containers[id]);
    case RemoveLock(id, _) => LockKeepsLedger(s, id, after.containers[id]);
    case AddNextEpochNodes(cid, vector, keys) => StageKeepsLedger(s, e, cid, vector, keys);
    case Commit(cid, vectors) => CommittedKeepsLedger(s, e, cid, vectors);
    case PutReport(cid, size, objects, key, signed) => SaveKeepsLedgerIff(s, e, cid, size, objects, key, signed);
  }

  lemma ApplyKeepsMembership(s: State, e: Env, op: Operation)
    requires Membership(s) && Apply(s, e, op).Ok?
    ensures Membership(Apply(s, e, op).value)
  {
    match op
    case Remove(id) => if id in s.containers { EraseKeepsMembership(s, id); }
    case AddNextEpochNodes(cid, vector, keys) => StageKeepsMembership(s, e, cid, vector, keys);
    case Commit(cid, vectors) => CommitKeepsMembership(s, e, cid, vectors);
    case PutReport(cid, size, objects, key, signed) => SaveKeepsMembership(s, e, cid, size, objects, key, signed);
    case _ =>
  }

  /** The containers, their owners and the index are as before. */
  ghost predicate OwnersUnchanged(s: State, t: State) {
    && t.owned == s.owned && t.deleted == s.deleted && t.containers.Keys == s.containers.Keys
    && forall c :: c in s.containers ==> t.containers[c].owner == s.containers[c].owner
  }

  lemma ListsAndReportsLeaveOwners(s: State, e: Env, op: Operation)
    requires !op.Create? && !op.Remove? && !op.Transfer? && Apply(s, e, op).Ok?
    ensures OwnersUnchanged(s, Apply(s, e, op).value)
  {
    hide CommitList, SaveReport, Stage, LockIndex;
    match op
    case Commit(cid, vectors) => CommitLeavesOwners(s, e, cid, vectors);
    case PutReport(cid, size, objects, key, signed) => SaveLeavesOwners(s, e, cid, size, objects, key, signed);
    case _ =>
  }

  lemma CommitLeavesOwners(s: State, e: Env, cid: Cid, vectors: seq<nat>)
    requires CommitList(s, e, cid, vectors).Ok?
    ensures OwnersUnchanged(s, CommitList(s, e, cid, vectors).value)
  {
    hide Shift, SlotsOf, Departed, PutReplicas, Sum, SizeIn, ObjectsIn;
  }

  lemma SaveLeavesOwners(s: State, e: Env, cid: Cid, size: int, objects: int, key: Bytes, signed: bool)
    requires SaveReport(s, e, cid, size, objects, key, signed).Ok?
    ensures OwnersUnchanged(s, SaveReport(s, e, cid, size, objects, key, signed).value)
  {
    hide Shift, IsMember, StatOf, SummaryOf, LogEntry, Billed;
  }

  /** Every entry point keeps the index exact, a creation exactly if the id is not live under another owner.
      No mark of a deleted container is lost. */
  lemma ApplyKeepsIndexIff(s: State, e: Env, op: Operation)
    requires Indexed(s) && Apply(s, e, op).Ok?
    ensures Indexed(Apply(s, e, op).value) <==> KeepsOwners(s, op)
    ensures s.deleted <= Apply(s, e, op).value.deleted
  {
    if op.Create? {
      CreateKeepsIndexIff(s, e, op.id, op.owner, op.attributes);
    } else if !op.Remove? && !op.Transfer? {
      ListsAndReportsLeaveOwners(s, e, op);
      hide Apply;
    }
  }
}
