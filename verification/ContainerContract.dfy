/** The container contract as it runs (contracts/container/contract.go): storage entries read,
    rewritten and deleted step by step, proved to follow the rules of module Containers. */
module ContainerContract {
  import opened Storage
  import opened Containers
  import Billing

  /** The call did what the rules say; a failed one left everything as it was. */
  ghost predicate Obeys<T>(before: State, e: Env, op: Operation, after: State, outcome: Result<T, Error>) {
    match Apply(before, e, op)
    case Fault(error) => outcome == Fault(error) && after == before
    case Ok(s) => outcome.Ok? && after == s
  }

  /** Deletes the entries an iterator has found, one after the other. */
  method DeleteAll<K(==), V>(m: map<K, V>, keys: set<K>) returns (r: map<K, V>)
    ensures r == m - keys
  {
    r := m;
    var rest := keys;
    assert m - {} == m;
    while rest != {}
      invariant rest <= keys
      invariant r == m - (keys - rest)
      decreases |rest|
    {
      var k :| k in rest;
      r := r - {k};
      rest := rest - {k};
      assert keys - rest == keys - (rest + {k}) + {k};
    }
    assert keys - {} == keys;
  }

  lemma MinusMinus<K, V>(m: map<K, V>, a: set<K>, b: set<K>)
    ensures m - a - b == m - (a + b)
  {
  }

  /** Reports of departed nodes among the given list entries. */
  ghost function DepartedOf(done: set<Slot>, staged: map<Slot, Bytes>, reports: map<ReportKey, NodeReport>, cid: Cid, n: nat): set<ReportKey> {
    set k | k in done && !Stays(staged, cid, k.account, n) && (cid, k.account) in reports :: (cid, k.account)
  }

  lemma DepartedOfAll(s: State, cid: Cid, n: nat)
    ensures DepartedOf(SlotsOf(s.nodes, cid), s.staged, s.reports, cid, n) == Departed(s, cid, n)
  {
  }

  lemma DepartedOfNone(staged: map<Slot, Bytes>, reports: map<ReportKey, NodeReport>, cid: Cid, n: nat)
    ensures DepartedOf({}, staged, reports, cid, n) == {}
  {
  }

  lemma DepartedOfMore(done: set<Slot>, k: Slot, staged: map<Slot, Bytes>, reports: map<ReportKey, NodeReport>, cid: Cid, n: nat)
    ensures DepartedOf(done + {k}, staged, reports, cid, n)
         == DepartedOf(done, staged, reports, cid, n)
            + if !Stays(staged, cid, k.account, n) && (cid, k.account) in reports then {(cid, k.account)} else {}
  {
  }

  /** What is left of the reports when one more list entry has been visited. */
  lemma ReportsLeft(done: set<Slot>, k: Slot, staged: map<Slot, Bytes>, reports0: map<ReportKey, NodeReport>,
                    reports: map<ReportKey, NodeReport>, cid: Cid, n: nat)
    requires reports == reports0 - DepartedOf(done, staged, reports0, cid, n)
    ensures var more := if !Stays(staged, cid, k.account, n) && (cid, k.account) in reports then {(cid, k.account)} else {};
      reports - more == reports0 - DepartedOf(done + {k}, staged, reports0, cid, n)
  {
    var gone := DepartedOf(done, staged, reports0, cid, n);
    DepartedOfMore(done, k, staged, reports0, cid, n);
    hide DepartedOf, Stays;
    if !Stays(staged, cid, k.account, n) && (cid, k.account) in reports0 {
      MinusMinus(reports0, gone, {(cid, k.account)});
      assert (cid, k.account) !in reports ==> reports - {(cid, k.account)} == reports - {};
    } else {
      MinusMinus(reports0, gone, {});
    }
  }

  /** Where the loops of the commit arrive: the new lists, and by how much the reported sums changed. */
  ghost predicate Replaced(s: State, cid: Cid, vectors: seq<nat>, t: State, space: int, objects: int) {
    && t.nodes == s.nodes - SlotsOf(s.nodes, cid) + (s.staged - (s.staged.Keys - SlotsOf(s.staged, cid)))
    && t.staged == s.staged - SlotsOf(s.staged, cid)
    && t.replicas == PutReplicas(s.replicas - (set k | k in s.replicas && k.0 == cid), cid, vectors)
    && t.reports == s.reports - Departed(s, cid, |vectors|)
    && space == Sum(t.reports, SizeIn(cid)) - Sum(s.reports, SizeIn(cid))
    && objects == Sum(t.reports, ObjectsIn(cid)) - Sum(s.reports, ObjectsIn(cid))
    && t == s.(nodes := t.nodes, staged := t.staged, replicas := t.replicas, reports := t.reports)
  }

  lemma CommitIs(s: State, e: Env, cid: Cid, vectors: seq<nat>, t: State, space: int, objects: int)
    requires |cid| == HASH256_LEN && e.alphabet && ReplicasFit(vectors)
    requires Replaced(s, cid, vectors, t, space, objects)
    ensures Apply(s, e, Commit(cid, vectors))
         == if space == 0 && objects == 0 then Ok(t)
            else if cid !in s.summaries || cid !in s.containers then Fault(NoSummary)
            else Ok(t.(summaries := s.summaries[cid := Summary(s.summaries[cid].size + space, s.summaries[cid].objects + objects)],
                       taken := Shift(s.taken, s.containers[cid].owner, space)))
  {
    hide Departed, Sum, Shift, SlotsOf, PutReplicas;
  }

  lemma CommitUnfit(s: State, e: Env, cid: Cid, vectors: seq<nat>)
    requires |cid| == HASH256_LEN && e.alphabet && !ReplicasFit(vectors)
    ensures Apply(s, e, Commit(cid, vectors)) == Fault(TooManyNodes)
  {
  }

  class Contract {
    var containers: map<Cid, Container>
    var owned: set<(Owner, Cid)>
    var deleted: set<Cid>
    var nodes: map<Slot, Bytes>
    var staged: map<Slot, Bytes>
    var replicas: map<(Cid, nat), nat>
    var reports: map<ReportKey, NodeReport>
    var billing: map<ReportKey, Billing.Stat>
    var summaries: map<Cid, Summary>
    var taken: map<Owner, int>

    constructor ()
      ensures Now() == DEPLOYED
    {
      containers, owned, deleted := map[], {}, {};
      nodes, staged, replicas := map[], map[], map[];
      reports, billing, summaries, taken := map[], map[], map[], map[];
    }

    function Now(): State
      reads this
    {
      State(containers, owned, deleted, nodes, staged, replicas, reports, billing, summaries, taken)
    }

    method UpdateUserTakenSpace(owner: Owner, diff: int)
      modifies this`taken
      ensures taken == Shift(old(taken), owner, diff)
    {
      if diff == 0 {
        return;
      }
      var usrSpaceVal := Get(taken, owner) + diff;
      if usrSpaceVal > 0 {
        taken := taken[owner := usrSpaceVal];
      } else {
        taken := taken - {owner};
      }
    }

    method CreateV2(e: Env, id: Cid, owner: Owner, attributes: seq<Attribute>) returns (r: Result<Cid, Error>)
      modifies this
      ensures Obeys(old(Now()), e, Create(id, owner, attributes), Now(), r)
      ensures r.Ok? ==> r.value == id
    {
      if !e.alphabet {
        return Fault(NoAlphabetWitness);
      }
      if id in deleted {
        return Fault(Deleted);
      }
      for i := 0 to |attributes|
        invariant forall j :: 0 <= j < i && attributes[j].LockUntil? ==> ValidLock(attributes[j].seconds, e.now)
      {
        if attributes[i].LockUntil? && (attributes[i].seconds <= 0 || attributes[i].seconds * 1000 <= e.now) {
          return Fault(InvalidLock);
        }
      }
      containers := containers[id := Container(owner, 1, attributes)];
      owned := owned + {(owner, id)};
      return Ok(id);
    }

    method RemoveLists(id: Cid)
      modifies this`nodes, this`staged, this`replicas
      ensures Now() == old(Now()).(nodes := old(nodes) - SlotsOf(old(nodes), id), staged := old(staged) - SlotsOf(old(staged), id),
                                   replicas := old(replicas) - (set k | k in old(replicas) && k.0 == id))
    {
      nodes := DeleteAll(nodes, SlotsOf(nodes, id));
      staged := DeleteAll(staged, SlotsOf(staged, id));
      replicas := DeleteAll(replicas, set k | k in replicas && k.0 == id);
    }

    method RemoveReports(id: Cid)
      modifies this`reports, this`billing, this`summaries
      ensures Now() == old(Now()).(reports := old(reports) - (set k | k in old(reports) && k.0 == id),
                                   billing := old(billing) - (set k | k in old(billing) && k.0 == id),
                                   summaries := old(summaries) - {id})
    {
      reports := DeleteAll(reports, set k | k in reports && k.0 == id);
      billing := DeleteAll(billing, set k | k in billing && k.0 == id);
      summaries := summaries - {id};
    }

    method RemoveData(id: Cid)
      requires id in containers
      modifies this
      ensures Now() == Erase(old(Now()), id)
    {
      hide Shift, SlotsOf;
      var owner := containers[id].owner;
      if id in summaries {
        UpdateUserTakenSpace(owner, -summaries[id].size);
      }
      owned := owned - {(owner, id)};
      RemoveLists(id);
      RemoveReports(id);
      containers := containers - {id};
      deleted := deleted + {id};
    }

    method FindLock(attributes: seq<Attribute>) returns (i: nat)
      ensures i == LockIndex(attributes)
    {
      i := 0;
      assert attributes[0..] == attributes;
      while i < |attributes| && !attributes[i].LockUntil?
        invariant i <= |attributes|
        invariant LockIndex(attributes) == i + LockIndex(attributes[i..])
      {
        assert attributes[i..][0] == attributes[i] && attributes[i..][1..] == attributes[i + 1..];
        i := i + 1;
      }
      if i < |attributes| {
        assert attributes[i..][0] == attributes[i];
      }
    }

    method RemoveById(e: Env, id: Cid) returns (r: Result<(), Error>)
      modifies this
      ensures Obeys(old(Now()), e, Remove(id), Now(), r)
    {
      if !e.alphabet {
        return Fault(NoAlphabetWitness);
      }
      if |id| != HASH256_LEN {
        return Fault(InvalidContainerId);
      }
      if id !in containers {
        return Ok(());
      }
      var attributes := containers[id].attributes;
      var i := FindLock(attributes);
      if i < |attributes| && e.now <= attributes[i].seconds * 1000 {
        return Fault(Locked);
      }
      RemoveData(id);
      return Ok(());
    }

    /** `decoded` stands for what reading the stored summary as an integer yields. */
    method TransferToken(e: Env, to: Owner, id: Cid, fromSigned: bool, toSigned: bool, decoded: int) returns (r: Result<bool, Error>)
      modifies this
      ensures Obeys(old(Now()), e, Transfer(to, id, fromSigned, toSigned, decoded), Now(), r)
      ensures r.Ok? ==> r.value == (fromSigned && toSigned)
    {
      if |to| != HASH160_LEN {
        return Fault(InvalidReceiver);
      }
      if id !in containers {
        return if id in deleted then Fault(Deleted) else Fault(NotFound);
      }
      var cnr := containers[id];
      if !fromSigned || !toSigned {
        return Ok(false);
      }
      if cnr.owner != to {
        containers := containers[id := cnr.(owner := to, revision := cnr.revision + 1)];
        owned := owned - {(cnr.owner, id)};
        owned := owned + {(to, id)};
        if id in summaries {
          UpdateUserTakenSpace(cnr.owner, -decoded);
          UpdateUserTakenSpace(to, decoded);
        }
      }
      return Ok(true);
    }

    method SetLockAttribute(e: Env, id: Cid, seconds: int, validUntil: int) returns (r: Result<(), Error>)
      modifies this
      ensures Obeys(old(Now()), e, SetLock(id, seconds, validUntil), Now(), r)
    {
      if !e.alphabet {
        return Fault(NoAlphabetWitness);
      }
      if e.now > validUntil * 1000 {
        return Fault(RequestExpired);
      }
      if id !in containers {
        return Fault(NotFound);
      }
      var cnr := containers[id];
      var idx := FindLock(cnr.attributes);
      if seconds <= 0 || seconds * 1000 <= e.now {
        return Fault(InvalidLock);
      }
      if idx < |cnr.attributes| && seconds <= cnr.attributes[idx].seconds {
        return Fault(InvalidLock);
      }
      var attributes := cnr.attributes;
      if idx < |attributes| {
        attributes := attributes[idx := LockUntil(seconds)];
      } else {
        attributes := attributes + [LockUntil(seconds)];
      }
      containers := containers[id := cnr.(attributes := attributes, revision := cnr.revision + 1)];
      return Ok(());
    }

    method RemoveLockAttribute(e: Env, id: Cid, validUntil: int) returns (r: Result<(), Error>)
      modifies this
      ensures Obeys(old(Now()), e, RemoveLock(id, validUntil), Now(), r)
    {
      if !e.alphabet {
        return Fault(NoAlphabetWitness);
      }
      if e.now > validUntil * 1000 {
        return Fault(RequestExpired);
      }
      if id !in containers {
        return Fault(NotFound);
      }
      var cnr := containers[id];
      var index := FindLock(cnr.attributes);
      if index == |cnr.attributes| {
        return Ok(());
      }
      if cnr.attributes[index].seconds * 1000 > e.now {
        return Fault(Locked);
      }
      var attributes := cnr.attributes[..index] + cnr.attributes[index + 1..];
      containers := containers[id := cnr.(attributes := attributes, revision := cnr.revision + 1)];
      return Ok(());
    }

    method StageForNextEpoch(e: Env, cid: Cid, vector: nat, keys: seq<Bytes>) returns (r: Result<(), Error>)
      modifies this
      ensures Obeys(old(Now()), e, AddNextEpochNodes(cid, vector, keys), Now(), r)
    {
      if |cid| != HASH256_LEN {
        return Fault(InvalidContainerId);
      }
      if vector >= MAX_NUM_OF_REPS {
        return Fault(TooManyNodes);
      }
      if vector != 0 {
        var found := set k | k in staged && k.cid == cid && k.vector == vector - 1;
        assert HasVector(staged, cid, vector - 1) ==> found != {} by {
          if HasVector(staged, cid, vector - 1) {
            var a :| Slot(cid, vector - 1, a) in staged;
            assert Slot(cid, vector - 1, a) in found;
          }
        }
        if found == {} {
          return Fault(VectorGap);
        }
        var k :| k in found;
        assert k == Slot(cid, vector - 1, k.account);
      }
      if !e.alphabet {
        return Fault(NoAlphabetWitness);
      }
      var before := staged;
      for i := 0 to |keys|
        invariant Now() == old(Now()).(staged := Stage(before, cid, vector, keys[..i]))
        invariant forall j :: 0 <= j < i ==> |keys[j]| == PUBLIC_KEY_LEN
      {
        if |keys[i]| != PUBLIC_KEY_LEN {
          staged := before;
          return Fault(InvalidPublicKey);
        }
        staged := staged[Slot(cid, vector, StandardAccount(keys[i])) := keys[i]];
        assert keys[..i + 1][..i] == keys[..i];
      }
      assert keys[..|keys|] == keys;
      return Ok(());
    }

    method StillInNetmap(cid: Cid, a: Account, n: nat) returns (still: bool)
      ensures still == Stays(staged, cid, a, n)
    {
      still := false;
      for i := 0 to n
        invariant !still && !Stays(staged, cid, a, i)
      {
        still := Slot(cid, i, a) in staged;
        if still {
          break;
        }
      }
    }

    /** Deletes the report of a node that has departed. */
    method DropReport(cid: Cid, a: Account, n: nat) returns (space: int, objects: int)
      modifies this`reports
      ensures reports == old(reports) - if !Stays(staged, cid, a, n) && (cid, a) in old(reports) then {(cid, a)} else {}
      ensures space == Sum(old(reports), SizeIn(cid)) - Sum(reports, SizeIn(cid))
      ensures objects == Sum(old(reports), ObjectsIn(cid)) - Sum(reports, ObjectsIn(cid))
    {
      hide Sum, Stays;
      space, objects := 0, 0;
      var still := StillInNetmap(cid, a, n);
      if !still {
        var reportKey := (cid, a);
        if reportKey in reports {
          space, objects := reports[reportKey].size, reports[reportKey].objects;
          SumDelete(reports, reportKey, SizeIn(cid));
          SumDelete(reports, reportKey, ObjectsIn(cid));
          reports := reports - {reportKey};
        }
      }
      assert reports - {} == reports;
    }

    /** First loop of the commit: empties the current list and takes off the reports of departed nodes. */
    method DropOldNodes(cid: Cid, n: nat) returns (spaceDiff: int, objsDiff: int)
      modifies this`nodes, this`reports
      ensures nodes == old(nodes) - SlotsOf(old(nodes), cid)
      ensures reports == old(reports) - Departed(old(Now()), cid, n)
      ensures spaceDiff == Sum(reports, SizeIn(cid)) - Sum(old(reports), SizeIn(cid))
      ensures objsDiff == Sum(reports, ObjectsIn(cid)) - Sum(old(reports), ObjectsIn(cid))
    {
      hide Sum, Stays, Departed, DepartedOf, SlotsOf;
      spaceDiff, objsDiff := 0, 0;
      DepartedOfNone(staged, reports, cid, n);
      var oldNodes := SlotsOf(nodes, cid);
      ghost var all, done: set<Slot> := oldNodes, {};
      ghost var nodes0, reports0 := nodes, reports;
      assert nodes0 - {} == nodes0 && reports0 - {} == reports0;
      while oldNodes != {}
        invariant oldNodes !! done && oldNodes + done == all
        invariant nodes == nodes0 - done
        invariant reports == reports0 - DepartedOf(done, staged, reports0, cid, n)
        invariant spaceDiff == Sum(reports, SizeIn(cid)) - Sum(reports0, SizeIn(cid))
        invariant objsDiff == Sum(reports, ObjectsIn(cid)) - Sum(reports0, ObjectsIn(cid))
        decreases |oldNodes|
      {
        var k :| k in oldNodes;
        ReportsLeft(done, k, staged, reports0, reports, cid, n);
        MinusMinus(nodes0, done, {k});
        var space, objects := DropReport(cid, k.account, n);
        spaceDiff, objsDiff := spaceDiff - space, objsDiff - objects;
        nodes := nodes - {k};
        oldNodes := oldNodes - {k};
        done := done + {k};
      }
      assert done == all;
      DepartedOfAll(old(Now()), cid, n);
    }

    /** Second loop: moves the staged entries to the current list. */
    method PromoteStaged(cid: Cid)
      modifies this`nodes, this`staged
      ensures nodes == old(nodes) + (old(staged) - (old(staged).Keys - SlotsOf(old(staged), cid)))
      ensures staged == old(staged) - SlotsOf(old(staged), cid)
    {
      var newNodes := SlotsOf(staged, cid);
      ghost var all, nodes0, staged0 := newNodes, nodes, staged;
      while newNodes != {}
        invariant newNodes <= all
        invariant staged == staged0 - (all - newNodes)
        invariant nodes == nodes0 + (staged0 - (staged0.Keys - (all - newNodes)))
        decreases |newNodes|
      {
        var k :| k in newNodes;
        var value := staged[k];
        staged := staged - {k};
        nodes := nodes[k := value];
        newNodes := newNodes - {k};
      }
      assert all - {} == all;
    }

    method CommitContainerListUpdate(e: Env, cid: Cid, vectors: seq<nat>) returns (r: Result<(), Error>)
      modifies this
      ensures Obeys(old(Now()), e, Commit(cid, vectors), Now(), r)
    {
      if |cid| != HASH256_LEN {
        return Fault(InvalidContainerId);
      }
      if !e.alphabet {
        return Fault(NoAlphabetWitness);
      }
      r := CommitChecked(e, cid, vectors);
    }

    method CommitChecked(e: Env, cid: Cid, vectors: seq<nat>) returns (r: Result<(), Error>)
      requires |cid| == HASH256_LEN && e.alphabet
      modifies this
      ensures Obeys(old(Now()), e, Commit(cid, vectors), Now(), r)
    {
      hide Replaced, Shift, CommitList, Apply, ReplicasFit;
      ghost var before := Now();
      var nodes0, staged0, replicas0, reports0 := nodes, staged, replicas, reports;
      var fit, spaceDiff, objsDiff := ReplaceList(cid, vectors);
      if !fit {
        Restore(before, nodes0, staged0, replicas0, reports0);
        CommitUnfit(before, e, cid, vectors);
        return Fault(TooManyNodes);
      }
      CommitIs(before, e, cid, vectors, Now(), spaceDiff, objsDiff);
      if spaceDiff != 0 || objsDiff != 0 {
        if cid !in summaries || cid !in containers {
          Restore(before, nodes0, staged0, replicas0, reports0);
          return Fault(NoSummary);
        }
        BookDeparture(cid, spaceDiff, objsDiff);
      }
      return Ok(());
    }

    /** The VM undoes what a failing call has written. */
    method Restore(ghost before: State, nodes: map<Slot, Bytes>, staged: map<Slot, Bytes>, replicas: map<(Cid, nat), nat>, reports: map<ReportKey, NodeReport>)
      requires before == Now().(nodes := nodes, staged := staged, replicas := replicas, reports := reports)
      modifies this`nodes, this`staged, this`replicas, this`reports
      ensures Now() == before
    {
      this.nodes, this.staged, this.replicas, this.reports := nodes, staged, replicas, reports;
    }

    method BookDeparture(cid: Cid, spaceDiff: int, objsDiff: int)
      requires cid in summaries && cid in containers
      modifies this`summaries, this`taken
      ensures Now() == old(Now()).(summaries := old(summaries)[cid := Summary(old(summaries)[cid].size + spaceDiff, old(summaries)[cid].objects + objsDiff)],
                                   taken := Shift(old(taken), containers[cid].owner, spaceDiff))
    {
      var summary := summaries[cid];
      summaries := summaries[cid := Summary(summary.size + spaceDiff, summary.objects + objsDiff)];
      UpdateUserTakenSpace(containers[cid].owner, spaceDiff);
    }

    method ReplaceList(cid: Cid, vectors: seq<nat>) returns (fit: bool, spaceDiff: int, objsDiff: int)
      modifies this`nodes, this`staged, this`replicas, this`reports
      ensures fit == ReplicasFit(vectors)
      ensures fit ==> Replaced(old(Now()), cid, vectors, Now(), spaceDiff, objsDiff)
      ensures old(Now()) == Now().(nodes := old(nodes), staged := old(staged), replicas := old(replicas), reports := old(reports))
    {
      hide Departed, Sum, SlotsOf, PutReplicas, ReplicasFit;
      spaceDiff, objsDiff := DropOldNodes(cid, |vectors|);
      PromoteStaged(cid);
      replicas := DeleteAll(replicas, set k | k in replicas && k.0 == cid);
      fit := StoreReplicas(cid, vectors);
    }

    method StoreReplicas(cid: Cid, vectors: seq<nat>) returns (fit: bool)
      modifies this`replicas
      ensures fit == ReplicasFit(vectors)
      ensures fit ==> replicas == PutReplicas(old(replicas), cid, vectors)
    {
      for i := 0 to |vectors|
        invariant replicas == PutReplicas(old(replicas), cid, vectors[..i])
        invariant ReplicasFit(vectors[..i])
      {
        if vectors[i] > MAX_NUM_OF_REPS {
          assert vectors[i] in vectors;
          return false;
        }
        replicas := replicas[(cid, i) := vectors[i]];
        assert vectors[..i + 1] == vectors[..i] + [vectors[i]];
        assert vectors[..i + 1][..i] == vectors[..i];
      }
      assert vectors[..|vectors|] == vectors;
      return true;
    }

    method NodeFromContainer(cid: Cid, key: Bytes) returns (found: bool)
      ensures found == IsMember(Now(), cid, key)
    {
      var rest := SlotsOf(nodes, cid);
      while rest != {}
        invariant rest <= SlotsOf(nodes, cid)
        invariant forall k :: k in SlotsOf(nodes, cid) - rest ==> nodes[k] != key
        decreases |rest|
      {
        var k :| k in rest;
        if nodes[k] == key {
          return true;
        }
        rest := rest - {k};
      }
      return false;
    }

    /** A further report of a node: its new record and statistic. */
    method Refresh(e: Env, report: NodeReport, stat: Billing.Stat, size: int, objects: int) returns (r: NodeReport, s: Billing.Stat)
      requires e.duration != 0
      ensures r == NodeReport(report.key, size, objects, if report.epoch == e.epoch then report.number + 1 else 1, e.epoch)
      ensures forall opens :: s == Billing.Updated(stat, Billed(report.size, report.objects), report.epoch == e.epoch,
                Billing.Report(e.epoch, e.now, e.tick, e.duration * 1000, Billed(size, objects), opens))
    {
      var billingSize := size + objects * OBJECT_BILLING_SIZE;
      var epochDuration := e.duration * 1000;
      var nextEpochTick := e.tick + epochDuration;
      var epochRest := nextEpochTick - e.now;
      var oldBillingSize := report.size + report.objects * OBJECT_BILLING_SIZE;
      if report.epoch == e.epoch {
        s := stat.(latestAverage := stat.latestAverage + TruncDiv((billingSize - oldBillingSize) * epochRest, epochDuration),
                   lastUpdateTime := e.now);
        r := report.(number := report.number + 1);
      } else {
        s := stat.(previousSize := stat.latestSize, previousEpoch := stat.latestEpoch, previousAverage := stat.latestAverage);
        s := s.(lastUpdateTime := e.now, latestEpoch := e.epoch,
                latestAverage := TruncDiv(oldBillingSize * (e.now - e.tick) + billingSize * epochRest, epochDuration));
        r := report.(epoch := e.epoch, number := 1);
      }
      s := s.(latestSize := billingSize);
      r := r.(size := size, objects := objects);
    }

    method SaveNodeReport(e: Env, cid: Cid, size: int, objects: int, key: Bytes, signed: bool) returns (r: Result<(), Error>)
      modifies this
      ensures Obeys(old(Now()), e, PutReport(cid, size, objects, key, signed), Now(), r)
    {
      hide Billing.Updated, Shift, IsMember;
      if !signed {
        return Fault(NoNodeWitness);
      }
      if cid !in containers {
        return Fault(NotFound);
      }
      var member := NodeFromContainer(cid, key);
      if !member {
        return Fault(NotMember);
      }
      var owner := containers[cid].owner;
      var k := (cid, StandardAccount(key));
      var summary := if cid in summaries then summaries[cid] else Summary(0, 0);
      var stat := StatOf(Now(), k);
      if k !in reports {
        var billingSize := size + objects * OBJECT_BILLING_SIZE;
        summary := Summary(summary.size + size, summary.objects + objects);
        stat := Billing.Stat(billingSize, e.epoch, e.now, billingSize, 0, 0, 0);
        Store(k, NodeReport(key, size, objects, 1, e.epoch), stat, owner, size, summary);
      } else {
        var report := reports[k];
        if report.epoch == e.epoch && report.number == MAX_REPORTS_PER_EPOCH {
          return Fault(TooManyReports);
        }
        if e.duration == 0 {
          return Fault(DivisionByZero);
        }
        var storageDiff := size - report.size;
        summary := Summary(summary.size - report.size + size, summary.objects - report.objects + objects);
        report, stat := Refresh(e, report, stat, size, objects);
        Store(k, report, stat, owner, storageDiff, summary);
      }
      return Ok(());
    }

    method Store(k: ReportKey, report: NodeReport, stat: Billing.Stat, owner: Owner, storageDiff: int, summary: Summary)
      modifies this`reports, this`billing, this`taken, this`summaries
      ensures Now() == old(Now()).(reports := old(reports)[k := report], billing := old(billing)[k := stat],
                                   taken := Shift(old(taken), owner, storageDiff), summaries := old(summaries)[k.0 := summary])
    {
      reports := reports[k := report];
      billing := billing[k := stat];
      UpdateUserTakenSpace(owner, storageDiff);
      summaries := summaries[k.0 := summary];
    }
  }
}
