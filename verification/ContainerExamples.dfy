/** Runs of the container contract from deployment in which the billing statistic goes wrong. One node
    stores one container. */
module ContainerExamples {
  import opened Storage
  import opened Containers
  import opened ContainerLaws
  import opened ContainerRuns
  import Billing
  import ContainerBills

  datatype Party = Party(cid: Cid, owner: Owner, key: Bytes)
  {
    predicate Proper() { |cid| == HASH256_LEN && |key| == PUBLIC_KEY_LEN }

    function At(): Slot { Slot(cid, 0, StandardAccount(key)) }

    function Record(): ReportKey { (cid, StandardAccount(key)) }
  }

  /** The container is there; the node is on its list or not; nothing is staged. */
  predicate Holds(s: State, p: Party, listed: bool) {
    && p.cid in s.containers && s.staged == map[]
    && s.nodes == if listed then map[p.At() := p.key] else map[]
  }

  function Clock(epoch: int, now: int, tick: int): Env {
    Env(true, now, epoch, tick, 4)
  }

  function Creates(p: Party, e: Env): Call { Call(e, Create(p.cid, p.owner, [])) }

  function Stages(p: Party, e: Env): Call { Call(e, AddNextEpochNodes(p.cid, 0, [p.key])) }

  function Commits(p: Party, e: Env, vectors: seq<nat>): Call { Call(e, Commit(p.cid, vectors)) }

  function Reports(p: Party, e: Env, size: int): Call { Call(e, PutReport(p.cid, size, 0, p.key, true)) }

  lemma CreateStep(p: Party, e: Env)
    requires e.alphabet
    ensures var s := Step(DEPLOYED, Creates(p, e)); Holds(s, p, false) && s.reports == map[] && s.billing == map[]
  {
  }

  /** The staged node is listed by the commit. */
  lemma ListSteps(s: State, p: Party, e: Env)
    requires p.Proper() && e.alphabet && Holds(s, p, false) && s.reports == map[]
    ensures var t := Step(Step(s, Stages(p, e)), Commits(p, e, [1]));
      Holds(t, p, true) && t.reports == map[] && t.billing == s.billing
  {
    assert [p.key][..0] == [] && Stage(map[], p.cid, 0, []) == map[];
    assert Stage(map[], p.cid, 0, [p.key]) == map[p.At() := p.key];
    var staged := Step(s, Stages(p, e));
    assert staged == s.(staged := map[p.At() := p.key]);
    CommitStep(staged, p, e);
    hide Stage, Step;
  }

  lemma CommitStep(s: State, p: Party, e: Env)
    requires p.Proper() && e.alphabet && p.cid in s.containers && s.nodes == map[] && s.reports == map[]
    requires s.staged == map[p.At() := p.key]
    ensures var t := Step(s, Commits(p, e, [1])); Holds(t, p, true) && t.reports == map[] && t.billing == s.billing
  {
    assert Departed(s, p.cid, 1) == {};
    assert s.reports - Departed(s, p.cid, 1) == s.reports;
    assert SlotsOf(s.staged, p.cid) == {p.At()};
    hide Departed, SlotsOf, PutReplicas, Sum;
  }

  /** A commit for no placement vector takes the node off the list, with its report. */
  lemma DropStep(s: State, p: Party, e: Env)
    requires p.Proper() && e.alphabet && Holds(s, p, true) && s.reports.Keys == {p.Record()} && p.cid in s.summaries
    ensures var t := Step(s, Commits(p, e, [])); Holds(t, p, false) && t.reports == map[] && t.billing == s.billing
  {
    assert Departed(s, p.cid, 0) == {p.Record()} by {
      assert p.At() in s.nodes && p.Record() == (p.cid, p.At().account);
    }
    assert s.reports - Departed(s, p.cid, 0) == map[];
    assert SlotsOf(s.nodes, p.cid) == {p.At()} && SlotsOf(s.staged, p.cid) == {};
    hide Departed, SlotsOf, PutReplicas, Sum, Shift;
  }

  lemma ReportLeavesLists(s: State, e: Env, cid: Cid, size: int, objects: int, key: Bytes)
    requires SaveReport(s, e, cid, size, objects, key, true).Ok?
    ensures var t := SaveReport(s, e, cid, size, objects, key, true).value;
      t.nodes == s.nodes && t.staged == s.staged && t.containers == s.containers && cid in t.summaries
  {
    hide Shift, IsMember, Billing.Updated;
  }

  lemma Accepted(s: State, p: Party, e: Env, size: int, objects: int)
    requires Holds(s, p, true) && e.duration == 4
    requires p.Record() in s.reports ==> s.reports[p.Record()].number < MAX_REPORTS_PER_EPOCH
    ensures SaveReport(s, e, p.cid, size, objects, p.key, true).Ok?
  {
    assert IsMember(s, p.cid, p.key) by {
      assert p.At() in s.nodes && s.nodes[p.At()] == p.key;
    }
    hide Shift, IsMember, Billing.Updated;
  }

  /** The node's report on record, and its statistic. */
  predicate Stands(s: State, p: Party, r: NodeReport, stat: Billing.Stat) {
    Holds(s, p, true) && s.reports == map[p.Record() := r] && p.cid in s.summaries && StatOf(s, p.Record()) == stat
  }

  lemma FirstReport(s: State, p: Party, e: Env, size: int)
    requires Holds(s, p, true) && s.reports == map[] && e.duration == 4
    ensures var entry := Billing.Report(e.epoch, e.now, e.tick, 4000, size, true);
      Stands(Step(s, Reports(p, e, size)), p, NodeReport(p.key, size, 0, 1, e.epoch), Billing.Opened(entry))
  {
    Accepted(s, p, e, size, 0);
    SavedBilling(s, e, p.cid, size, 0, p.key);
    SavedKey(s, e, p.cid, size, 0, p.key);
    ReportLeavesLists(s, e, p.cid, size, 0, p.key);
    hide SaveReport, Billing.Opened, Billing.Updated;
  }

  lemma NextReport(s: State, p: Party, e: Env, size: int, r: NodeReport, stat: Billing.Stat)
    requires Stands(s, p, r, stat) && e.duration == 4 && r.number < MAX_REPORTS_PER_EPOCH && r.key == p.key && r.objects == 0
    ensures var entry := Billing.Report(e.epoch, e.now, e.tick, 4000, size, false);
      Stands(Step(s, Reports(p, e, size)), p, NodeReport(p.key, size, 0, if r.epoch == e.epoch then r.number + 1 else 1, e.epoch),
             Billing.Updated(stat, r.size, r.epoch == e.epoch, entry))
  {
    Accepted(s, p, e, size, 0);
    SavedBilling(s, e, p.cid, size, 0, p.key);
    SavedKey(s, e, p.cid, size, 0, p.key);
    ReportLeavesLists(s, e, p.cid, size, 0, p.key);
    hide SaveReport, Billing.Opened, Billing.Updated;
  }

  lemma ExecOfThree(c: Call, d: Call, e: Call)
    ensures Exec(DEPLOYED, [c, d, e]) == Step(Step(Step(DEPLOYED, c), d), e)
  {
    hide Step;
    var calls := [c, d, e];
    assert calls[..0] == [] && calls[..3] == calls;
    ExecOfMore(DEPLOYED, calls, 0);
    ExecOfMore(DEPLOYED, calls, 1);
    ExecOfMore(DEPLOYED, calls, 2);
  }

  function Listing(p: Party, e: Env): seq<Call> {
    [Creates(p, e), Stages(p, e), Commits(p, e, [1])]
  }

  lemma ListingHolds(p: Party, e: Env)
    requires p.Proper() && e.alphabet
    ensures var s := Exec(DEPLOYED, Listing(p, e)); Holds(s, p, true) && s.reports == map[] && s.billing == map[]
  {
    hide Step, Exec;
    ExecOfThree(Creates(p, e), Stages(p, e), Commits(p, e, [1]));
    CreateStep(p, e);
    ListSteps(Step(DEPLOYED, Creates(p, e)), p, e);
  }

  lemma ExecOfLast(init: seq<Call>, c: Call)
    ensures Exec(DEPLOYED, init + [c]) == Step(Exec(DEPLOYED, init), c)
  {
    assert (init + [c])[..|init|] == init;
  }

  // ---- what objects cost ----

  /** A node that reports 100 bytes in 10 objects is charged for 100 + 10 * 16384. */
  lemma ObjectsAreBilled(p: Party)
    requires p.Proper()
    ensures var calls := Listing(p, FIFTH) + [Call(FIFTH, PutReport(p.cid, 100, 10, p.key, true))];
      Billing.Pick(StatOf(Exec(DEPLOYED, calls), p.Record()), 6) == 163940
  {
    var s, c := Exec(DEPLOYED, Listing(p, FIFTH)), Call(FIFTH, PutReport(p.cid, 100, 10, p.key, true));
    ListingHolds(p, FIFTH);
    hide Exec;
    ExecOfLast(Listing(p, FIFTH), c);
    Accepted(s, p, FIFTH, 100, 10);
    ContainerBills.FirstReportCharges(s, FIFTH, p.cid, 100, 10, p.key, 6);
    assert Step(s, c) == SaveReport(s, FIFTH, p.cid, 100, 10, p.key, true).value;
    hide SaveReport, StatOf;
  }

  // ---- a charge that is forgotten ----

  const FIFTH := Clock(5, 6000, 5000)
  const SIXTH := Clock(6, 10000, 9000)

  /** A node reports 100 in an epoch, leaves the list and comes back in the next one. */
  function Returning(p: Party): seq<Call> {
    Listing(p, FIFTH) + [Reports(p, FIFTH, 100)] + [Commits(p, SIXTH, [])] + [Stages(p, SIXTH)] + [Commits(p, SIXTH, [1])]
  }

  lemma ReturningHolds(p: Party)
    requires p.Proper()
    ensures var s := Exec(DEPLOYED, Returning(p));
      && Holds(s, p, true) && s.reports == map[]
      && StatOf(s, p.Record()) == Billing.Opened(Billing.Report(5, 6000, 5000, 4000, 100, true))
  {
    hide Step, Exec, Billing.Opened;
    ListingHolds(p, FIFTH);
    var first := Listing(p, FIFTH) + [Reports(p, FIFTH, 100)];
    ExecOfLast(Listing(p, FIFTH), Reports(p, FIFTH, 100));
    FirstReport(Exec(DEPLOYED, Listing(p, FIFTH)), p, FIFTH, 100);
    ExecOfLast(first, Commits(p, SIXTH, []));
    DropStep(Exec(DEPLOYED, first), p, SIXTH);
    var dropped := first + [Commits(p, SIXTH, [])];
    ExecOfLast(dropped, Stages(p, SIXTH));
    ExecOfLast(dropped + [Stages(p, SIXTH)], Commits(p, SIXTH, [1]));
    ListSteps(Exec(DEPLOYED, dropped), p, SIXTH);
  }

  /** Before it reports again 100 is charged for the epoch before, after that nothing is. */
  lemma ReturningForgetsCharge(p: Party, size: int)
    requires p.Proper()
    ensures var calls := Returning(p); var k, last := p.Record(), Reports(p, SIXTH, size);
      && Billing.Pick(StatOf(Exec(DEPLOYED, calls), k), 6) == 100
      && Billing.Pick(StatOf(Exec(DEPLOYED, calls + [last]), k), 6) == 0
  {
    hide Step, Exec;
    ReturningHolds(p);
    ExecOfLast(Returning(p), Reports(p, SIXTH, size));
    FirstReport(Exec(DEPLOYED, Returning(p)), p, SIXTH, size);
  }

  // ---- a size below zero ----

  const FOURTH := Clock(4, 3000, 1000)
  const MIDDLE := Clock(5, 7000, 5000)

  /** Nothing is stored, then 1, 2 and nothing in the middle of the next epoch. */
  function Rounding(p: Party): seq<Call> {
    Listing(p, FOURTH) + [Reports(p, FOURTH, 0)] + [Reports(p, MIDDLE, 1)] + [Reports(p, MIDDLE, 2)] + [Reports(p, MIDDLE, 0)]
  }

  lemma RoundingStands(p: Party)
    requires p.Proper()
    ensures StatOf(Exec(DEPLOYED, Rounding(p)), p.Record()) == Billing.Stat(0, 5, 7000, -1, 0, 4, 0)
  {
    hide Step, Exec, Billing.Updated;
    ListingHolds(p, FOURTH);
    var calls := Listing(p, FOURTH);
    ExecOfLast(calls, Reports(p, FOURTH, 0));
    FirstReport(Exec(DEPLOYED, calls), p, FOURTH, 0);
    calls := calls + [Reports(p, FOURTH, 0)];
    ExecOfLast(calls, Reports(p, MIDDLE, 1));
    NextReport(Exec(DEPLOYED, calls), p, MIDDLE, 1, NodeReport(p.key, 0, 0, 1, 4), Billing.Opened(Billing.QUIET));
    Billing.RiseUpdates();
    calls := calls + [Reports(p, MIDDLE, 1)];
    ExecOfLast(calls, Reports(p, MIDDLE, 2));
    NextReport(Exec(DEPLOYED, calls), p, MIDDLE, 2, NodeReport(p.key, 1, 0, 1, 5), Billing.Stat(1, 5, 7000, 0, 0, 4, 0));
    Billing.AgainUpdates();
    calls := calls + [Reports(p, MIDDLE, 2)];
    ExecOfLast(calls, Reports(p, MIDDLE, 0));
    NextReport(Exec(DEPLOYED, calls), p, MIDDLE, 0, NodeReport(p.key, 2, 0, 2, 5), Billing.Stat(2, 5, 7000, 0, 0, 4, 0));
    Billing.FallUpdates();
  }

  /** Calls of one block and then of a later one, each within its epoch. */
  lemma TwoBlocks(calls: seq<Call>, n: nat, e: Env, f: Env)
    requires forall i :: 0 <= i < |calls| ==> calls[i].env == if i < n then e else f
    requires 0 <= e.epoch < f.epoch && e.now <= f.now && e.duration == 4 == f.duration
    requires e.tick <= e.now <= e.tick + 4000 && f.tick <= f.now <= f.tick + 4000
    ensures Epochal(calls) && Clocked(calls)
  {
  }

  lemma RoundingIsClocked(p: Party)
    ensures Epochal(Rounding(p)) && Clocked(Rounding(p)) && SizesProper(Rounding(p))
  {
    hide Epochal, Clocked;
    TwoBlocks(Rounding(p), 4, FOURTH, MIDDLE);
  }

  /** Though every report comes inside its epoch with a size that is one, -1 is charged for the epoch: so low,
      and by `PickedSizeIsAtLeast` no lower. */
  lemma RoundingPicksBelowZero(p: Party)
    requires p.Proper()
    ensures var calls := Rounding(p);
      && Epochal(calls) && Clocked(calls) && SizesProper(calls)
      && Billing.Pick(StatOf(Exec(DEPLOYED, calls), p.Record()), 6) == -1
  {
    hide Exec, Epochal, Clocked, SizesProper, Rounding;
    RoundingStands(p);
    RoundingIsClocked(p);
  }
}
