/** What every run of the container contract keeps: the sums, membership and index; the billing slots
    as a digest of the full report log; removal final. */
module ContainerRuns {
  import opened Storage
  import opened Containers
  import opened ContainerLaws
  import Billing

  datatype Call = Call(env: Env, op: Operation)

  /** A call's effect; a failed one has none. */
  ghost function Step(s: State, c: Call): State {
    match Apply(s, c.env, c.op)
    case Fault(_) => s
    case Ok(t) => t
  }

  ghost function Exec(s: State, calls: seq<Call>): State {
    if calls == [] then s else Step(Exec(s, calls[..|calls| - 1]), calls[|calls| - 1])
  }

  lemma ExecOfNone(s: State)
    ensures Exec(s, []) == s
  {
  }

  lemma ExecOfMore(s: State, calls: seq<Call>, n: nat)
    requires n < |calls|
    ensures Exec(s, calls[..n + 1]) == Step(Exec(s, calls[..n]), calls[n])
  {
    assert calls[..n + 1][..n] == calls[..n];
  }

  lemma {:induction false} ExecSplits(s: State, calls: seq<Call>, i: nat)
    requires i <= |calls|
    ensures Exec(s, calls) == Exec(Exec(s, calls[..i]), calls[i..])
  {
    if i == |calls| {
      assert calls[..i] == calls && calls[i..] == [];
    } else {
      var init := calls[..|calls| - 1];
      ExecSplits(s, init, i);
      assert init[..i] == calls[..i] && init[i..] == calls[i..][..|calls[i..]| - 1];
    }
  }

  /** Every accepted call is made with what the sums and the index need of it. */
  ghost predicate ProperRun(calls: seq<Call>) {
    calls == [] ||
    var s, c := Exec(DEPLOYED, calls[..|calls| - 1]), calls[|calls| - 1];
    ProperRun(calls[..|calls| - 1]) && (Apply(s, c.env, c.op).Ok? ==> KeepsSums(s, c.op) && KeepsOwners(s, c.op))
  }

  /** The invariant holds after every call. */
  ghost predicate AlwaysSound(calls: seq<Call>) {
    Invariant(Exec(DEPLOYED, calls)) && (calls == [] || AlwaysSound(calls[..|calls| - 1]))
  }

  lemma DeployedIsSound()
    ensures Invariant(DEPLOYED)
  {
    forall c
      ensures Sum(DEPLOYED.reports, SizeIn(c)) == 0 && Sum(DEPLOYED.reports, ObjectsIn(c)) == 0
    {
    }
    forall o
      ensures Sum(DEPLOYED.summaries, OwnedBy(DEPLOYED.containers, o)) == 0
    {
    }
  }

  lemma StepKeepsInvariantIff(s: State, c: Call)
    requires Invariant(s)
    ensures Invariant(Step(s, c)) <==> (Apply(s, c.env, c.op).Ok? ==> KeepsSums(s, c.op) && KeepsOwners(s, c.op))
  {
    hide Ledger, Membership, Indexed, KeepsSums, KeepsOwners;
    if Apply(s, c.env, c.op).Ok? {
      ApplyKeepsLedgerIff(s, c.env, c.op);
      ApplyKeepsMembership(s, c.env, c.op);
      ApplyKeepsIndexIff(s, c.env, c.op);
      hide Apply;
    }
  }

  /** Through a run from deployment each container's summary is the sum of its node reports, each owner's
      taken space the sum of the summaries of the containers owned, reporters are members, placement vectors
      have no gaps, and the owner index lists exactly the live containers, exactly if every accepted call is
      made with what the sums and the index need. */
  lemma {:induction false} EveryRunKeepsInvariantIff(calls: seq<Call>)
    ensures AlwaysSound(calls) <==> ProperRun(calls)
  {
    hide Invariant, Step, Apply, KeepsSums, KeepsOwners;
    if calls == [] {
      DeployedIsSound();
    } else {
      var init, c := calls[..|calls| - 1], calls[|calls| - 1];
      EveryRunKeepsInvariantIff(init);
      if AlwaysSound(init) {
        StepKeepsInvariantIff(Exec(DEPLOYED, init), c);
      }
    }
  }

  // ---- removal is final ----

  /** Live and deleted ids are disjoint, whatever is called, and no deletion mark is ever lost. */
  lemma DeletedIsFinal(s: State, c: Call)
    requires s.containers.Keys !! s.deleted
    ensures Step(s, c).containers.Keys !! Step(s, c).deleted && s.deleted <= Step(s, c).deleted
  {
    if c.op.Create? || c.op.Remove? || c.op.Transfer? {
      hide Shift, SlotsOf, LockIndex, PutLock, DropLock, StageNodes, CommitList, SaveReport;
    } else if Apply(s, c.env, c.op).Ok? {
      ListsAndReportsLeaveOwners(s, c.env, c.op);
      hide Apply;
    } else {
      hide Apply;
    }
  }

  /** A removed container never comes back, through any calls whatsoever. */
  lemma {:induction false} RemovedStaysRemoved(s: State, calls: seq<Call>, id: Cid)
    requires s.containers.Keys !! s.deleted && id in s.deleted
    ensures Exec(s, calls).containers.Keys !! Exec(s, calls).deleted
    ensures id in Exec(s, calls).deleted && id !in Exec(s, calls).containers
  {
    if calls != [] {
      var init, c := calls[..|calls| - 1], calls[|calls| - 1];
      RemovedStaysRemoved(s, init, id);
      DeletedIsFinal(Exec(s, init), c);
      hide Step;
    }
  }

  /** Block times do not decrease. */
  ghost predicate Timely(calls: seq<Call>) {
    forall i, j :: 0 <= i < j < |calls| ==> calls[i].env.now <= calls[j].env.now
  }

  // ---- the billing slots and the report log ----

  /** The contract's state with the full log of reports it keeps only a digest of. */
  datatype World = World(state: State, logs: map<ReportKey, seq<Billing.Report>>, epoch: int)

  function LogOf(w: World, k: ReportKey): seq<Billing.Report> {
    if k in w.logs then w.logs[k] else []
  }

  ghost function Observe(w: World, c: Call): World {
    var logs :=
      if Apply(w.state, c.env, c.op).Fault? then w.logs
      else match c.op
        case PutReport(cid, size, objects, key, _) =>
          var k := (cid, StandardAccount(key));
          w.logs[k := LogOf(w, k) + [LogEntry(w.state, c.env, cid, size, objects, key)]]
        case Remove(id) => if id in w.state.containers then w.logs - (set k | k in w.logs && k.0 == id) else w.logs
        case _ => w.logs;
    World(Step(w.state, c), logs, c.env.epoch)
  }

  ghost function Watch(calls: seq<Call>): World {
    if calls == [] then World(DEPLOYED, map[], 0)
    else Observe(Watch(calls[..|calls| - 1]), calls[|calls| - 1])
  }

  /** Epochs do not decrease. */
  ghost predicate Epochal(calls: seq<Call>) {
    && (forall i, j :: 0 <= i < j < |calls| ==> calls[i].env.epoch <= calls[j].env.epoch)
    && (forall i :: 0 <= i < |calls| ==> 0 <= calls[i].env.epoch)
  }

  /** The slots are the digest of the log. */
  ghost predicate Digest(stat: Billing.Stat, log: seq<Billing.Report>, epoch: int) {
    && log != [] && Billing.IsLog(log) && Billing.Limited(log)
    && stat == Billing.Fold(log) && log[|log| - 1].epoch <= epoch
  }

  /** A report on record is the last one of the log, with the number of those made in its epoch. */
  ghost predicate Current(r: NodeReport, log: seq<Billing.Report>) {
    && log != [] && Billing.IsLog(log)
    && Billed(r.size, r.objects) == log[|log| - 1].billed && r.epoch == log[|log| - 1].epoch
    && r.number == |log| - Billing.GroupStart(log) <= MAX_REPORTS_PER_EPOCH
  }

  ghost predicate Logged(w: World) {
    && w.logs.Keys == w.state.billing.Keys
    && (forall k :: k in w.logs ==> Digest(w.state.billing[k], w.logs[k], w.epoch))
    && (forall k :: k in w.state.reports ==> k in w.logs && Current(w.state.reports[k], w.logs[k]))
  }

  lemma LogAppend(log: seq<Billing.Report>, r: Billing.Report)
    requires Billing.IsLog(log)
    requires log != [] ==> log[|log| - 1].epoch <= r.epoch
    requires r.opens || (log != [] && r.duration != 0)
    ensures Billing.IsLog(log + [r])
    ensures (log + [r])[..|log|] == log
  {
    forall i, j | 0 <= i < j < |log + [r]|
      ensures (log + [r])[i].epoch <= (log + [r])[j].epoch
    {
      if j == |log| {
        assert i == |log| - 1 || log[i].epoch <= log[|log| - 1].epoch;
      }
    }
  }

  lemma LimitedAppend(log: seq<Billing.Report>, r: Billing.Report)
    requires Billing.IsLog(log + [r]) && |log| + 1 - Billing.GroupStart(log + [r]) <= MAX_REPORTS_PER_EPOCH
    requires log == [] || Billing.Limited(log)
    ensures Billing.Limited(log + [r])
  {
    hide Billing.IsLog, Billing.GroupStart;
    forall n | 0 < n <= |log + [r]| && Billing.IsLog((log + [r])[..n])
      ensures n - Billing.GroupStart((log + [r])[..n]) <= MAX_REPORTS_PER_EPOCH
    {
      if n <= |log| {
        assert (log + [r])[..n] == log[..n];
      } else {
        assert (log + [r])[..n] == log + [r];
      }
    }
  }

  /** The contract's update of slots and record follows the log by one report. */
  lemma ReportFollowsLog(w: World, e: Env, cid: Cid, size: int, objects: int, key: Bytes)
    requires Logged(w) && w.epoch <= e.epoch && SaveReport(w.state, e, cid, size, objects, key, true).Ok?
    ensures var k := (cid, StandardAccount(key));
            var after := SaveReport(w.state, e, cid, size, objects, key, true).value;
            var log := LogOf(w, k) + [LogEntry(w.state, e, cid, size, objects, key)];
      && after.billing == w.state.billing[k := after.billing[k]] && Digest(after.billing[k], log, e.epoch)
      && after.reports == w.state.reports[k := after.reports[k]] && Current(after.reports[k], log)
  {
    hide SaveReport, Billing.Updated, Billing.Opened, Billing.IsLog, Billing.Limited, Billing.Fold, Billing.GroupStart, IsMember;
    var k, log := (cid, StandardAccount(key)), LogOf(w, (cid, StandardAccount(key)));
    var r := LogEntry(w.state, e, cid, size, objects, key);
    assert k in w.logs ==> Digest(w.state.billing[k], w.logs[k], w.epoch);
    SavedBilling(w.state, e, cid, size, objects, key);
    if k in w.state.reports {
      assert Current(w.state.reports[k], w.logs[k]);
      UpdatedFollows(log, w.state.billing[k], r);
    } else {
      OpenedFollows(log, r);
    }
  }

  lemma OpenedFollows(log: seq<Billing.Report>, r: Billing.Report)
    requires r.opens && (log != [] ==> Billing.IsLog(log) && Billing.Limited(log) && log[|log| - 1].epoch <= r.epoch)
    ensures Digest(Billing.Opened(r), log + [r], r.epoch)
    ensures |log| + 1 - Billing.GroupStart(log + [r]) == 1
  {
    hide Billing.Limited, Billing.Opened, Billing.IsLog;
    if log == [] {
      NoReports();
    }
    LogAppend(log, r);
    LimitedAppend(log, r);
  }

  lemma NoReports()
    ensures Billing.IsLog([])
  {
  }

  lemma UpdatedFollows(log: seq<Billing.Report>, stat: Billing.Stat, r: Billing.Report)
    requires log != [] && Billing.IsLog(log) && Billing.Limited(log) && stat == Billing.Fold(log)
    requires log[|log| - 1].epoch <= r.epoch && !r.opens && r.duration != 0
    requires var n := |log| - Billing.GroupStart(log);
             n <= MAX_REPORTS_PER_EPOCH && !(log[|log| - 1].epoch == r.epoch && n == MAX_REPORTS_PER_EPOCH)
    ensures var last := log[|log| - 1];
      && Digest(Billing.Updated(stat, last.billed, last.epoch == r.epoch, r), log + [r], r.epoch)
      && |log| + 1 - Billing.GroupStart(log + [r]) == if last.epoch == r.epoch then |log| - Billing.GroupStart(log) + 1 else 1
  {
    hide Billing.Limited, Billing.Updated, Billing.IsLog, Billing.GroupStart;
    LogAppend(log, r);
    GroupMore(log, r);
    LimitedAppend(log, r);
  }

  lemma GroupMore(log: seq<Billing.Report>, r: Billing.Report)
    requires log != [] && Billing.IsLog(log) && Billing.IsLog(log + [r]) && !r.opens && log[|log| - 1].epoch <= r.epoch
    ensures Billing.GroupStart(log + [r]) == if log[|log| - 1].epoch == r.epoch then Billing.GroupStart(log) else |log|
  {
    hide Billing.IsLog;
    assert (log + [r])[..|log|] == log;
  }

  /** What a report does to the node's record and statistic. */
  lemma SavedBilling(s: State, e: Env, cid: Cid, size: int, objects: int, key: Bytes)
    requires SaveReport(s, e, cid, size, objects, key, true).Ok?
    ensures var after, k := SaveReport(s, e, cid, size, objects, key, true).value, (cid, StandardAccount(key));
            var entry := LogEntry(s, e, cid, size, objects, key);
      && k in after.billing && after.billing == s.billing[k := after.billing[k]]
      && k in after.reports && after.reports == s.reports[k := after.reports[k]]
      && after.reports[k].size == size && after.reports[k].objects == objects && after.reports[k].epoch == e.epoch
      && (k !in s.reports ==> entry.opens && after.billing[k] == Billing.Opened(entry) && after.reports[k].number == 1)
      && (k in s.reports ==>
            (!entry.opens && entry.duration != 0
             && after.billing[k] == Billing.Updated(StatOf(s, k), Billed(s.reports[k].size, s.reports[k].objects),
                                                    s.reports[k].epoch == e.epoch, entry)
             && !(s.reports[k].epoch == e.epoch && s.reports[k].number == MAX_REPORTS_PER_EPOCH)
             && after.reports[k].number == if s.reports[k].epoch == e.epoch then s.reports[k].number + 1 else 1))
  {
    hide Shift, IsMember, Billing.Updated;
  }

  /** Only reports write billing records, only they and removals touch them, and commits merely delete reports. */
  lemma OthersLeaveBilling(s: State, e: Env, op: Operation)
    requires !op.PutReport? && Apply(s, e, op).Ok?
    ensures var after := Apply(s, e, op).value;
      && after.billing == (if op.Remove? && op.id in s.containers then s.billing - (set k | k in s.billing && k.0 == op.id) else s.billing)
      && (forall k :: k in after.reports ==> k in s.reports && after.reports[k] == s.reports[k])
      && (op.Remove? && op.id in s.containers ==> forall k :: k in after.reports ==> k.0 != op.id)
  {
    hide Shift, Departed, Sum, LockIndex;
  }

  lemma ReportKeepsLogged(w: World, c: Call)
    requires Logged(w) && w.epoch <= c.env.epoch && c.op.PutReport? && Apply(w.state, c.env, c.op).Ok?
    ensures Logged(Observe(w, c))
  {
    LogsLast(w, c.env.epoch);
    ReportFollowsLog(w, c.env, c.op.cid, c.op.size, c.op.objects, c.op.key);
    hide SaveReport, Digest, Current;
  }

  lemma OtherKeepsLogged(w: World, c: Call)
    requires Logged(w) && w.epoch <= c.env.epoch && !c.op.PutReport? && Apply(w.state, c.env, c.op).Ok?
    ensures Logged(Observe(w, c))
  {
    LogsLast(w, c.env.epoch);
    OthersLeaveBilling(w.state, c.env, c.op);
    hide Apply, Digest, Current;
  }

  lemma LogsLast(w: World, epoch: int)
    requires Logged(w) && w.epoch <= epoch
    ensures forall k :: k in w.logs ==> Digest(w.state.billing[k], w.logs[k], epoch)
  {
    forall k | k in w.logs
      ensures Digest(w.state.billing[k], w.logs[k], epoch)
    {
      DigestLater(w.state.billing[k], w.logs[k], w.epoch, epoch);
    }
  }

  lemma ObserveKeepsLogged(w: World, c: Call)
    requires Logged(w) && w.epoch <= c.env.epoch
    ensures Logged(Observe(w, c))
  {
    if Apply(w.state, c.env, c.op).Fault? {
      LogsLast(w, c.env.epoch);
    } else if c.op.PutReport? {
      ReportKeepsLogged(w, c);
    } else {
      OtherKeepsLogged(w, c);
    }
  }

  lemma DigestLater(stat: Billing.Stat, log: seq<Billing.Report>, epoch: int, later: int)
    requires Digest(stat, log, epoch) && epoch <= later
    ensures Digest(stat, log, later)
  {
  }

  lemma {:induction false} EveryRunIsLogged(calls: seq<Call>)
    requires Epochal(calls)
    ensures Logged(Watch(calls)) && Watch(calls).state == Exec(DEPLOYED, calls)
    ensures Watch(calls).epoch == if calls == [] then 0 else calls[|calls| - 1].env.epoch
  {
    if calls != [] {
      var init := calls[..|calls| - 1];
      EveryRunIsLogged(init);
      ObserveKeepsLogged(Watch(init), calls[|calls| - 1]);
    }
  }

  /** In every reachable state of an epoch, what settlement picks from a node's two slots for the epoch
      before is what the full log of its reports says, exactly unless the node's record was opened anew in
      this epoch while the log has something to charge for; then nothing is charged. */
  lemma SlotsAnswerLogIff(calls: seq<Call>, k: ReportKey, current: int)
    requires Epochal(calls) && Watch(calls).epoch <= current && k in Watch(calls).state.billing
    ensures Billing.IsLog(LogOf(Watch(calls), k))
    ensures var log, picked := LogOf(Watch(calls), k), Billing.Pick(Watch(calls).state.billing[k], current);
      && (picked == Billing.Answer(log, current) <==> !Billing.OpenedSince(log, current) || Billing.Answer(log, current) == 0)
      && (Billing.OpenedSince(log, current) ==> picked == 0)
  {
    EveryRunIsLogged(calls);
    assert Digest(Watch(calls).state.billing[k], Watch(calls).logs[k], Watch(calls).epoch);
    Billing.SlotsAnswerIff(Watch(calls).logs[k], current);
  }

  /** A report leaves what is charged for the epoch before it alone, exactly if the node has a report on
      record or there was nothing to charge: the first report after losing its record wipes it out. */
  lemma ReportKeepsChargeIff(calls: seq<Call>, e: Env, cid: Cid, size: int, objects: int, key: Bytes)
    requires Epochal(calls) && Watch(calls).epoch <= e.epoch
    requires SaveReport(Watch(calls).state, e, cid, size, objects, key, true).Ok?
    ensures var s, k := Watch(calls).state, (cid, StandardAccount(key));
            var before := Billing.Pick(StatOf(s, k), e.epoch);
            var after := Billing.Pick(SaveReport(s, e, cid, size, objects, key, true).value.billing[k], e.epoch);
      && (after == before <==> k in s.reports || before == 0)
      && (k !in s.reports ==> after == 0)
  {
    hide IsMember, Shift, Billing.IsLog, Billing.Limited, Billing.GroupStart, Billing.Fold, Watch, TruncDiv, SaveReport;
    EveryRunIsLogged(calls);
    var w, k := Watch(calls), (cid, StandardAccount(key));
    SavedBilling(w.state, e, cid, size, objects, key);
    if k in w.state.reports {
      assert Current(w.state.reports[k], w.logs[k]);
      assert Digest(w.state.billing[k], w.logs[k], w.epoch);
      Billing.SlotsMatchLog(w.logs[k]);
    }
  }

  /** In every reachable state the average stored for a node that is on record is within its number of
      reports, which is at most three, of the exact time-weighted mean of all sizes in its epoch, plus what
      opening the record anew in that epoch adds. */
  lemma StoredAverageIsClose(calls: seq<Call>, k: ReportKey)
    requires Epochal(calls) && k in Watch(calls).state.reports
    ensures var log := LogOf(Watch(calls), k);
      && log != [] && Billing.IsLog(log) && k in Watch(calls).state.billing
      && (Billing.OneClock(log[Billing.EpochStart(log)..]) ==>
            var d, avg := log[|log| - 1].duration, Watch(calls).state.billing[k].latestAverage;
            var error := d * avg - Billing.EpochArea(log);
            && -(MAX_REPORTS_PER_EPOCH * d) < error - Billing.Gap(log) < MAX_REPORTS_PER_EPOCH * d
            && (!Billing.ReopenedLastEpoch(log) ==> -(MAX_REPORTS_PER_EPOCH * d) < error < MAX_REPORTS_PER_EPOCH * d))
  {
    hide Watch, Billing.IsLog, Billing.EpochArea, Billing.Gap, Billing.GroupStart, Billing.EpochStart, Billing.Fold,
      Billing.Limited, Billing.OneClock, Billing.ReopenedLastEpoch;
    EveryRunIsLogged(calls);
    var w := Watch(calls);
    assert Current(w.state.reports[k], w.logs[k]);
    assert Digest(w.state.billing[k], w.logs[k], w.epoch);
    if Billing.OneClock(w.logs[k][Billing.EpochStart(w.logs[k])..]) {
      WithinThree(w.logs[k]);
    }
  }

  lemma WithinThree(log: seq<Billing.Report>)
    requires Billing.IsLog(log) && log != [] && Billing.OneClock(log[Billing.EpochStart(log)..])
    requires |log| - Billing.GroupStart(log) <= MAX_REPORTS_PER_EPOCH
    ensures var d := log[|log| - 1].duration;
            var error := d * Billing.Fold(log).latestAverage - Billing.EpochArea(log);
      && -(MAX_REPORTS_PER_EPOCH * d) < error - Billing.Gap(log) < MAX_REPORTS_PER_EPOCH * d
      && (!Billing.ReopenedLastEpoch(log) ==> -(MAX_REPORTS_PER_EPOCH * d) < error < MAX_REPORTS_PER_EPOCH * d)
  {
    hide Billing.IsLog, Billing.EpochArea, Billing.Gap, Billing.GroupStart, Billing.EpochStart, Billing.Fold, Billing.ReopenedLastEpoch;
    Billing.AverageIsCloseToMean(log);
    Billing.GapIsDifference(log);
    LastIsClocked(log, Billing.EpochStart(log));
    Within(|log| - Billing.GroupStart(log), log[|log| - 1].duration);
  }

  lemma LastIsClocked(log: seq<Billing.Report>, g: nat)
    requires g < |log| && Billing.OneClock(log[g..])
    ensures 0 < log[|log| - 1].duration
  {
    assert log[g..][|log| - 1 - g] == log[|log| - 1];
    assert log[|log| - 1] in log[g..];
  }

  // ---- whose report it is ----

  /** A report on record carries the key of the account it is kept for. */
  ghost predicate OwnKeys(reports: map<ReportKey, NodeReport>) {
    forall k :: k in reports ==> StandardAccount(reports[k].key) == k.1
  }

  lemma {:induction false} EveryReportHasOwnKey(calls: seq<Call>)
    ensures OwnKeys(Exec(DEPLOYED, calls).reports)
  {
    if calls != [] {
      var init, c := calls[..|calls| - 1], calls[|calls| - 1];
      EveryReportHasOwnKey(init);
      StepKeepsOwnKeys(Exec(DEPLOYED, init), c);
      hide Step, OwnKeys;
    }
  }

  lemma StepKeepsOwnKeys(s: State, c: Call)
    requires OwnKeys(s.reports)
    ensures OwnKeys(Step(s, c).reports)
  {
    if Apply(s, c.env, c.op).Ok? {
      if c.op.PutReport? {
        SavedKey(s, c.env, c.op.cid, c.op.size, c.op.objects, c.op.key);
        hide SaveReport;
      } else {
        OthersLeaveBilling(s, c.env, c.op);
        hide Apply;
      }
    }
  }

  lemma SavedKey(s: State, e: Env, cid: Cid, size: int, objects: int, key: Bytes)
    requires SaveReport(s, e, cid, size, objects, key, true).Ok?
    ensures var after, k := SaveReport(s, e, cid, size, objects, key, true).value, (cid, StandardAccount(key));
      && k in after.reports && after.reports == s.reports[k := after.reports[k]]
      && after.reports[k].key == if k in s.reports then s.reports[k].key else key
  {
    hide Shift, IsMember, Billing.Updated;
  }

  // ---- how small a charged size can be ----

  /** Calls come inside their epoch, in order of time, and agree on when an epoch began and how long it lasts. */
  ghost predicate Clocked(calls: seq<Call>) {
    && (forall c :: c in calls ==> 0 < c.env.duration && c.env.tick <= c.env.now <= c.env.tick + c.env.duration * 1000)
    && (forall i, j :: 0 <= i < j < |calls| ==> calls[i].env.now <= calls[j].env.now)
    && (forall i, j :: 0 <= i < j < |calls| && calls[i].env.epoch == calls[j].env.epoch ==>
          calls[i].env.tick == calls[j].env.tick && calls[i].env.duration == calls[j].env.duration)
  }

  predicate SizesProper(calls: seq<Call>) {
    forall c :: c in calls && c.op.PutReport? ==> 0 <= c.op.size && 0 <= c.op.objects
  }

  /** The report was made by one of the calls. */
  ghost predicate Stamped(r: Billing.Report, calls: seq<Call>) {
    exists i :: 0 <= i < |calls| && r.epoch == calls[i].env.epoch && r.time == calls[i].env.now
                && r.tick == calls[i].env.tick && r.duration == calls[i].env.duration * 1000
  }

  ghost predicate TimedLog(log: seq<Billing.Report>, calls: seq<Call>) {
    Billing.WellTimed(log) && forall r :: r in log ==> Stamped(r, calls)
  }

  lemma EntryIsTimed(log: seq<Billing.Report>, init: seq<Call>, c: Call, entry: Billing.Report)
    requires TimedLog(log, init) && Clocked(init + [c]) && 0 <= entry.billed
    requires entry.epoch == c.env.epoch && entry.time == c.env.now && entry.tick == c.env.tick && entry.duration == c.env.duration * 1000
    ensures TimedLog(log + [entry], init + [c])
  {
    hide Billing.WellTimed;
    var calls := init + [c];
    assert calls[|init|] == c && c in calls;
    forall r | r in log
      ensures r.time <= entry.time && (r.epoch == entry.epoch ==> r.tick == entry.tick && r.duration == entry.duration)
      ensures Stamped(r, calls)
    {
      var i :| 0 <= i < |init| && r.epoch == init[i].env.epoch && r.time == init[i].env.now
               && r.tick == init[i].env.tick && r.duration == init[i].env.duration * 1000;
      assert calls[i] == init[i];
      assert calls[i].env.now <= calls[|init|].env.now;
    }
    Billing.TimedMore(log, entry);
    assert Stamped(entry, calls);
  }

  lemma LaterIsTimed(log: seq<Billing.Report>, init: seq<Call>, c: Call)
    requires TimedLog(log, init)
    ensures TimedLog(log, init + [c])
  {
    hide Billing.WellTimed;
    forall r | r in log
      ensures Stamped(r, init + [c])
    {
      var i :| 0 <= i < |init| && r.epoch == init[i].env.epoch && r.time == init[i].env.now
               && r.tick == init[i].env.tick && r.duration == init[i].env.duration * 1000;
      assert (init + [c])[i] == init[i];
    }
  }

  lemma ObserveKeepsTimes(w: World, init: seq<Call>, c: Call)
    requires Clocked(init + [c]) && SizesProper([c])
    requires forall k :: k in w.logs ==> TimedLog(w.logs[k], init)
    ensures forall k :: k in Observe(w, c).logs ==> TimedLog(Observe(w, c).logs[k], init + [c])
  {
    hide TimedLog, Clocked, Apply;
    assert c in [c];
    forall k | k in Observe(w, c).logs
      ensures TimedLog(Observe(w, c).logs[k], init + [c])
    {
      if c.op.PutReport? && Apply(w.state, c.env, c.op).Ok? && k == (c.op.cid, StandardAccount(c.op.key)) {
        EmptyIsTimed(init);
        var entry := LogEntry(w.state, c.env, c.op.cid, c.op.size, c.op.objects, c.op.key);
        EntryIsTimed(LogOf(w, k), init, c, entry);
      } else {
        LaterIsTimed(w.logs[k], init, c);
      }
    }
  }

  lemma EmptyIsTimed(calls: seq<Call>)
    ensures TimedLog([], calls)
  {
  }

  lemma {:induction false} EveryLogIsTimed(calls: seq<Call>)
    requires Clocked(calls) && SizesProper(calls)
    ensures forall k :: k in Watch(calls).logs ==> TimedLog(Watch(calls).logs[k], calls)
  {
    if calls != [] {
      var init, c := calls[..|calls| - 1], calls[|calls| - 1];
      assert init + [c] == calls;
      EveryLogIsTimed(init);
      ObserveKeepsTimes(Watch(init), init, c);
      hide Observe, TimedLog;
    }
  }

  /** Where calls come inside their epochs and sizes are sizes, what settlement picks is never below -1. */
  lemma PickedSizeIsAtLeast(calls: seq<Call>, k: ReportKey, current: int)
    requires Epochal(calls) && Clocked(calls) && SizesProper(calls) && k in Watch(calls).state.billing
    ensures -1 <= Billing.Pick(Watch(calls).state.billing[k], current)
  {
    EveryRunIsLogged(calls);
    EveryLogIsTimed(calls);
    hide Watch, Billing.IsLog, Billing.WellTimed, Billing.Limited, Billing.Fold, Clocked, Epochal;
    assert Digest(Watch(calls).state.billing[k], Watch(calls).logs[k], Watch(calls).epoch);
    assert TimedLog(Watch(calls).logs[k], calls);
    Billing.PickIsAtLeast(Watch(calls).logs[k], current);
  }

  lemma Within(k: int, d: int)
    requires k <= MAX_REPORTS_PER_EPOCH && 0 < d
    ensures k * d <= MAX_REPORTS_PER_EPOCH * d
  {
  }
}
