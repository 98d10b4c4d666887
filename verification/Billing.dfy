/** The billing statistic kept for each node of a container: instead of the log of its storage
    reports, two slots with the latest epoch it reported in and the one before
    (contracts/container/contract.go), from which settlement reads the size to charge for
    (contracts/balance/contract.go). */
module Billing {
  import opened Storage

  datatype Stat = Stat(latestSize: int, latestEpoch: int, lastUpdateTime: int, latestAverage: int,
                       previousSize: int, previousEpoch: int, previousAverage: int)

  /** One report as the ledger saw it: when it came, when its epoch began and how long epochs last
      (both in milliseconds), the size billed, and whether it opened the node's record. */
  datatype Report = Report(epoch: int, time: int, tick: int, duration: int, billed: int, opens: bool)
  {
    function End(): int { tick + duration }
  }

  // ---- the update made by each report ----

  function Opened(r: Report): Stat {
    Stat(r.billed, r.epoch, r.time, r.billed, 0, 0, 0)
  }

  /** A further report in the epoch of the last one shifts the average by the change weighted with
      the rest of the epoch; the first report of a new epoch moves the latest slot to the previous. */
  function Updated(s: Stat, was: int, sameEpoch: bool, r: Report): Stat
    requires r.duration != 0
  {
    if sameEpoch then
      s.(latestAverage := s.latestAverage + TruncDiv((r.billed - was) * (r.End() - r.time), r.duration),
         lastUpdateTime := r.time, latestSize := r.billed)
    else
      Stat(r.billed, r.epoch, r.time,
           TruncDiv(was * (r.time - r.tick) + r.billed * (r.End() - r.time), r.duration),
           s.latestSize, s.latestEpoch, s.latestAverage)
  }

  /** The log of one node's reports, oldest first. */
  ghost predicate IsLog(log: seq<Report>) {
    && (log != [] ==> log[0].opens)
    && (forall i, j :: 0 <= i < j < |log| ==> log[i].epoch <= log[j].epoch)
    && (forall r :: r in log && !r.opens ==> r.duration != 0)
  }

  lemma LogPrefix(log: seq<Report>)
    requires IsLog(log) && log != []
    ensures IsLog(log[..|log| - 1])
    ensures |log| == 1 ==> log[0].opens
    ensures !log[|log| - 1].opens ==> 1 < |log| && log[|log| - 1].duration != 0
  {
    assert log[|log| - 1] in log;
  }

  /** The two slots after the whole log. */
  ghost function Fold(log: seq<Report>): Stat
    requires IsLog(log) && log != []
  {
    LogPrefix(log);
    var init, last := log[..|log| - 1], log[|log| - 1];
    if last.opens then Opened(last)
    else Updated(Fold(init), init[|init| - 1].billed, init[|init| - 1].epoch == last.epoch, last)
  }

  // ---- what settlement reads from the slots, and what the log says ----

  /** The size charged in epoch `current` for the epoch before it. */
  function Pick(s: Stat, current: int): int {
    var payment := current - 1;
    if s.latestEpoch < payment then s.latestSize
    else if s.latestEpoch == current then
      if s.previousEpoch == payment then s.previousAverage else s.previousSize
    else if s.latestEpoch == payment then s.latestAverage
    else 0
  }

  lemma PrefixIsLog(log: seq<Report>, n: nat)
    requires IsLog(log) && n <= |log|
    ensures IsLog(log[..n])
  {
    assert forall r :: r in log[..n] ==> r in log;
  }

  /** Number of reports made before the given epoch. */
  function Earlier(log: seq<Report>, epoch: int): (n: nat)
    ensures n <= |log|
  {
    if log == [] || log[|log| - 1].epoch < epoch then |log| else Earlier(log[..|log| - 1], epoch)
  }

  lemma {:induction false} EarlierSplits(log: seq<Report>, epoch: int)
    requires IsLog(log)
    ensures forall i :: 0 <= i < |log| ==> (i < Earlier(log, epoch) <==> log[i].epoch < epoch)
  {
    if log != [] && epoch <= log[|log| - 1].epoch {
      LogPrefix(log);
      EarlierSplits(log[..|log| - 1], epoch);
    }
  }

  /** What the whole log says is to be charged in epoch `current` for the epoch before it: the average
      stored then if there were reports in that epoch, otherwise the size last reported before, and
      nothing if there was none. */
  ghost function Answer(log: seq<Report>, current: int): int
    requires IsLog(log)
  {
    var n := Earlier(log, current);
    PrefixIsLog(log, n);
    if n == 0 then 0
    else if log[n - 1].epoch == current - 1 then Fold(log[..n]).latestAverage
    else log[n - 1].billed
  }

  /** The node's record was opened in the given epoch or later. */
  ghost predicate OpenedSince(log: seq<Report>, epoch: int) {
    exists i :: Earlier(log, epoch) <= i < |log| && log[i].opens
  }

  /** Number of reports before those of the last epoch, within the record they belong to. */
  ghost function Before(log: seq<Report>): (n: nat)
    requires IsLog(log) && log != []
    ensures n < |log|
  {
    LogPrefix(log);
    var init, last := log[..|log| - 1], log[|log| - 1];
    if last.opens then 0
    else if init[|init| - 1].epoch < last.epoch then |init|
    else Before(init)
  }

  /** The previous slot is the record as it stood before the last epoch with reports. */
  lemma {:induction false} SlotsMatchLog(log: seq<Report>)
    requires IsLog(log) && log != []
    ensures IsLog(log[..Before(log)])
    ensures var s, last, b := Fold(log), log[|log| - 1], Before(log);
      && s.latestEpoch == last.epoch && s.latestSize == last.billed && s.lastUpdateTime == last.time
      && (b == 0 ==> s.previousSize == 0 && s.previousEpoch == 0 && s.previousAverage == 0)
      && (0 < b ==> s.previousSize == log[b - 1].billed && s.previousEpoch == log[b - 1].epoch < last.epoch
                    && s.previousAverage == Fold(log[..b]).latestAverage)
  {
    LogPrefix(log);
    var init, last := log[..|log| - 1], log[|log| - 1];
    if !last.opens {
      SlotsMatchLog(init);
      if init[|init| - 1].epoch == last.epoch {
        assert log[..Before(log)] == init[..Before(init)];
      }
    }
  }

  /** Unless the record was opened in the last epoch, what came before is all that came in earlier epochs. */
  lemma {:induction false} BeforeIsEarlier(log: seq<Report>)
    requires IsLog(log) && log != []
    ensures 0 < Before(log) ==> Before(log) == Earlier(log, log[|log| - 1].epoch)
    ensures 0 == Before(log) <==> OpenedSince(log, log[|log| - 1].epoch)
  {
    LogPrefix(log);
    var init, last := log[..|log| - 1], log[|log| - 1];
    if !last.opens && init[|init| - 1].epoch == last.epoch {
      BeforeIsEarlier(init);
      if OpenedSince(init, last.epoch) {
        var i :| Earlier(init, last.epoch) <= i < |init| && init[i].opens;
        assert log[i].opens;
      }
    } else if last.opens {
      assert log[|log| - 1].opens;
    }
  }

  /** The two slots answer as the full log does, exactly unless the record was opened anew in the current
      epoch while the log has something to charge for: opening it forgets all reports made before. */
  lemma SlotsAnswerIff(log: seq<Report>, current: int)
    requires IsLog(log) && log != [] && log[|log| - 1].epoch <= current
    ensures Pick(Fold(log), current) == Answer(log, current) <==> !OpenedSince(log, current) || Answer(log, current) == 0
    ensures OpenedSince(log, current) ==> Pick(Fold(log), current) == 0
  {
    hide IsLog;
    SlotsMatchLog(log);
    assert log[..|log|] == log;
    if log[|log| - 1].epoch == current {
      BeforeIsEarlier(log);
    }
  }

  /** A node that reported 100 in epoch 5, left the list and came back with 50 in epoch 6: before it came
      back 100 was charged for epoch 5, as the log says; after, nothing is. */
  lemma ReopeningForgets()
    ensures var first, again := Report(5, 10, 0, 100, 100, true), Report(6, 110, 100, 100, 50, true);
      && IsLog([first]) && IsLog([first, again])
      && Pick(Fold([first]), 6) == 100 == Answer([first], 6)
      && Pick(Fold([first, again]), 6) == 0 && Answer([first, again], 6) == 100
  {
    var first, again := Report(5, 10, 0, 100, 100, true), Report(6, 110, 100, 100, 50, true);
    var log := [first, again];
    assert log[..1] == [first] && [first][..1] == [first];
    assert Earlier([first], 6) == 1 && Earlier(log, 6) == 1;
  }

  // ---- the average ----

  /** Area below the step function that starts at `prior` and takes each report's size from its time on. */
  function Area(prior: int, reports: seq<Report>, start: int, end: int): int
    decreases |reports|
  {
    if reports == [] then prior * (end - start)
    else prior * (reports[0].time - start) + Area(reports[0].billed, reports[1..], reports[0].time, end)
  }

  lemma {:induction false} AreaAppend(prior: int, reports: seq<Report>, r: Report, start: int, end: int)
    ensures var was := if reports == [] then prior else reports[|reports| - 1].billed;
            Area(prior, reports + [r], start, end) == Area(prior, reports, start, end) + (r.billed - was) * (end - r.time)
    decreases |reports|
  {
    if reports == [] {
      assert [r][1..] == [];
      assert Area(prior, [r], start, end) == prior * (r.time - start) + r.billed * (end - r.time);
      assert prior * (r.time - start) + prior * (end - r.time) == prior * (end - start);
      assert [] + [r] == [r];
    } else {
      assert (reports + [r])[1..] == reports[1..] + [r];
      AreaAppend(reports[0].billed, reports[1..], r, reports[0].time, end);
    }
  }

  /** The reports of the last epoch share its beginning and length. */
  ghost predicate OneClock(reports: seq<Report>) {
    forall r :: r in reports ==> 0 < r.duration && r.tick == reports[0].tick && r.duration == reports[0].duration
  }

  /** Size in force when the last epoch began, as the record has it: that of the report before, or, where
      the record was opened in this epoch, its first size. */
  ghost function Prior(log: seq<Report>): int
    requires IsLog(log) && log != []
  {
    var b := GroupStart(log);
    if log[b].opens then log[b].billed else log[b - 1].billed
  }

  /** Position of the first report of the last epoch that the record knows of: it starts anew when opened. */
  ghost function GroupStart(log: seq<Report>): (g: nat)
    requires IsLog(log) && log != []
    ensures g < |log| && log[g].epoch == log[|log| - 1].epoch
    ensures log[g].opens || (0 < g && log[g - 1].epoch < log[g].epoch)
    ensures forall i :: g < i < |log| ==> !log[i].opens
  {
    LogPrefix(log);
    var init, last := log[..|log| - 1], log[|log| - 1];
    if last.opens || init[|init| - 1].epoch < last.epoch then |init| else GroupStart(init)
  }

  lemma {:induction false} FirstAverage(was: int, r: Report)
    requires 0 < r.duration
    ensures Area(was, [r], r.tick, r.End()) == was * (r.time - r.tick) + r.billed * (r.End() - r.time)
    ensures Area(r.billed, [r], r.tick, r.End()) == r.billed * r.duration
  {
    assert [r][1..] == [];
    assert r.billed * (r.time - r.tick) + r.billed * (r.End() - r.time) == r.billed * r.duration;
  }

  /** `average` stands for `area / d`, give or take less than k. */
  ghost predicate Close(average: int, area: int, d: int, k: nat) {
    -(k * d) < d * average - area < k * d
  }

  /** Sizes integrated over the last epoch, as far as the record knows of them. */
  ghost function LastArea(log: seq<Report>): int
    requires IsLog(log) && log != []
  {
    GroupArea(Prior(log), log[GroupStart(log)..])
  }

  /** Area over the epoch that the given reports belong to. */
  function GroupArea(prior: int, reports: seq<Report>): int
    requires reports != []
  {
    Area(prior, reports, reports[0].tick, reports[0].End())
  }

  lemma GroupAreaAppend(prior: int, reports: seq<Report>, r: Report)
    requires reports != [] && OneClock(reports + [r])
    ensures GroupArea(prior, reports + [r])
         == GroupArea(prior, reports) + (r.billed - reports[|reports| - 1].billed) * (r.End() - r.time)
  {
    hide Area;
    assert r in reports + [r] && reports[0] == (reports + [r])[0];
    AreaAppend(prior, reports, r, r.tick, r.End());
  }

  lemma AverageStep(s: Stat, was: int, r: Report, k: nat, area: int)
    requires 0 < r.duration && Close(s.latestAverage, area, r.duration, k)
    ensures Close(Updated(s, was, true, r).latestAverage, area + (r.billed - was) * (r.End() - r.time), r.duration, k + 1)
  {
    var d, change := r.duration, (r.billed - was) * (r.End() - r.time);
    var q := TruncDiv(change, d);
    assert Updated(s, was, true, r).latestAverage == s.latestAverage + q;
    assert d * (s.latestAverage + q) == d * s.latestAverage + q * d;
    assert (k + 1) * d == k * d + d;
  }

  lemma ExactStart(last: Report, was: int)
    requires 0 < last.duration
    ensures Close(TruncDiv(was * (last.time - last.tick) + last.billed * (last.End() - last.time), last.duration),
                  Area(was, [last], last.tick, last.End()), last.duration, 1)
    ensures Close(last.billed, Area(last.billed, [last], last.tick, last.End()), last.duration, 1)
  {
    FirstAverage(was, last);
    var x := was * (last.time - last.tick) + last.billed * (last.End() - last.time);
    assert x - TruncDiv(x, last.duration) * last.duration < last.duration;
  }

  lemma AverageStarts(log: seq<Report>)
    requires IsLog(log) && log != [] && GroupStart(log) == |log| - 1 && 0 < log[|log| - 1].duration
    ensures Close(Fold(log).latestAverage, LastArea(log), log[|log| - 1].duration, 1)
  {
    hide *;
    StartIsFirstAverage(log);
    var last, was := log[|log| - 1], if log[|log| - 1].opens then log[|log| - 1].billed else log[|log| - 2].billed;
    ExactStart(last, was);
  }

  lemma StartIsFirstAverage(log: seq<Report>)
    requires IsLog(log) && log != [] && GroupStart(log) == |log| - 1 && 0 < log[|log| - 1].duration
    ensures !log[|log| - 1].opens ==> 1 < |log|
    ensures var last := log[|log| - 1];
            var was := if last.opens then last.billed else log[|log| - 2].billed;
      && LastArea(log) == Area(was, [last], last.tick, last.End())
      && Fold(log).latestAverage
         == if last.opens then was else TruncDiv(was * (last.time - last.tick) + last.billed * (last.End() - last.time), last.duration)
  {
    hide Area, TruncDiv, IsLog;
    LogPrefix(log);
    assert log[GroupStart(log)..] == [log[|log| - 1]];
    assert 1 < |log| ==> log[..|log| - 1][|log| - 2] == log[|log| - 2];
  }

  lemma SameGroup(log: seq<Report>)
    requires IsLog(log) && log != [] && GroupStart(log) < |log| - 1 && OneClock(log[GroupStart(log)..])
    ensures var init, last := log[..|log| - 1], log[|log| - 1];
      && IsLog(init) && init != [] && GroupStart(init) == GroupStart(log) && Prior(init) == Prior(log)
      && OneClock(init[GroupStart(init)..]) && init[|init| - 1].duration == last.duration
      && Fold(log) == Updated(Fold(init), init[|init| - 1].billed, true, last)
  {
    hide Area, TruncDiv, Updated, IsLog;
    LogPrefix(log);
    var init, g := log[..|log| - 1], GroupStart(log);
    var earlier, reports := init[g..], log[g..];
    assert reports[|reports| - 1] == log[|log| - 1] && reports[|reports| - 2] == init[|init| - 1];
    assert forall i :: 0 <= i < |earlier| ==> earlier[i] == reports[i];
  }

  /** A further report of the last epoch adds the change of size, held for the rest of the epoch. */
  lemma LastAreaGrows(log: seq<Report>)
    requires IsLog(log) && log != [] && GroupStart(log) < |log| - 1 && OneClock(log[GroupStart(log)..])
    requires IsLog(log[..|log| - 1]) && GroupStart(log[..|log| - 1]) == GroupStart(log)
    requires Prior(log[..|log| - 1]) == Prior(log)
    ensures var init, last := log[..|log| - 1], log[|log| - 1];
            LastArea(log) == LastArea(init) + (last.billed - init[|init| - 1].billed) * (last.End() - last.time)
  {
    hide GroupArea, GroupStart, Prior, IsLog, OneClock;
    var init, g := log[..|log| - 1], GroupStart(log);
    assert log[g..] == init[g..] + [log[|log| - 1]];
    GroupAreaAppend(Prior(init), init[g..], log[|log| - 1]);
    assert init[g..][|init| - g - 1] == init[|init| - 1];
  }

  /** After k reports in an epoch the stored average, times the length of the epoch, is off the area
      below the sizes by less than k epoch lengths: each report loses less than one unit to truncation. */
  lemma {:induction false} AverageIsClose(log: seq<Report>)
    requires IsLog(log) && log != [] && OneClock(log[GroupStart(log)..])
    ensures Close(Fold(log).latestAverage, LastArea(log), log[|log| - 1].duration, |log| - GroupStart(log))
  {
    hide Close, LastArea, Fold, Updated, IsLog, GroupStart;
    var init, last := log[..|log| - 1], log[|log| - 1];
    assert log[GroupStart(log)..][|log| - 1 - GroupStart(log)] == last;
    if GroupStart(log) == |log| - 1 {
      AverageStarts(log);
    } else {
      SameGroup(log);
      LastAreaGrows(log);
      AverageIsClose(init);
      AverageStep(Fold(init), init[|init| - 1].billed, last, |init| - GroupStart(init), LastArea(init));
    }
  }

  // ---- the mean over all reports of the epoch ----

  /** Position of the first report of the last epoch. */
  ghost function EpochStart(log: seq<Report>): (g: nat)
    requires IsLog(log) && log != []
    ensures g <= GroupStart(log)
  {
    EarlierSplits(log, log[|log| - 1].epoch);
    Earlier(log, log[|log| - 1].epoch)
  }

  /** Size in force when the last epoch began; a node's first size ever counts for its whole epoch. */
  ghost function SizeAtStart(log: seq<Report>): int
    requires IsLog(log) && log != []
  {
    var g := EpochStart(log);
    if g == 0 then log[0].billed else log[g - 1].billed
  }

  /** All sizes reported, integrated over the last epoch. */
  ghost function EpochArea(log: seq<Report>): int
    requires IsLog(log) && log != []
  {
    GroupArea(SizeAtStart(log), log[EpochStart(log)..])
  }

  /** The record was opened anew in the last epoch, after other reports of the node. */
  ghost predicate ReopenedLastEpoch(log: seq<Report>)
    requires IsLog(log) && log != []
  {
    0 < GroupStart(log) && log[GroupStart(log)].opens
  }

  /** What opening the record anew adds: its first size is taken to have been there from the beginning of
      the epoch, whatever was there until then. */
  ghost function Gap(log: seq<Report>): int
    requires IsLog(log) && log != []
  {
    var g, r := GroupStart(log), log[GroupStart(log)];
    if !r.opens then 0
    else r.billed * (r.time - r.tick) - Area(SizeAtStart(log), log[EpochStart(log)..g], r.tick, r.time)
  }

  lemma {:induction false} AreaSplits(prior: int, a: seq<Report>, r: Report, b: seq<Report>, start: int, end: int)
    ensures Area(prior, a + [r] + b, start, end) == Area(prior, a, start, r.time) + Area(r.billed, b, r.time, end)
    decreases |a|
  {
    if a == [] {
      assert (a + [r] + b)[1..] == b;
    } else {
      assert (a + [r] + b)[1..] == a[1..] + [r] + b;
      AreaSplits(a[0].billed, a[1..], r, b, a[0].time, end);
    }
  }

  lemma StartsInOrder(log: seq<Report>)
    requires IsLog(log) && log != []
    ensures var e, g := EpochStart(log), GroupStart(log);
      && e <= g < |log|
      && (log[g].opens || (0 < g && e == g))
  {
    EarlierSplits(log, log[|log| - 1].epoch);
  }

  lemma Parts(log: seq<Report>, e: nat, g: nat)
    requires e <= g < |log|
    ensures log[e..] == log[e..g] + [log[g]] + log[g + 1..]
    ensures log[g..] == [] + [log[g]] + log[g + 1..]
    ensures log[e..][0] == log[e] && log[g] in log[e..] && log[e] in log[e..]
    ensures OneClock(log[e..]) ==> OneClock(log[g..])
  {
    assert log[e..][g - e..] == log[g..];
    assert log[g..][0] == log[g] && log[e..][0] == log[e] && log[e..][g - e] == log[g];
    assert forall x :: x in log[g..] ==> x in log[e..];
  }

  lemma GapIsDifference(log: seq<Report>)
    requires IsLog(log) && log != [] && OneClock(log[EpochStart(log)..])
    ensures LastArea(log) == EpochArea(log) + Gap(log)
    ensures OneClock(log[GroupStart(log)..])
    ensures !ReopenedLastEpoch(log) ==> Gap(log) == 0 && EpochStart(log) == GroupStart(log)
  {
    hide Area, IsLog, GroupStart, EpochStart;
    StartsInOrder(log);
    var e, g := EpochStart(log), GroupStart(log);
    var r, later := log[g], log[g + 1..];
    Parts(log, e, g);
    if r.opens {
      assert log[e].tick == r.tick && log[e].End() == r.End();
      hide OneClock;
      AreaSplits(Prior(log), [], r, later, r.tick, r.End());
      AreaSplits(SizeAtStart(log), log[e..g], r, later, r.tick, r.End());
      EmptyArea(r.billed, r.tick, r.time);
      if g == 0 {
        assert log[e..g] == [];
      }
    }
  }

  lemma EmptyArea(prior: int, start: int, end: int)
    ensures Area(prior, [], start, end) == prior * (end - start)
  {
  }

  /** After k reports since the record was opened or the epoch began, the stored average is within k of the
      mean over all sizes of the epoch, corrected by what opening the record anew in this epoch adds. */
  lemma AverageIsCloseToMean(log: seq<Report>)
    requires IsLog(log) && log != [] && OneClock(log[EpochStart(log)..])
    ensures Close(Fold(log).latestAverage, EpochArea(log) + Gap(log), log[|log| - 1].duration, |log| - GroupStart(log))
    ensures !ReopenedLastEpoch(log)
      ==> Close(Fold(log).latestAverage, EpochArea(log), log[|log| - 1].duration, |log| - EpochStart(log))
  {
    hide *;
    GapIsDifference(log);
    AverageIsClose(log);
  }

  /** Right after the record is opened anew the average is within k of the mean exactly if the size it was
      opened with, counted from the beginning of the epoch, differs by less than k epochs' worth from what
      had been reported until then. */
  lemma ReopenedIsCloseIff(log: seq<Report>, k: nat)
    requires IsLog(log) && log != [] && log[|log| - 1].opens && OneClock(log[EpochStart(log)..])
    ensures var d := log[|log| - 1].duration;
            Close(Fold(log).latestAverage, EpochArea(log), d, k) <==> -(k * d) < Gap(log) < k * d
  {
    GapIsDifference(log);
    var last := log[|log| - 1];
    assert log[GroupStart(log)..] == [last];
    assert last in log[GroupStart(log)..];
    FirstAverage(last.billed, last);
    assert LastArea(log) == last.billed * last.duration;
    hide Gap, EpochArea, LastArea;
  }

  /** A size of 1000 held for a whole epoch of a second but for its last millisecond, in which the node
      left the list and came back with nothing: the mean is 999, the average stored is 0. */
  lemma ReopeningForgetsTheEpoch()
    ensures var log := [Report(5, 0, 0, 1000, 1000, true), Report(5, 999, 0, 1000, 0, true)];
      && IsLog(log) && EpochArea(log) == 999 * 1000
      && Fold(log).latestAverage == 0 && !Close(0, EpochArea(log), 1000, 3)
  {
    var first, again := Report(5, 0, 0, 1000, 1000, true), Report(5, 999, 0, 1000, 0, true);
    var log := [first, again];
    assert Earlier([first], 5) == 0 by { assert [first][..0] == []; }
    assert log[..1] == [first];
    assert EpochStart(log) == 0 && log[0..] == [first, again];
    AreaSplits(1000, [first], again, [], 0, 1000);
    assert [first] + [again] + [] == log;
    AreaSplits(1000, [], first, [], 0, 999);
    assert [] + [first] + [] == [first];
  }

  /** With report times in order inside the epoch, the area is a mean of the sizes: it lies between
      the smallest and the largest of them, held for the whole time. */
  lemma {:induction false} AreaIsBounded(prior: int, reports: seq<Report>, start: int, end: int, lo: int, hi: int)
    requires start <= end && lo <= prior <= hi
    requires forall r :: r in reports ==> lo <= r.billed <= hi && start <= r.time <= end
    requires forall i, j :: 0 <= i < j < |reports| ==> reports[i].time <= reports[j].time
    ensures lo * (end - start) <= Area(prior, reports, start, end) <= hi * (end - start)
    decreases |reports|
  {
    if reports == [] {
      Scale(lo, prior, hi, end - start);
    } else {
      var r := reports[0];
      assert r in reports;
      AreaIsBounded(r.billed, reports[1..], r.time, end, lo, hi);
      Scale(lo, prior, hi, r.time - start);
      Distribute(lo, r.time - start, end - r.time, end - start);
      Distribute(hi, r.time - start, end - r.time, end - start);
    }
  }

  lemma Distribute(x: int, a: int, b: int, whole: int)
    requires a + b == whole
    ensures x * a + x * b == x * whole
  {
  }

  lemma Scale(lo: int, x: int, hi: int, t: nat)
    requires lo <= x <= hi
    ensures lo * t <= x * t <= hi * t
  {
  }

  // ---- how far below zero ----

  /** Report times lie inside their epochs and do not decrease, reports of one epoch agree on when it began
      and how long it lasts, and sizes are sizes. */
  ghost predicate WellTimed(log: seq<Report>) {
    && (forall r :: r in log ==> 0 <= r.billed && 0 < r.duration && r.tick <= r.time <= r.End())
    && (forall i, j :: 0 <= i < j < |log| ==> log[i].time <= log[j].time)
    && (forall i, j :: 0 <= i < j < |log| && log[i].epoch == log[j].epoch ==>
          log[i].tick == log[j].tick && log[i].duration == log[j].duration)
  }

  /** Reports of the last epoch, since the record was opened, that did not go below the one before. */
  ghost function Rises(log: seq<Report>): (n: nat)
    requires IsLog(log) && log != []
    ensures n < |log| - GroupStart(log)
  {
    LogPrefix(log);
    var init, last := log[..|log| - 1], log[|log| - 1];
    if last.opens || init[|init| - 1].epoch < last.epoch then 0
    else Rises(init) + if init[|init| - 1].billed <= last.billed then 1 else 0
  }

  lemma {:induction false} AreaIsNotNegative(prior: int, reports: seq<Report>, start: int, end: int)
    requires 0 <= prior && start <= end
    requires forall r :: r in reports ==> 0 <= r.billed && start <= r.time <= end
    requires forall i, j :: 0 <= i < j < |reports| ==> reports[i].time <= reports[j].time
    ensures 0 <= Area(prior, reports, start, end)
    decreases |reports|
  {
    if reports == [] {
      Scale(0, prior, prior, end - start);
    } else {
      var r := reports[0];
      assert r in reports;
      assert forall x :: x in reports[1..] ==> x in reports;
      Scale(0, prior, prior, r.time - start);
      AreaIsNotNegative(r.billed, reports[1..], r.time, end);
    }
  }

  /** A stretch of reports of one epoch. */
  ghost predicate Timed(reports: seq<Report>) {
    && reports != [] && OneClock(reports) && reports[0].tick <= reports[0].End()
    && (forall r :: r in reports ==> 0 <= r.billed && reports[0].tick <= r.time <= reports[0].End())
    && (forall i, j :: 0 <= i < j < |reports| ==> reports[i].time <= reports[j].time)
  }

  lemma StretchIsTimed(log: seq<Report>, g: nat)
    requires WellTimed(log) && g < |log| && forall i :: g <= i < |log| ==> log[i].epoch == log[g].epoch
    ensures Timed(log[g..])
  {
    var reports := log[g..];
    forall r | r in reports
      ensures 0 < r.duration && r.tick == log[g].tick && r.duration == log[g].duration
      ensures 0 <= r.billed && r.tick <= r.time <= r.End()
    {
      var i :| 0 <= i < |reports| && reports[i] == r;
      assert log[g + i] == r && r in log;
      assert g < g + i ==> log[g].tick == log[g + i].tick && log[g].duration == log[g + i].duration;
    }
    forall i, j | 0 <= i < j < |reports|
      ensures reports[i].time <= reports[j].time
    {
      assert log[g + i].time <= log[g + j].time;
    }
  }

  lemma GroupIsOneEpoch(log: seq<Report>)
    requires IsLog(log) && log != []
    ensures forall i :: GroupStart(log) <= i < |log| ==> log[i].epoch == log[GroupStart(log)].epoch
  {
    var g := GroupStart(log);
    forall i | g <= i < |log|
      ensures log[i].epoch == log[g].epoch
    {
      assert g < i ==> log[g].epoch <= log[i].epoch;
      assert i < |log| - 1 ==> log[i].epoch <= log[|log| - 1].epoch;
    }
  }

  lemma GroupIsTimed(log: seq<Report>)
    requires IsLog(log) && WellTimed(log) && log != []
    ensures Timed(log[GroupStart(log)..]) && 0 <= Prior(log)
  {
    GroupIsOneEpoch(log);
    StretchIsTimed(log, GroupStart(log));
    var g := GroupStart(log);
    assert log[g] in log && (!log[g].opens ==> log[g - 1] in log);
    hide IsLog;
  }

  lemma LastAreaIsNotNegative(log: seq<Report>)
    requires IsLog(log) && WellTimed(log) && log != []
    ensures 0 <= LastArea(log)
  {
    hide Area, GroupStart, Prior, WellTimed, IsLog, OneClock;
    GroupIsTimed(log);
    var reports := log[GroupStart(log)..];
    AreaIsNotNegative(Prior(log), reports, reports[0].tick, reports[0].End());
  }

  lemma WeightedIsNotNegative(was: int, before: int, now: int, rest: int, d: int)
    requires 0 <= was && 0 <= before && 0 <= now && 0 <= rest && 0 < d
    ensures 0 <= TruncDiv(was * before + now * rest, d)
  {
    Scale(0, was, was, before);
    Scale(0, now, now, rest);
  }

  lemma LastIsTimed(log: seq<Report>)
    requires WellTimed(log) && log != []
    ensures var last := log[|log| - 1]; 0 <= last.billed && 0 < last.duration && last.tick <= last.time <= last.End()
    ensures 1 < |log| ==> 0 <= log[|log| - 2].billed
  {
    assert log[|log| - 1] in log;
    assert 1 < |log| ==> log[|log| - 2] in log;
  }

  lemma FirstAverageIsNotNegative(log: seq<Report>)
    requires IsLog(log) && WellTimed(log) && log != [] && GroupStart(log) == |log| - 1
    ensures 0 <= Fold(log).latestAverage
  {
    hide WellTimed, TruncDiv;
    LastIsTimed(log);
    LogPrefix(log);
    hide IsLog;
    var last := log[|log| - 1];
    if !last.opens {
      var was := log[|log| - 2];
      WeightedIsNotNegative(was.billed, last.time - last.tick, last.billed, last.End() - last.time, last.duration);
      assert log[..|log| - 1][|log| - 2] == was;
    }
  }

  lemma WellTimedPrefix(log: seq<Report>, n: nat)
    requires WellTimed(log) && n <= |log|
    ensures WellTimed(log[..n])
  {
    assert forall r :: r in log[..n] ==> r in log;
  }

  lemma RiseOrFall(x: int, d: int, rest: int, change: int)
    requires 0 < d && 0 <= rest && x == change * rest
    ensures 0 <= change ==> 0 <= TruncDiv(x, d) && x - d < TruncDiv(x, d) * d
    ensures change < 0 ==> x <= TruncDiv(x, d) * d
  {
    if 0 <= change {
      Scale(0, change, change, rest);
    } else {
      Scale(change, change, 0, rest);
    }
  }

  /** One more report of the epoch, where everything else is known. */
  lemma BelowStep(avg: int, area: int, d: int, n: int, x: int, change: int, rest: int)
    requires 0 < d && 0 <= rest && x == change * rest && area - d * n < d * avg
    ensures area + x - d * (n + if 0 <= change then 1 else 0) < d * (avg + TruncDiv(x, d))
    ensures 0 <= change && 0 <= avg ==> 0 <= avg + TruncDiv(x, d)
  {
    RiseOrFall(x, d, rest, change);
    var q := TruncDiv(x, d);
    hide TruncDiv;
    assert d * (avg + q) == d * avg + q * d;
    assert d * (n + 1) == d * n + d;
  }

  lemma LaterFromBelow(log: seq<Report>)
    requires IsLog(log) && WellTimed(log) && log != [] && GroupStart(log) < |log| - 1
    requires var init := log[..|log| - 1];
      && IsLog(init)
      && LastArea(init) - init[|init| - 1].duration * (1 + Rises(init)) < init[|init| - 1].duration * Fold(init).latestAverage
      && (Rises(init) == |init| - 1 - GroupStart(init) ==> 0 <= Fold(init).latestAverage)
    ensures var d := log[|log| - 1].duration; LastArea(log) - d * (1 + Rises(log)) < d * Fold(log).latestAverage
    ensures Rises(log) == |log| - 1 - GroupStart(log) ==> 0 <= Fold(log).latestAverage
  {
    hide LastArea, TruncDiv, IsLog, WellTimed, GroupStart, Rises, OneClock, Fold, Timed, Prior;
    GroupIsTimed(log);
    TimedIsOneClock(log[GroupStart(log)..]);
    LastIsTimed(log);
    SameGroup(log);
    LastAreaGrows(log);
    RisesStep(log);
    var init, last := log[..|log| - 1], log[|log| - 1];
    var was, rest := init[|init| - 1].billed, last.End() - last.time;
    BelowStep(Fold(init).latestAverage, LastArea(init), last.duration, 1 + Rises(init), (last.billed - was) * rest, last.billed - was, rest);
  }

  /** Only the first report and rises round down, and while sizes only rise the average stays above zero. */
  lemma {:induction false} AverageFromBelow(log: seq<Report>)
    requires IsLog(log) && WellTimed(log) && log != []
    ensures var d := log[|log| - 1].duration; LastArea(log) - d * (1 + Rises(log)) < d * Fold(log).latestAverage
    ensures Rises(log) == |log| - 1 - GroupStart(log) ==> 0 <= Fold(log).latestAverage
  {
    hide LastArea, IsLog, WellTimed, GroupStart, Rises, Fold;
    if GroupStart(log) == |log| - 1 {
      FirstFromBelow(log);
    } else {
      LogPrefix(log);
      WellTimedPrefix(log, |log| - 1);
      AverageFromBelow(log[..|log| - 1]);
      LaterFromBelow(log);
    }
  }

  lemma TimedIsOneClock(reports: seq<Report>)
    requires Timed(reports)
    ensures OneClock(reports)
  {
  }

  lemma FirstFromBelow(log: seq<Report>)
    requires IsLog(log) && WellTimed(log) && log != [] && GroupStart(log) == |log| - 1
    ensures LastArea(log) - log[|log| - 1].duration < log[|log| - 1].duration * Fold(log).latestAverage
    ensures 0 <= Fold(log).latestAverage && Rises(log) == 0
  {
    hide LastArea, Fold, TruncDiv, IsLog, WellTimed, GroupStart;
    FirstAverageIsNotNegative(log);
    LastIsTimed(log);
    AverageStarts(log);
  }

  lemma RisesStep(log: seq<Report>)
    requires IsLog(log) && log != [] && GroupStart(log) < |log| - 1 && IsLog(log[..|log| - 1])
    ensures var init, last := log[..|log| - 1], log[|log| - 1];
            Rises(log) == Rises(init) + if init[|init| - 1].billed <= last.billed then 1 else 0
  {
  }

  lemma AboveMinusTwo(avg: int, d: int, n: int)
    requires 0 < d && n <= 2 && -(d * n) < d * avg
    ensures -1 <= avg
  {
    assert avg <= -2 ==> d * avg <= d * -2 <= -(d * n);
  }

  /** With at most three reports an epoch, a stored average never falls below -1. */
  lemma AverageIsAtLeast(log: seq<Report>)
    requires IsLog(log) && WellTimed(log) && log != [] && |log| - GroupStart(log) <= 3
    ensures -1 <= Fold(log).latestAverage
  {
    hide LastArea, Fold, GroupStart, IsLog, WellTimed, Rises;
    AverageFromBelow(log);
    LastAreaIsNotNegative(log);
    LastIsTimed(log);
    if Rises(log) != |log| - 1 - GroupStart(log) {
      AboveMinusTwo(Fold(log).latestAverage, log[|log| - 1].duration, 1 + Rises(log));
    }
  }

  /** No epoch of the log has more than three reports since the record was opened. */
  ghost predicate Limited(log: seq<Report>) {
    forall n :: 0 < n <= |log| && IsLog(log[..n]) ==> n - GroupStart(log[..n]) <= 3
  }

  /** What settlement picks is never below -1. */
  lemma PickIsAtLeast(log: seq<Report>, current: int)
    requires IsLog(log) && WellTimed(log) && Limited(log) && log != []
    ensures -1 <= Pick(Fold(log), current)
  {
    hide Fold, GroupStart, Before, IsLog, WellTimed;
    SlotsMatchLog(log);
    assert log[..|log|] == log;
    LastIsTimed(log);
    AverageIsAtLeast(log);
    var b := Before(log);
    if 0 < b {
      WellTimedPrefix(log, b);
      LastIsTimed(log[..b]);
      AverageIsAtLeast(log[..b]);
    }
  }

  /** And -1 it may be: with nothing to begin with and an epoch of four seconds, reports of 1, 2 and 0 in
      its middle round to 0, 0 and -1. */
  lemma PickBelowZero()
    ensures var log := [QUIET, RISE, AGAIN, FALL]; IsLog(log) && WellTimed(log) && Pick(Fold(log), 6) == -1
  {
    RoundedAverage();
    RoundedTimes();
    hide IsLog, WellTimed, Fold;
  }

  const QUIET := Report(4, 3000, 1000, 4000, 0, true)
  const RISE := Report(5, 7000, 5000, 4000, 1, false)
  const AGAIN := Report(5, 7000, 5000, 4000, 2, false)
  const FALL := Report(5, 7000, 5000, 4000, 0, false)

  lemma FirstTwo()
    ensures IsLog([QUIET, RISE]) && Fold([QUIET, RISE]) == Stat(1, 5, 7000, 0, 0, 4, 0)
  {
    hide Fold, IsLog;
    FoldOne(QUIET);
    RiseUpdates();
    hide Updated;
    assert [] + [QUIET] == [QUIET] && [QUIET] + [RISE] == [QUIET, RISE];
    FoldStep([], QUIET, RISE);
  }

  lemma FirstThree()
    ensures IsLog([QUIET, RISE, AGAIN]) && Fold([QUIET, RISE, AGAIN]) == Stat(2, 5, 7000, 0, 0, 4, 0)
  {
    hide Fold, IsLog;
    FirstTwo();
    AgainUpdates();
    hide Updated;
    assert [QUIET] + [RISE] == [QUIET, RISE] && [QUIET, RISE] + [AGAIN] == [QUIET, RISE, AGAIN];
    FoldStep([QUIET], RISE, AGAIN);
  }

  lemma RoundedAverage()
    ensures var log := [QUIET, RISE, AGAIN, FALL]; IsLog(log) && Fold(log) == Stat(0, 5, 7000, -1, 0, 4, 0)
  {
    hide Fold, IsLog;
    FirstThree();
    FallUpdates();
    hide Updated;
    assert [QUIET, RISE] + [AGAIN] == [QUIET, RISE, AGAIN] && [QUIET, RISE, AGAIN] + [FALL] == [QUIET, RISE, AGAIN, FALL];
    FoldStep([QUIET, RISE], AGAIN, FALL);
  }

  lemma RiseUpdates()
    ensures Updated(Opened(QUIET), 0, false, RISE) == Stat(1, 5, 7000, 0, 0, 4, 0)
  {
    hide TruncDiv;
    Rounding();
    assert RISE.End() - RISE.time == 2000 && RISE.time - RISE.tick == 2000;
  }

  lemma AgainUpdates()
    ensures Updated(Stat(1, 5, 7000, 0, 0, 4, 0), 1, true, AGAIN) == Stat(2, 5, 7000, 0, 0, 4, 0)
  {
    hide TruncDiv;
    Rounding();
    assert AGAIN.End() - AGAIN.time == 2000;
  }

  lemma FallUpdates()
    ensures Updated(Stat(2, 5, 7000, 0, 0, 4, 0), 2, true, FALL) == Stat(0, 5, 7000, -1, 0, 4, 0)
  {
    hide TruncDiv;
    Rounding();
    assert FALL.End() - FALL.time == 2000;
    assert (0 - 2) * 2000 == -4000;
  }

  lemma FoldStep(log: seq<Report>, last: Report, r: Report)
    requires IsLog(log + [last]) && !r.opens && r.duration != 0 && last.epoch <= r.epoch
    ensures IsLog(log + [last] + [r])
    ensures Fold(log + [last] + [r]) == Updated(Fold(log + [last]), last.billed, last.epoch == r.epoch, r)
  {
    FoldMore(log + [last], r);
  }

  lemma QuietTimes()
    ensures WellTimed([QUIET, RISE])
  {
    NoTimes();
    hide WellTimed;
    TimedMore([], QUIET);
    assert [] + [QUIET] == [QUIET];
    TimedMore([QUIET], RISE);
    assert [QUIET] + [RISE] == [QUIET, RISE];
  }

  lemma RoundedTimes()
    ensures WellTimed([QUIET, RISE, AGAIN, FALL])
  {
    QuietTimes();
    hide WellTimed;
    TimedMore([QUIET, RISE], AGAIN);
    assert [QUIET, RISE] + [AGAIN] == [QUIET, RISE, AGAIN];
    TimedMore([QUIET, RISE, AGAIN], FALL);
    assert [QUIET, RISE, AGAIN] + [FALL] == [QUIET, RISE, AGAIN, FALL];
  }

  lemma NoTimes()
    ensures WellTimed([])
  {
  }

  lemma Rounding()
    ensures TruncDiv(0 * 2000 + 1 * 2000, 4000) == 0
    ensures TruncDiv(2000, 4000) == 0 && TruncDiv(-4000, 4000) == -1
  {
  }

  lemma TimedMore(log: seq<Report>, r: Report)
    requires WellTimed(log) && 0 <= r.billed && 0 < r.duration && r.tick <= r.time <= r.End()
    requires forall x :: x in log ==> x.time <= r.time && (x.epoch == r.epoch ==> x.tick == r.tick && x.duration == r.duration)
    ensures WellTimed(log + [r])
  {
  }

  lemma FoldOne(r: Report)
    requires r.opens
    ensures IsLog([r]) && Fold([r]) == Opened(r)
  {
  }

  lemma FoldMore(log: seq<Report>, r: Report)
    requires log != [] && IsLog(log) && !r.opens && r.duration != 0 && log[|log| - 1].epoch <= r.epoch
    ensures IsLog(log + [r])
    ensures Fold(log + [r]) == Updated(Fold(log), log[|log| - 1].billed, log[|log| - 1].epoch == r.epoch, r)
  {
    hide Updated;
    var more := log + [r];
    assert more[..|more| - 1] == log;
    forall i, j | 0 <= i < j < |more|
      ensures more[i].epoch <= more[j].epoch
    {
      assert log[i].epoch <= log[|log| - 1].epoch;
    }
  }
}
