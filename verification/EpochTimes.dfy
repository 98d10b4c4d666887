/** Finding the epoch of a point in time (GetEpochBlockByTime in contracts/netmap/contract.go): a binary
    search over the recorded epochs, against a scan over all of them. */
module EpochTimes {
  import opened Storage
  import opened Netmap
  import NetmapRuns

  type Ticks = map<nat, Tick>

  function EpochTime(ticks: Ticks, e: nat): int {
    if e in ticks then ticks[e].time else 0
  }

  function EpochBlock(ticks: Ticks, e: nat): int {
    if e in ticks then ticks[e].height else 0
  }

  /** Block of the largest epoch up to e that is recorded with a time not after ts, else 0. */
  function Scan(ticks: Ticks, ts: int, e: nat): int {
    if e in ticks && ticks[e].time <= ts then ticks[e].height
    else if e == 0 then 0
    else Scan(ticks, ts, e - 1)
  }

  /** What the search makes of the range [lo, hi], with the best block so far. */
  function Search(ticks: Ticks, ts: int, lo: nat, hi: int, best: int): int
    decreases hi - lo
  {
    if hi < lo then best else
      var mid := (lo + hi) / 2;
      var t := EpochTime(ticks, mid);
      if t == 0 then Search(ticks, ts, mid + 1, hi, best)
      else if ts < t then Search(ticks, ts, lo, mid - 1, best)
      else Search(ticks, ts, mid + 1, hi, EpochBlock(ticks, mid))
  }

  method GetEpochBlockByTime(epoch: nat, ticks: Ticks, ts: int) returns (res: int)
    ensures res == Search(ticks, ts, 0, epoch, 0)
  {
    res := 0;
    var lo: nat, hi: int := 0, epoch;
    while lo <= hi
      invariant Search(ticks, ts, 0, epoch, 0) == Search(ticks, ts, lo, hi, res)
      decreases hi - lo
    {
      var mid := (lo + hi) / 2;
      var t := EpochTime(ticks, mid);
      if t == 0 {
        lo := mid + 1;
        continue;
      }
      if t > ts {
        hi := mid - 1;
        continue;
      }
      res := EpochBlock(ticks, mid);
      lo := mid + 1;
    }
  }

  /** Recorded epochs have positive times, which do not decrease. */
  ghost predicate Ordered(ticks: Ticks, epoch: nat) {
    && (forall e :: e in ticks ==> e <= epoch && 0 < ticks[e].time)
    && (forall e, f :: e in ticks && f in ticks && e <= f ==> ticks[e].time <= ticks[f].time)
  }

  /** Recorded without gaps from the first epoch on. */
  ghost predicate Contiguous(ticks: Ticks, first: nat, epoch: nat) {
    Ordered(ticks, epoch) && forall e :: e in ticks <==> first <= e <= epoch
  }

  /** Wherever halving the range meets an epoch that is not recorded, nothing to its left is. */
  ghost predicate Navigable(ticks: Ticks, lo: nat, hi: int)
    decreases hi - lo
  {
    hi < lo ||
      var mid := (lo + hi) / 2;
      && Navigable(ticks, mid + 1, hi)
      && if mid in ticks then Navigable(ticks, lo, mid - 1) else forall e :: lo <= e < mid ==> e !in ticks
  }

  /** No epoch in (a, b] counts, so scanning from b is scanning from a. */
  lemma {:induction false} ScanSkips(ticks: Ticks, ts: int, a: nat, b: nat)
    requires a <= b && forall e :: a < e <= b ==> !(e in ticks && ticks[e].time <= ts)
    ensures Scan(ticks, ts, b) == Scan(ticks, ts, a)
    decreases b
  {
    if a < b {
      ScanSkips(ticks, ts, a, b - 1);
    }
  }

  /** Scan from just below lo: nothing if there is nothing below. */
  function ScanBelow(ticks: Ticks, ts: int, lo: nat): int {
    if lo == 0 then 0 else Scan(ticks, ts, lo - 1)
  }

  /** No epoch after hi counts. */
  ghost predicate NoneAfter(ticks: Ticks, ts: int, hi: int) {
    forall e: nat :: hi < e && e in ticks ==> ts < ticks[e].time
  }

  lemma Passes(ticks: Ticks, ts: int, lo: nat, mid: nat)
    requires lo <= mid && forall e :: lo <= e <= mid ==> e !in ticks
    ensures ScanBelow(ticks, ts, mid + 1) == ScanBelow(ticks, ts, lo)
  {
    ScanSkips(ticks, ts, if lo == 0 then 0 else lo - 1, mid);
  }

  lemma Exhausted(ticks: Ticks, ts: int, lo: nat, epoch: nat)
    requires lo <= epoch + 1 && NoneAfter(ticks, ts, lo - 1)
    ensures Scan(ticks, ts, epoch) == ScanBelow(ticks, ts, lo)
  {
    ScanSkips(ticks, ts, if lo == 0 then 0 else lo - 1, epoch);
  }

  lemma {:induction false} SearchScans(ticks: Ticks, ts: int, lo: nat, hi: int, best: int, epoch: nat)
    requires Ordered(ticks, epoch) && Navigable(ticks, lo, hi) && lo <= hi + 1 && hi <= epoch
    requires best == ScanBelow(ticks, ts, lo) && NoneAfter(ticks, ts, hi)
    ensures Search(ticks, ts, lo, hi, best) == Scan(ticks, ts, epoch)
    decreases hi - lo
  {
    if hi < lo {
      Exhausted(ticks, ts, lo, epoch);
    } else {
      var mid := (lo + hi) / 2;
      if mid !in ticks {
        Passes(ticks, ts, lo, mid);
        SearchScans(ticks, ts, mid + 1, hi, best, epoch);
      } else if ts < ticks[mid].time {
        SearchScans(ticks, ts, lo, mid - 1, best, epoch);
      } else {
        SearchScans(ticks, ts, mid + 1, hi, ticks[mid].height, epoch);
      }
    }
  }

  lemma {:induction false} ContiguousIsNavigable(ticks: Ticks, first: nat, epoch: nat, lo: nat, hi: int)
    requires Contiguous(ticks, first, epoch) && hi <= epoch
    ensures Navigable(ticks, lo, hi)
    decreases hi - lo
  {
    if lo <= hi {
      var mid := (lo + hi) / 2;
      ContiguousIsNavigable(ticks, first, epoch, mid + 1, hi);
      ContiguousIsNavigable(ticks, first, epoch, lo, mid - 1);
    }
  }

  /** With epochs recorded without gaps the search finds the block of the latest epoch that began not
      after the given time. */
  lemma SearchIsScan(ticks: Ticks, ts: int, first: nat, epoch: nat)
    requires Contiguous(ticks, first, epoch)
    ensures Search(ticks, ts, 0, epoch, 0) == Scan(ticks, ts, epoch)
  {
    ContiguousIsNavigable(ticks, first, epoch, 0, epoch);
    SearchScans(ticks, ts, 0, epoch, 0, epoch);
  }

  /** Every recorded epoch began in a later block than the one before. */
  ghost predicate InLaterBlocks(ticks: Ticks) {
    && (forall e :: e in ticks ==> 0 < ticks[e].height)
    && (forall e, f :: e in ticks && f in ticks && e < f ==> ticks[e].time < ticks[f].time && ticks[e].height < ticks[f].height)
  }

  lemma {:induction false} SearchStaysInRange(ticks: Ticks, ts: int, lo: nat, hi: int, best: int)
    ensures var r := Search(ticks, ts, lo, hi, best);
            r == best || exists e :: lo <= e <= hi && e in ticks && r == ticks[e].height
    decreases hi - lo
  {
    if lo <= hi {
      var mid := (lo + hi) / 2;
      var t := EpochTime(ticks, mid);
      if t == 0 {
        SearchStaysInRange(ticks, ts, mid + 1, hi, best);
      } else if ts < t {
        SearchStaysInRange(ticks, ts, lo, mid - 1, best);
      } else {
        SearchStaysInRange(ticks, ts, mid + 1, hi, EpochBlock(ticks, mid));
      }
    }
  }

  /** Where the range is not navigable, the search misses the block of some epoch at its own time. */
  lemma {:induction false} MissesSome(ticks: Ticks, lo: nat, hi: int, best: int, epoch: nat) returns (f: nat)
    requires Ordered(ticks, epoch) && InLaterBlocks(ticks) && !Navigable(ticks, lo, hi)
    requires forall e :: e in ticks && lo <= e ==> best < ticks[e].height
    ensures f in ticks && lo <= f <= hi
    ensures Search(ticks, ticks[f].time, lo, hi, best) != ticks[f].height
    decreases hi - lo
  {
    hide Search, Scan;
    var mid := (lo + hi) / 2;
    if mid in ticks {
      if Navigable(ticks, lo, mid - 1) {
        f := MissesSome(ticks, mid + 1, hi, ticks[mid].height, epoch);
      } else {
        f := MissesSome(ticks, lo, mid - 1, best, epoch);
      }
      Halves(ticks, ticks[f].time, lo, hi, best);
    } else if exists e :: lo <= e < mid && e in ticks {
      f :| lo <= f < mid && f in ticks;
      RightOfGap(ticks, lo, hi, best, f);
    } else {
      f := MissesSome(ticks, mid + 1, hi, best, epoch);
      Halves(ticks, ticks[f].time, lo, hi, best);
    }
  }

  lemma Halves(ticks: Ticks, ts: int, lo: nat, hi: int, best: int)
    requires lo <= hi && ((lo + hi) / 2 in ticks ==> 0 < ticks[(lo + hi) / 2].time)
    ensures var mid := (lo + hi) / 2;
      Search(ticks, ts, lo, hi, best)
      == if mid !in ticks then Search(ticks, ts, mid + 1, hi, best)
         else if ts < ticks[mid].time then Search(ticks, ts, lo, mid - 1, best)
         else Search(ticks, ts, mid + 1, hi, ticks[mid].height)
  {
  }

  lemma RightOfGap(ticks: Ticks, lo: nat, hi: int, best: int, f: nat)
    requires InLaterBlocks(ticks) && lo <= hi && (lo + hi) / 2 !in ticks
    requires lo <= f < (lo + hi) / 2 && f in ticks && best < ticks[f].height
    ensures Search(ticks, ticks[f].time, lo, hi, best) != ticks[f].height
  {
    var mid := (lo + hi) / 2;
    SearchStaysInRange(ticks, ticks[f].time, mid + 1, hi, best);
    assert Search(ticks, ticks[f].time, lo, hi, best) == Search(ticks, ticks[f].time, mid + 1, hi, best);
  }

  /** The search is right at all times exactly when the record is navigable. */
  lemma SearchIsScanIff(ticks: Ticks, epoch: nat)
    requires Ordered(ticks, epoch) && InLaterBlocks(ticks)
    ensures (forall ts :: Search(ticks, ts, 0, epoch, 0) == Scan(ticks, ts, epoch)) <==> Navigable(ticks, 0, epoch)
  {
    if Navigable(ticks, 0, epoch) {
      forall ts
        ensures Search(ticks, ts, 0, epoch, 0) == Scan(ticks, ts, epoch)
      {
        SearchScans(ticks, ts, 0, epoch, 0, epoch);
      }
    } else {
      var f := MissesSome(ticks, 0, epoch, 0, epoch);
      ScanSkips(ticks, ticks[f].time, f, epoch);
      assert Search(ticks, ticks[f].time, 0, epoch, 0) != Scan(ticks, ticks[f].time, epoch);
    }
  }

  /** A skipped epoch number sends the search past the answer: epochs 1 and 5 recorded at times 100 and
      500, time 200 belongs to epoch 1, and nothing is found. */
  lemma GapMisleads()
    ensures var ticks := map[1 := Tick(10, 100), 5 := Tick(50, 500)];
            Search(ticks, 200, 0, 5, 0) == 0 && Scan(ticks, 200, 5) == 10
  {
    var ticks := map[1 := Tick(10, 100), 5 := Tick(50, 500)];
    assert Scan(ticks, 200, 2) == 10;
    assert Search(ticks, 200, 3, 5, 0) == Search(ticks, 200, 5, 5, 0);
    assert Search(ticks, 200, 5, 5, 0) == Search(ticks, 200, 5, 4, 0) == 0;
  }

  // ---- over whole runs ----

  /** What a call does to the record: nothing, or one more entry for a later epoch, which becomes the
      current one. */
  lemma TicksGrow(s: State, e: Env, op: Operation)
    requires Apply(s, e, op).Ok?
    ensures var t := Apply(s, e, op).value;
      || (t.epoch == s.epoch && t.ticks == s.ticks)
      || (s.epoch < t.epoch && t.ticks == s.ticks[t.epoch := Tick(e.height, e.time)]
          && t.epoch == if op.NewEpoch? then op.epoch else s.epoch + 1)
  {
    hide Refresh, Outdated, Stale;
    RefreshSparesTicks();
  }

  lemma RefreshSparesTicks()
    ensures forall t, epoch :: Refresh(t, epoch).epoch == t.epoch && Refresh(t, epoch).ticks == t.ticks
  {
  }

  /** New epochs bear the next number, and block times are positive and do not decrease. */
  ghost predicate OneByOne(calls: seq<NetmapRuns.Call>) {
    && (forall i :: 0 <= i < |calls| ==> 0 < calls[i].env.time)
    && (forall i, j :: 0 <= i < j < |calls| ==> calls[i].env.time <= calls[j].env.time)
    && (forall i :: 0 <= i < |calls| && calls[i].op.NewEpoch? ==>
          calls[i].op.epoch <= NetmapRuns.Run(calls[..i]).state.epoch + 1)
  }

  lemma OneByOnePrefix(calls: seq<NetmapRuns.Call>)
    requires OneByOne(calls) && calls != []
    ensures OneByOne(calls[..|calls| - 1])
  {
    var init := calls[..|calls| - 1];
    forall i | 0 <= i < |init| && init[i].op.NewEpoch?
      ensures init[i].op.epoch <= NetmapRuns.Run(init[..i]).state.epoch + 1
    {
      assert init[..i] == calls[..i] && calls[i] == init[i];
    }
  }

  lemma LastInTime(calls: seq<NetmapRuns.Call>)
    requires OneByOne(calls) && calls != []
    ensures var init, c := calls[..|calls| - 1], calls[|calls| - 1];
      && 0 < c.env.time && (init != [] ==> init[|init| - 1].env.time <= c.env.time)
      && (c.op.NewEpoch? ==> c.op.epoch <= NetmapRuns.Run(init).state.epoch + 1)
  {
  }

  lemma NothingRecorded()
    ensures Contiguous(map[], 1, 0)
  {
  }

  lemma TickKeepsContiguous(ticks: Ticks, epoch: nat, tick: Tick)
    requires Contiguous(ticks, 1, epoch) && 0 < tick.time && forall f :: f in ticks ==> ticks[f].time <= tick.time
    ensures Contiguous(ticks[epoch + 1 := tick], 1, epoch + 1)
  {
  }

  lemma {:induction false} RecordIsContiguous(calls: seq<NetmapRuns.Call>)
    requires OneByOne(calls)
    ensures var s := NetmapRuns.Run(calls).state;
      && Contiguous(s.ticks, 1, s.epoch)
      && (forall f :: f in s.ticks ==> calls != [] && s.ticks[f].time <= calls[|calls| - 1].env.time)
  {
    NothingRecorded();
    if calls != [] {
      hide Apply, Contiguous, OneByOne;
      var init, c := calls[..|calls| - 1], calls[|calls| - 1];
      OneByOnePrefix(calls);
      LastInTime(calls);
      RecordIsContiguous(init);
      var s := NetmapRuns.Run(init).state;
      if Apply(s, c.env, c.op).Ok? {
        TicksGrow(s, c.env, c.op);
        TickKeepsContiguous(s.ticks, s.epoch, Tick(c.env.height, c.env.time));
      }
    }
  }

  /** In every run that starts the epochs one by one, the search finds the block of the latest epoch that
      began not after the given time, whatever the time. */
  lemma EverySearchIsScan(calls: seq<NetmapRuns.Call>, ts: int)
    requires OneByOne(calls)
    ensures var s := NetmapRuns.Run(calls).state;
            Search(s.ticks, ts, 0, s.epoch, 0) == Scan(s.ticks, ts, s.epoch)
  {
    RecordIsContiguous(calls);
    SearchIsScan(NetmapRuns.Run(calls).state.ticks, ts, 1, NetmapRuns.Run(calls).state.epoch);
  }
}
