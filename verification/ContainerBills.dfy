/** What a node is billed for (contracts/container/contract.go): the bytes it reported and 16 KiB for each
    object, told by the calls made to the container contract. */
module ContainerBills {
  import opened Storage
  import opened Containers
  import opened ContainerRuns
  import Billing

  /** One accepted report: when and in which epoch it came, when that epoch began and how many seconds it
      lasts, what was reported, and whether the node had no report on record. */
  datatype Usage = Usage(epoch: int, time: int, tick: int, seconds: int, bytes: int, objects: int, first: bool)

  /** The reports made by a node for a container since the container is there, told by the calls. */
  ghost function UsageOf(calls: seq<Call>, cid: Cid, key: Bytes): seq<Usage> {
    if calls == [] then [] else
      var init, c := calls[..|calls| - 1], calls[|calls| - 1];
      var s, before := Exec(DEPLOYED, init), UsageOf(init, cid, key);
      if Apply(s, c.env, c.op).Fault? then before
      else match c.op
        case PutReport(id, size, objects, k, _) =>
          if id == cid && k == key then
            before + [Usage(c.env.epoch, c.env.now, c.env.tick, c.env.duration, size, objects, (cid, StandardAccount(key)) !in s.reports)]
          else before
        case Remove(id) => if id == cid && id in s.containers then [] else before
        case _ => before
  }

  /** The billing log of the reports. */
  function Worth(us: seq<Usage>): seq<Billing.Report> {
    if us == [] then [] else
      var u := us[|us| - 1];
      Worth(us[..|us| - 1])
      + [Billing.Report(u.epoch, u.time, u.tick, u.seconds * 1000, u.bytes + 16384 * u.objects, u.first)]
  }

  lemma WorthMore(us: seq<Usage>, u: Usage)
    ensures Worth(us + [u])
         == Worth(us) + [Billing.Report(u.epoch, u.time, u.tick, u.seconds * 1000, u.bytes + 16384 * u.objects, u.first)]
  {
    assert (us + [u])[..|us|] == us;
  }

  lemma LogStep(w: World, c: Call, cid: Cid, key: Bytes)
    ensures var k := (cid, StandardAccount(key)); var log, now := LogOf(w, k), LogOf(Observe(w, c), k);
      if Apply(w.state, c.env, c.op).Fault? then now == log
      else match c.op
        case PutReport(id, size, objects, who, _) =>
          now == if id == cid && who == key then
                   log + [Billing.Report(c.env.epoch, c.env.now, c.env.tick, c.env.duration * 1000, size + 16384 * objects,
                                         (cid, StandardAccount(key)) !in w.state.reports)]
                 else log
        case Remove(id) => now == if id == cid && id in w.state.containers then [] else log
        case _ => now == log
  {
    hide Apply;
  }

  /** The log that the billing laws are about is that of the bytes and objects reported. */
  lemma {:induction false} LogTellsCalls(calls: seq<Call>, cid: Cid, key: Bytes)
    requires Epochal(calls)
    ensures LogOf(Watch(calls), (cid, StandardAccount(key))) == Worth(UsageOf(calls, cid, key))
  {
    hide Apply, Observe;
    if calls != [] {
      var init, c := calls[..|calls| - 1], calls[|calls| - 1];
      LogTellsCalls(init, cid, key);
      EveryRunIsLogged(init);
      LogStep(Watch(init), c, cid, key);
      if c.op.PutReport? {
        WorthMore(UsageOf(init, cid, key),
                  Usage(c.env.epoch, c.env.now, c.env.tick, c.env.duration, c.op.size, c.op.objects,
                        (cid, StandardAccount(key)) !in Watch(init).state.reports));
      }
    }
  }

  /** After a first report a node is charged for its bytes and 16 KiB for each of its objects, in every later
      epoch. */
  lemma FirstReportCharges(s: State, e: Env, cid: Cid, size: int, objects: int, key: Bytes, current: int)
    requires SaveReport(s, e, cid, size, objects, key, true).Ok? && (cid, StandardAccount(key)) !in s.reports
    requires e.epoch < current
    ensures Billing.Pick(StatOf(SaveReport(s, e, cid, size, objects, key, true).value, (cid, StandardAccount(key))), current)
         == size + 16384 * objects
  {
    SavedBilling(s, e, cid, size, objects, key);
    hide SaveReport;
  }

  /** In every reachable state, what settlement picks for a node is what the bytes and objects it reported say:
      the average stored in the epoch before if it reported then, else what it reported last before that,
      exactly unless its record was opened anew in the current epoch while there was something to charge. */
  lemma ChargeTellsCalls(calls: seq<Call>, cid: Cid, key: Bytes, current: int)
    requires Epochal(calls) && Watch(calls).epoch <= current
    requires (cid, StandardAccount(key)) in Watch(calls).state.billing
    ensures var log, picked := Worth(UsageOf(calls, cid, key)), Billing.Pick(Watch(calls).state.billing[(cid, StandardAccount(key))], current);
      && Billing.IsLog(log)
      && (picked == Billing.Answer(log, current) <==> !Billing.OpenedSince(log, current) || Billing.Answer(log, current) == 0)
      && (Billing.OpenedSince(log, current) ==> picked == 0)
  {
    LogTellsCalls(calls, cid, key);
    hide *;
    SlotsAnswerLogIff(calls, (cid, StandardAccount(key)), current);
  }

  /** The average stored for a node on record is within its number of reports of the mean of what it had stored
      in the epoch, bytes and objects, plus what opening the record anew adds. */
  lemma AverageTellsCalls(calls: seq<Call>, cid: Cid, key: Bytes)
    requires Epochal(calls) && (cid, StandardAccount(key)) in Watch(calls).state.reports
    ensures var log, k := Worth(UsageOf(calls, cid, key)), (cid, StandardAccount(key));
      && log != [] && Billing.IsLog(log) && k in Watch(calls).state.billing
      && (Billing.OneClock(log[Billing.EpochStart(log)..]) ==>
            var d, avg := log[|log| - 1].duration, Watch(calls).state.billing[k].latestAverage;
            -(3 * d) < d * avg - Billing.EpochArea(log) - Billing.Gap(log) < 3 * d)
  {
    LogTellsCalls(calls, cid, key);
    StoredAverageIsClose(calls, (cid, StandardAccount(key)));
    hide Watch, UsageOf, Worth, Billing.IsLog, Billing.EpochArea, Billing.Gap, Billing.EpochStart, Billing.OneClock;
  }

  /** A node that reported nothing before an epoch is charged nothing in it. */
  lemma NothingIsCharged(calls: seq<Call>, cid: Cid, key: Bytes, current: int)
    requires Epochal(calls) && Watch(calls).epoch <= current
    requires (cid, StandardAccount(key)) in Watch(calls).state.billing
    requires forall u :: u in UsageOf(calls, cid, key) ==> current <= u.epoch
    ensures Billing.IsLog(Worth(UsageOf(calls, cid, key)))
    ensures Billing.Answer(Worth(UsageOf(calls, cid, key)), current) == 0
    ensures Billing.Pick(Watch(calls).state.billing[(cid, StandardAccount(key))], current) == 0
  {
    hide Watch, UsageOf, Epochal, Billing.Fold, Billing.OpenedSince;
    ChargeTellsCalls(calls, cid, key, current);
    var log := Worth(UsageOf(calls, cid, key));
    WorthEpochs(UsageOf(calls, cid, key), current);
    NoneEarlier(log, current);
  }

  lemma {:induction false} WorthEpochs(us: seq<Usage>, current: int)
    requires forall u :: u in us ==> current <= u.epoch
    ensures forall r :: r in Worth(us) ==> current <= r.epoch
  {
    if us != [] {
      WorthEpochs(us[..|us| - 1], current);
    }
  }

  lemma {:induction false} NoneEarlier(log: seq<Billing.Report>, current: int)
    requires forall r :: r in log ==> current <= r.epoch
    ensures Billing.Earlier(log, current) == 0
  {
    if log != [] {
      assert log[|log| - 1] in log;
      NoneEarlier(log[..|log| - 1], current);
    }
  }
}
