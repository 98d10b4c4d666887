/** The three contracts behind a settlement: the balance contract pays for what the container contract has on
    record to whom the netmap contract reports online (contracts/balance/contract.go). Whoever is paid is a
    current reporter that was online in the epoch paid for, and is paid for what its reports say. */
module Payday {
  import opened Storage
  import opened Accounts
  import opened Settlement
  import Billing
  import Containers
  import ContainerRuns
  import Netmap
  import NetmapRuns

  type Cid = Containers.Cid
  type Hash = Containers.Account -> Address

  /** What a settlement is told comes from the state of the container contract and that of the netmap
      contract: the owner, the billing entries of the container, the keys behind live reports, and the
      nodes online in the epoch before. `hash` yields script hashes; they do not collide. */
  ghost predicate Answers(e: Env, s: Containers.State, n: Netmap.State, cid: Cid, hash: Hash)
    requires 0 < e.epoch
  {
    && e.owner == (if cid in s.containers then Some(s.containers[cid].owner) else None)
    && (forall b :: b in e.stats ==> exists a :: IsEntry(s, cid, hash, b, a))
    && (forall a :: ReporterKey(e, hash(a)) == if (cid, a) in s.reports then s.reports[(cid, a)].key else [])
    && (forall key :: key in e.online <==> Netmap.HasStatus(n, key, e.epoch - 1, Netmap.ONLINE))
  }

  ghost predicate IsEntry(s: Containers.State, cid: Cid, hash: Hash, b: Billed, a: Containers.Account) {
    b.account == hash(a) && (cid, a) in s.billing && b.stat == s.billing[(cid, a)]
  }

  /** The node of account a has a report on record and was online in the epoch before. */
  ghost predicate Served(s: Containers.State, n: Netmap.State, cid: Cid, a: Containers.Account, epoch: int)
    requires 0 < epoch
  {
    && (cid, a) in s.reports
    && |s.reports[(cid, a)].key| == 33
    && Netmap.HasStatus(n, s.reports[(cid, a)].key, epoch - 1, Netmap.ONLINE)
  }

  /** An entry is paid exactly if its node has a report on record, was online in the epoch before, has
      something to be charged for according to the log of all its reports, and did not have its record
      opened anew since. It is then paid for what the log says. */
  lemma PayableIff(calls: seq<ContainerRuns.Call>, n: Netmap.State, e: Env, cid: Cid, hash: Hash, b: Billed, a: Containers.Account)
    requires ContainerRuns.Epochal(calls) && 0 < e.epoch && ContainerRuns.Watch(calls).epoch <= e.epoch
    requires Answers(e, ContainerRuns.Watch(calls).state, n, cid, hash)
    requires IsEntry(ContainerRuns.Watch(calls).state, cid, hash, b, a)
    ensures var w := ContainerRuns.Watch(calls);
            var log := ContainerRuns.LogOf(w, (cid, a));
      && Billing.IsLog(log)
      && (Payable(e, b) <==> (Served(w.state, n, cid, a, e.epoch)
                              && Billing.Answer(log, e.epoch) != 0 && !Billing.OpenedSince(log, e.epoch)))
      && (Payable(e, b) ==> Size(e, b) == Billing.Answer(log, e.epoch))
  {
    ContainerRuns.SlotsAnswerLogIff(calls, (cid, a), e.epoch);
    hide ContainerRuns.Watch, Billing.IsLog, Billing.Answer, Billing.OpenedSince, Billing.Pick, Netmap.HasStatus;
    assert ReporterKey(e, hash(a)) == ReporterKey(e, b.account);
  }

  /** Who is paid: a node whose own key is on a current report, that was online among the candidates as they
      were in the epoch paid for, and the amount is the price of what the log of its reports says. */
  ghost predicate IsEarned(p: Payment, e: Env, w: ContainerRuns.World, n: NetmapRuns.World, cid: Cid, hash: Hash, a: Containers.Account)
    requires 0 < e.epoch
  {
    var k := (cid, a);
    && p.account == hash(a) && k in w.state.reports
    && Containers.StandardAccount(w.state.reports[k].key) == a
    && e.epoch - 1 < |n.inForce| && n.inForce[e.epoch - 1] < |n.past|
    && NetmapRuns.StatusIn(n.past[n.inForce[e.epoch - 1]], w.state.reports[k].key, Netmap.ONLINE)
    && Billing.IsLog(ContainerRuns.LogOf(w, k))
    && p.size == Billing.Answer(ContainerRuns.LogOf(w, k), e.epoch) && p.size != 0
    && p.amount == Price(e.rate, p.size)
  }

  lemma OnlineWas(ncalls: seq<NetmapRuns.Call>, key: Netmap.Key, epoch: nat)
    requires Netmap.HasStatus(NetmapRuns.Run(ncalls).state, key, epoch, Netmap.ONLINE)
    ensures var n := NetmapRuns.Run(ncalls);
      && epoch < |n.inForce| && n.inForce[epoch] < |n.past|
      && NetmapRuns.StatusIn(n.past[n.inForce[epoch]], key, Netmap.ONLINE)
  {
    NetmapRuns.EveryRunIsHistoric(ncalls);
    NetmapRuns.StatusIsFaithful(NetmapRuns.Run(ncalls), key, epoch, Netmap.ONLINE);
    hide NetmapRuns.Run;
  }

  /** Over any runs of the container and the netmap contract, every payment of a settlement is earned. */
  lemma PaymentsAreEarned(calls: seq<ContainerRuns.Call>, ncalls: seq<NetmapRuns.Call>, e: Env, cid: Cid, hash: Hash, p: Payment)
    requires ContainerRuns.Epochal(calls) && 0 < e.epoch && ContainerRuns.Watch(calls).epoch <= e.epoch
    requires Answers(e, ContainerRuns.Watch(calls).state, NetmapRuns.Run(ncalls).state, cid, hash)
    requires p in Dues(e, e.stats)
    ensures exists a :: IsEarned(p, e, ContainerRuns.Watch(calls), NetmapRuns.Run(ncalls), cid, hash, a)
  {
    hide ContainerRuns.Watch, ContainerRuns.Epochal, NetmapRuns.Run, Payable, Due, IsEarned, Netmap.HasStatus, Dues;
    DuesArePayable(e, e.stats);
    var b :| b in e.stats && Payable(e, b) && p == Due(e, b);
    var a :| IsEntry(ContainerRuns.Watch(calls).state, cid, hash, b, a);
    EntryIsEarned(calls, ncalls, e, cid, hash, b, a);
  }

  lemma EntryIsEarned(calls: seq<ContainerRuns.Call>, ncalls: seq<NetmapRuns.Call>, e: Env, cid: Cid, hash: Hash,
                      b: Billed, a: Containers.Account)
    requires ContainerRuns.Epochal(calls) && 0 < e.epoch && ContainerRuns.Watch(calls).epoch <= e.epoch
    requires Answers(e, ContainerRuns.Watch(calls).state, NetmapRuns.Run(ncalls).state, cid, hash)
    requires Payable(e, b) && IsEntry(ContainerRuns.Watch(calls).state, cid, hash, b, a)
    ensures IsEarned(Due(e, b), e, ContainerRuns.Watch(calls), NetmapRuns.Run(ncalls), cid, hash, a)
  {
    hide ContainerRuns.Watch, ContainerRuns.Epochal, ContainerRuns.Logged, ContainerRuns.Exec, NetmapRuns.Run, Answers,
      Billing.IsLog, Billing.Answer, Billing.OpenedSince, Billing.Pick, Price, Netmap.HasStatus;
    var w := ContainerRuns.Watch(calls);
    PayableIff(calls, NetmapRuns.Run(ncalls).state, e, cid, hash, b, a);
    ContainerRuns.EveryRunIsLogged(calls);
    ContainerRuns.EveryReportHasOwnKey(calls);
    OnlineWas(ncalls, w.state.reports[(cid, a)].key, e.epoch - 1);
  }

  /** Where reports come inside their epochs and sizes are sizes, a settlement at a rate from 0 to below
      2^30 never panics. */
  lemma SettlementRuns(calls: seq<ContainerRuns.Call>, n: Netmap.State, e: Env, cid: Cid, hash: Hash, m: Ledger, owner: Address)
    requires ContainerRuns.Epochal(calls) && ContainerRuns.Clocked(calls) && ContainerRuns.SizesProper(calls)
    requires 0 < e.epoch && 0 <= e.rate < GIGABYTE && Real(owner) && forall a :: Real(hash(a))
    requires Answers(e, ContainerRuns.Watch(calls).state, n, cid, hash)
    ensures Pay(m, owner, e, e.stats).Ok?
  {
    hide ContainerRuns.Watch, ContainerRuns.Clocked, ContainerRuns.Epochal, Billing.Pick, Pay;
    forall b | b in e.stats
      ensures -1 <= Size(e, b) && Real(b.account)
    {
      var a :| IsEntry(ContainerRuns.Watch(calls).state, cid, hash, b, a);
      ContainerRuns.PickedSizeIsAtLeast(calls, (cid, a), e.epoch);
    }
    PayRuns(m, owner, e, e.stats);
  }

  // ---- everyone is paid once, and what is owed ----

  /** The billing entries of the container, each once. */
  ghost predicate ListsEach(e: Env, s: Containers.State, cid: Cid, hash: Hash) {
    && (forall a :: (cid, a) in s.billing ==> exists b :: b in e.stats && IsEntry(s, cid, hash, b, a))
    && (forall i, j :: 0 <= i < j < |e.stats| ==> e.stats[i].account != e.stats[j].account)
  }

  ghost predicate IsHash(hash: Hash) {
    && (forall a :: Real(hash(a)))
    && (forall a, b :: hash(a) == hash(b) ==> a == b)
  }

  /** What the epoch before earned the node of account a. */
  ghost function Owed(w: ContainerRuns.World, n: Netmap.State, e: Env, cid: Cid, a: Containers.Account): int
    requires 0 < e.epoch && Billing.IsLog(ContainerRuns.LogOf(w, (cid, a)))
  {
    var log := ContainerRuns.LogOf(w, (cid, a));
    if Served(w.state, n, cid, a, e.epoch) && Billing.Answer(log, e.epoch) != 0 && !Billing.OpenedSince(log, e.epoch)
    then Price(e.rate, Billing.Answer(log, e.epoch)) else 0
  }

  lemma {:induction false} ReceivedAt(e: Env, stats: seq<Billed>, i: nat)
    requires i < |stats| && forall k, j :: 0 <= k < j < |stats| ==> stats[k].account != stats[j].account
    ensures var b := stats[i];
      Received(Dues(e, stats), b.account) == if Payable(e, b) then Part(b.account, Due(e, b).amount) else 0
  {
    hide Payable, Size, Price;
    var b := stats[i];
    var head := if Payable(e, stats[0]) then [Due(e, stats[0])] else [];
    AmountAppend(head, Dues(e, stats[1..]), b.account);
    assert head != [] ==> head[1..] == [];
    if i == 0 {
      forall c | c in stats[1..]
        ensures c.account != b.account
      {
        var j :| 0 <= j < |stats[1..]| && stats[1..][j] == c;
        assert stats[j + 1] == c;
      }
      NothingReceived(e, stats[1..], b.account);
    } else {
      ReceivedAt(e, stats[1..], i - 1);
    }
  }

  lemma NothingElse(e: Env, s: Containers.State, n: Netmap.State, cid: Cid, hash: Hash, x: Address)
    requires 0 < e.epoch && Answers(e, s, n, cid, hash)
    requires forall a :: (cid, a) in s.billing ==> hash(a) != x
    ensures Received(Dues(e, e.stats), x) == 0
  {
    NothingReceived(e, e.stats, x);
  }

  lemma EntryIsPaid(calls: seq<ContainerRuns.Call>, n: Netmap.State, e: Env, cid: Cid, hash: Hash, a: Containers.Account)
    requires ContainerRuns.Epochal(calls) && 0 < e.epoch && ContainerRuns.Watch(calls).epoch <= e.epoch
    requires Answers(e, ContainerRuns.Watch(calls).state, n, cid, hash)
    requires ListsEach(e, ContainerRuns.Watch(calls).state, cid, hash) && IsHash(hash)
    requires (cid, a) in ContainerRuns.Watch(calls).state.billing
    ensures Billing.IsLog(ContainerRuns.LogOf(ContainerRuns.Watch(calls), (cid, a)))
    ensures Received(Dues(e, e.stats), hash(a)) == Owed(ContainerRuns.Watch(calls), n, e, cid, a)
  {
    hide ContainerRuns.Watch, ContainerRuns.Epochal, Answers, Payable, Price, Served, Dues, Billing.IsLog, Billing.Answer,
      Billing.OpenedSince, Billing.Pick;
    var s := ContainerRuns.Watch(calls).state;
    var b :| b in e.stats && IsEntry(s, cid, hash, b, a);
    var i :| 0 <= i < |e.stats| && e.stats[i] == b;
    PayableIff(calls, n, e, cid, hash, b, a);
    ReceivedAt(e, e.stats, i);
  }

  lemma OwedImpliesEntry(calls: seq<ContainerRuns.Call>, n: Netmap.State, e: Env, cid: Cid, a: Containers.Account)
    requires ContainerRuns.Epochal(calls) && 0 < e.epoch
    requires (cid, a) !in ContainerRuns.Watch(calls).state.billing
    ensures Billing.IsLog(ContainerRuns.LogOf(ContainerRuns.Watch(calls), (cid, a)))
    ensures Owed(ContainerRuns.Watch(calls), n, e, cid, a) == 0
  {
    hide ContainerRuns.Watch, ContainerRuns.Epochal, ContainerRuns.Digest, ContainerRuns.Current, Billing.Answer,
      Billing.OpenedSince;
    ContainerRuns.EveryRunIsLogged(calls);
    ContainerRuns.NoReports();
  }

  /** A settlement that is not stopped pays every account what the epoch before earned its node, and nothing
      to anyone else, however the billing entries are ordered. */
  lemma EveryoneIsPaid(calls: seq<ContainerRuns.Call>, n: Netmap.State, e: Env, cid: Cid, hash: Hash, m: Ledger,
                       owner: Address, a: Containers.Account)
    requires ContainerRuns.Epochal(calls) && 0 < e.epoch && ContainerRuns.Watch(calls).epoch <= e.epoch
    requires Answers(e, ContainerRuns.Watch(calls).state, n, cid, hash)
    requires ListsEach(e, ContainerRuns.Watch(calls).state, cid, hash) && IsHash(hash)
    requires Real(owner) && Pay(m, owner, e, e.stats).Ok? && Pay(m, owner, e, e.stats).value.ok
    ensures Billing.IsLog(ContainerRuns.LogOf(ContainerRuns.Watch(calls), (cid, a)))
    ensures var p := Pay(m, owner, e, e.stats).value;
      && Received(p.made, hash(a)) == Owed(ContainerRuns.Watch(calls), n, e, cid, a)
      && BalanceOf(p.ledger, hash(a)) == BalanceOf(m, hash(a)) + Owed(ContainerRuns.Watch(calls), n, e, cid, a)
                                         - (if hash(a) == owner then Amount(p.made) else 0)
  {
    hide ContainerRuns.Watch, ContainerRuns.Epochal, Answers, Dues, Owed, Pay, Amount, Received, ListsEach, Billing.IsLog,
      BalanceOf;
    var j := PayMakesDues(m, owner, e, e.stats);
    assert e.stats[..j] == e.stats;
    PayConserves(m, owner, e, e.stats);
    var s := ContainerRuns.Watch(calls).state;
    if (cid, a) in s.billing {
      EntryIsPaid(calls, n, e, cid, hash, a);
    } else {
      OwedImpliesEntry(calls, n, e, cid, a);
      NothingElse(e, s, n, cid, hash, hash(a));
    }
  }

  /** Accounts that belong to no node with an entry get nothing. */
  lemma OthersAreNotPaid(calls: seq<ContainerRuns.Call>, n: Netmap.State, e: Env, cid: Cid, hash: Hash, m: Ledger,
                         owner: Address, x: Address)
    requires 0 < e.epoch && Answers(e, ContainerRuns.Watch(calls).state, n, cid, hash)
    requires Real(owner) && Pay(m, owner, e, e.stats).Ok? && Pay(m, owner, e, e.stats).value.ok
    requires forall a :: hash(a) != x
    ensures var p := Pay(m, owner, e, e.stats).value;
      BalanceOf(p.ledger, x) == BalanceOf(m, x) - if x == owner then Amount(p.made) else 0
  {
    hide ContainerRuns.Watch, Answers, Dues, Pay, Amount, Received, BalanceOf;
    var j := PayMakesDues(m, owner, e, e.stats);
    assert e.stats[..j] == e.stats;
    PayConserves(m, owner, e, e.stats);
    NothingElse(e, ContainerRuns.Watch(calls).state, n, cid, hash, x);
  }
}
