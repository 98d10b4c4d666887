/** What every run of the balance contract keeps: the supply equals the money in accounts, and the
    settlement markers tell the container's payment history. */
module BalanceRuns {
  import opened Storage
  import opened Accounts
  import opened Settlement
  import opened Balance

  // ---- total supply ----

  ghost predicate Balanced(s: State) {
    s.supply == Total(s.accounts)
  }

  /** Nobody owes money, and every lock knows whom to pay back. */
  ghost predicate Orderly(m: Ledger) {
    && NonNegative(m)
    && forall a :: a in m && m[a].until != 0 ==> Real(m[a].parent)
  }

  /** When an operation leaves supply and accounts in step: what it credits is what it debits, mints or
      burns. Locking overwrites its target, so whatever was there must be made up for. */
  predicate InStep(s: State, op: Operation) {
    match op
    case Move(_, _, _, _) => true
    case TransferX(from, to, amount) =>
      amount == 0 || (Real(from) <==> Real(to)) || (from != [] && BalanceOf(s.accounts, from) < amount)
    case Lock(from, to, amount, _) => BalanceOf(s.accounts, to) == Part(to, amount) - Part(from, amount)
    case NewEpoch(_, _) => true
    case Mint(to, amount) => amount == 0 || Real(to)
    case Burn(from, amount) => amount == 0 || Real(from)
    case Settle(_, e) => e.owner.Some? ==> Real(e.owner.value)
  }

  lemma LockShift(s: State, from: Address, to: Address, amount: int, until: int)
    requires ApplyLock(s, from, to, amount, until).Ok?
    ensures Total(ApplyLock(s, from, to, amount, until).value.0.accounts)
         == Total(s.accounts) - BalanceOf(s.accounts, to) + Part(to, amount) - Part(from, amount)
  {
    SumPut(s.accounts, to, Account(0, until, from), Held);
    TransferMoves(s.accounts[to := Account(0, until, from)], from, to, amount, true, false);
  }

  /** Exactly when a successful operation keeps the supply equal to the sum of all balances. For
      settlement an improper owner hash is outside what the container contract answers. */
  lemma SupplyKeptIff(s: State, witnessed: bool, op: Operation)
    requires Balanced(s) && Orderly(s.accounts) && Apply(s, witnessed, op).Ok?
    requires op.Settle? ==> InStep(s, op)
    ensures Balanced(Apply(s, witnessed, op).value.0) <==> InStep(s, op)
  {
    match op
    case Move(from, to, amount, usable) =>
      if Apply(s, witnessed, op).value.1 {
        TransferMoves(s.accounts, from, to, amount, false, usable);
      }
    case TransferX(from, to, amount) =>
      if Apply(s, witnessed, op).value.1 {
        TransferMoves(s.accounts, from, to, amount, true, false);
      }
    case Lock(from, to, amount, until) =>
      LockShift(s, from, to, amount, until);
    case NewEpoch(order, epoch) =>
      UnlockKeepsTotal(s.accounts, order, epoch);
    case Mint(to, amount) =>
      TransferMoves(s.accounts, [], to, amount, true, false);
    case Burn(from, amount) =>
      TransferMoves(s.accounts, from, [], amount, true, false);
    case Settle(cid, e) =>
      if Attempts(s, cid, e) && e.owner.Some? {
        PayConserves(s.accounts, e.owner.value, e, e.stats);
      }
  }

  /** A lock taken over an account that holds money makes that money disappear, while the supply still
      counts it. */
  lemma LockOverMoney(s: State, from: Address, to: Address, until: int)
    requires Balanced(s) && Orderly(s.accounts) && Real(from) && Real(to) && from != to
    requires BalanceOf(s.accounts, from) == 5 && BalanceOf(s.accounts, to) == 7
    ensures Apply(s, true, Lock(from, to, 5, until)).Ok?
    ensures Total(Apply(s, true, Lock(from, to, 5, until)).value.0.accounts) == s.supply - 7
  {
    LockShift(s, from, to, 5, until);
  }

  /** The panic about a negative supply happens only when burning from the empty address, which no
      balance backs. */
  lemma NegativeSupplyIff(s: State, witnessed: bool, from: Address, amount: int)
    requires Balanced(s) && Orderly(s.accounts)
    ensures Apply(s, witnessed, Burn(from, amount)) == Fault(NegativeSupply)
       <==> witnessed && from == [] && s.supply < amount
  {
    SumNonNegative(s.accounts, Held);
    if from in s.accounts {
      assert s.accounts[from].balance == Held(from, s.accounts[from]);
    }
  }

  /** Locks are taken for proper accounts, iterators list the accounts, and owners are script hashes. */
  ghost predicate WellCalled(s: State, op: Operation) {
    match op
    case Lock(from, _, _, _) => Real(from)
    case NewEpoch(order, _) => Lists(order, s.accounts)
    case Settle(_, e) => e.owner.Some? ==> Real(e.owner.value)
    case _ => true
  }

  /** Order survives any operation; in particular the unlocking loop never faults. */
  lemma OrderKept(s: State, witnessed: bool, op: Operation)
    requires Orderly(s.accounts) && WellCalled(s, op) && InStep(s, op)
    ensures op.NewEpoch? && witnessed ==> Apply(s, witnessed, op).Ok?
    ensures Apply(s, witnessed, op).Ok? ==> Orderly(Apply(s, witnessed, op).value.0.accounts)
  {
    if op.NewEpoch? {
      UnlockLeavesNoExpiredLock(s.accounts, op.order, op.epoch);
    }
    if Apply(s, witnessed, op).Ok? {
      match op
      case Move(from, to, amount, usable) => TransferKeepsOrder(s.accounts, from, to, amount, false, usable);
      case TransferX(from, to, amount) => TransferKeepsOrder(s.accounts, from, to, amount, true, false);
      case Lock(from, to, amount, until) =>
        TransferKeepsOrder(s.accounts[to := Account(0, until, from)], from, to, amount, true, false);
      case NewEpoch(order, epoch) =>
        var after := UnlockAll(s.accounts, order, epoch).value;
        forall a | a in after && after[a].until != 0
          ensures Real(after[a].parent)
        {
          assert a in s.accounts;
        }
      case Mint(to, amount) => TransferKeepsOrder(s.accounts, [], to, amount, true, false);
      case Burn(from, amount) => TransferKeepsOrder(s.accounts, from, [], amount, true, false);
      case Settle(cid, e) =>
        if Attempts(s, cid, e) && e.owner.Some? {
          PayKeepsOrder(s.accounts, e.owner.value, e, e.stats);
        }
    }
  }

  lemma TransferKeepsOrder(m: Ledger, from: Address, to: Address, amount: int, innerRing: bool, usable: bool)
    requires Orderly(m) && Transfer(m, from, to, amount, innerRing, usable).Ok?
    ensures Orderly(Transfer(m, from, to, amount, innerRing, usable).value.0)
  {
  }

  lemma {:induction false} PayKeepsOrder(m: Ledger, owner: Address, e: Env, stats: seq<Billed>)
    requires Orderly(m) && Pay(m, owner, e, stats).Ok?
    ensures Orderly(Pay(m, owner, e, stats).value.ledger)
    decreases |stats|
  {
    if stats != [] {
      if !Payable(e, stats[0]) {
        PayKeepsOrder(m, owner, e, stats[1..]);
      } else {
        var due := Due(e, stats[0]);
        TransferKeepsOrder(m, owner, due.account, due.amount, true, false);
        var r := Transfer(m, owner, due.account, due.amount, true, false).value;
        if r.1 {
          PayKeepsOrder(r.0, owner, e, stats[1..]);
        }
      }
    }
  }

  datatype Call = Call(witnessed: bool, op: Operation)

  /** The state after a run; a failed call leaves no trace. */
  function Run(calls: seq<Call>): State {
    if calls == [] then DEPLOYED
    else
      var s, c := Run(calls[..|calls| - 1]), calls[|calls| - 1];
      match Apply(s, c.witnessed, c.op)
      case Fault(_) => s
      case Ok(r) => r.0
  }

  /** Every call of the run is made as the contracts make it. */
  ghost predicate WellCalledRun(calls: seq<Call>) {
    calls == [] ||
    (WellCalledRun(calls[..|calls| - 1]) && WellCalled(Run(calls[..|calls| - 1]), calls[|calls| - 1].op))
  }

  /** Every accepted call of the run credits what it debits, mints or burns. */
  ghost predicate InStepRun(calls: seq<Call>) {
    calls == [] ||
    var s, c := Run(calls[..|calls| - 1]), calls[|calls| - 1];
    InStepRun(calls[..|calls| - 1]) && (Apply(s, c.witnessed, c.op).Ok? ==> InStep(s, c.op))
  }

  ghost predicate AlwaysBalanced(calls: seq<Call>) {
    Balanced(Run(calls)) && (calls == [] || AlwaysBalanced(calls[..|calls| - 1]))
  }

  /** Through a run the total supply is the sum of all balances, exactly if every accepted call is in step:
      above all, if no lock is taken over an account with money in it. */
  lemma {:induction false} SupplyIsTotalIff(calls: seq<Call>)
    requires WellCalledRun(calls)
    ensures AlwaysBalanced(calls) <==> InStepRun(calls)
    ensures InStepRun(calls) ==> Orderly(Run(calls).accounts)
  {
    hide Apply, InStep, Balanced, Orderly;
    if calls == [] {
      NothingIsBalanced();
    } else {
      SupplyIsTotalIff(calls[..|calls| - 1]);
      var s, c := Run(calls[..|calls| - 1]), calls[|calls| - 1];
      if InStepRun(calls[..|calls| - 1]) && Apply(s, c.witnessed, c.op).Ok? {
        SettlesInStep(s, c.op);
        SupplyKeptIff(s, c.witnessed, c.op);
        if InStep(s, c.op) {
          OrderKept(s, c.witnessed, c.op);
        }
      }
    }
  }

  lemma NothingIsBalanced()
    ensures Balanced(DEPLOYED) && Orderly(DEPLOYED.accounts)
  {
  }

  lemma SettlesInStep(s: State, op: Operation)
    requires WellCalled(s, op)
    ensures op.Settle? ==> InStep(s, op)
  {
  }

  // ---- settlement markers ----

  /** A settlement that reached the payments: for which container and epoch, and whether all were made. */
  datatype Attempt = Attempt(cid: Bytes, epoch: int, ok: bool)

  function Attempted(s: State, c: Call): seq<Attempt> {
    if c.op.Settle? && Apply(s, c.witnessed, c.op).Ok? && Attempts(s, c.op.cid, c.op.env)
    then [Attempt(c.op.cid, c.op.env.epoch - 1, Apply(s, c.witnessed, c.op).value.1)]
    else []
  }

  function History(calls: seq<Call>): seq<Attempt> {
    if calls == [] then []
    else History(calls[..|calls| - 1]) + Attempted(Run(calls[..|calls| - 1]), calls[|calls| - 1])
  }

  /** The attempt at i failed and none before it has, since the last success. */
  ghost predicate FirstFailure(h: seq<Attempt>, i: nat)
    requires i < |h|
  {
    && !h[i].ok
    && (forall j :: i < j < |h| && h[j].cid == h[i].cid ==> !h[j].ok)
    && (forall j :: 0 <= j < i && h[j].cid == h[i].cid && !h[j].ok ==>
          exists k :: j < k < i && h[k].cid == h[i].cid && h[k].ok)
  }

  /** Epochs of successes strictly increase, and the last one is recorded. */
  ghost predicate PaidTells(paid: map<Bytes, int>, h: seq<Attempt>) {
    && (forall i, j :: 0 <= i < j < |h| && h[i].cid == h[j].cid && h[i].ok ==> h[i].epoch < h[j].epoch)
    && (forall i :: 0 <= i < |h| && h[i].ok ==> h[i].cid in paid && h[i].epoch <= paid[h[i].cid])
    && (forall cid :: cid in paid ==> exists i :: 0 <= i < |h| && h[i].cid == cid && h[i].ok && h[i].epoch == paid[cid])
  }

  /** The mark of an unpaid container is its first failure since the last success. */
  ghost predicate UnpaidTells(unpaid: map<Bytes, int>, h: seq<Attempt>) {
    && (forall cid :: cid in unpaid ==>
          exists i: nat :: i < |h| && h[i].cid == cid && h[i].epoch == unpaid[cid] && FirstFailure(h, i))
    && (forall i :: 0 <= i < |h| && !h[i].ok && h[i].cid !in unpaid ==>
          exists k :: i < k < |h| && h[k].cid == h[i].cid && h[k].ok)
  }

  ghost predicate MarkersTell(s: State, h: seq<Attempt>) {
    && PaidTells(s.paid, h)
    && UnpaidTells(s.unpaid, h)
    && (forall cid :: cid in s.unpaid && cid in s.paid ==> s.paid[cid] < s.unpaid[cid])
  }

  lemma PaidKept(paid: map<Bytes, int>, h: seq<Attempt>, a: Attempt)
    requires PaidTells(paid, h) && (a.cid in paid ==> paid[a.cid] < a.epoch)
    ensures PaidTells(if a.ok then paid[a.cid := a.epoch] else paid, h + [a])
  {
    var after, more := if a.ok then paid[a.cid := a.epoch] else paid, h + [a];
    forall c | c in after
      ensures exists i :: 0 <= i < |more| && more[i].cid == c && more[i].ok && more[i].epoch == after[c]
    {
      if c == a.cid && a.ok {
        assert more[|h|] == a;
      } else {
        var i :| 0 <= i < |h| && h[i].cid == c && h[i].ok && h[i].epoch == paid[c];
        assert more[i] == h[i];
      }
    }
  }

  lemma UnpaidKept(unpaid: map<Bytes, int>, h: seq<Attempt>, a: Attempt)
    requires UnpaidTells(unpaid, h)
    ensures UnpaidTells(if a.ok then unpaid - {a.cid} else if a.cid in unpaid then unpaid else unpaid[a.cid := a.epoch], h + [a])
  {
    var after := if a.ok then unpaid - {a.cid} else if a.cid in unpaid then unpaid else unpaid[a.cid := a.epoch];
    var more := h + [a];
    forall c | c in after
      ensures exists i: nat :: i < |more| && more[i].cid == c && more[i].epoch == after[c] && FirstFailure(more, i)
    {
      if c in unpaid {
        var i: nat :| i < |h| && h[i].cid == c && h[i].epoch == unpaid[c] && FirstFailure(h, i);
        FailureStays(h, i, a);
        assert more[i] == h[i];
      } else {
        MarkStarts(unpaid, h, a);
        assert more[|h|] == a;
      }
    }
    forall i | 0 <= i < |more| && !more[i].ok && more[i].cid !in after
      ensures exists k :: i < k < |more| && more[k].cid == more[i].cid && more[k].ok
    {
      if more[i].cid == a.cid {
        assert more[|h|] == a;
      } else {
        var k :| i < k < |h| && h[k].cid == h[i].cid && h[k].ok;
        assert more[k] == h[k];
      }
    }
  }

  lemma MarksKept(s: State, h: seq<Attempt>, cid: Bytes, owner: Address, epoch: int, ok: bool, total: int)
    requires MarkersTell(s, h)
    requires cid in s.paid ==> s.paid[cid] < epoch
    ensures MarkersTell(Mark(s, cid, owner, epoch, ok, total), h + [Attempt(cid, epoch, ok)])
  {
    PaidKept(s.paid, h, Attempt(cid, epoch, ok));
    UnpaidKept(s.unpaid, h, Attempt(cid, epoch, ok));
  }

  lemma FailureStays(h: seq<Attempt>, i: nat, a: Attempt)
    requires i < |h| && FirstFailure(h, i) && (a.cid == h[i].cid ==> !a.ok)
    ensures FirstFailure(h + [a], i)
  {
    var more := h + [a];
    forall j | 0 <= j < i && more[j].cid == more[i].cid && !more[j].ok
      ensures exists k :: j < k < i && more[k].cid == more[i].cid && more[k].ok
    {
      var k :| j < k < i && h[k].cid == h[i].cid && h[k].ok;
      assert more[k].ok;
    }
  }

  lemma MarkStarts(unpaid: map<Bytes, int>, h: seq<Attempt>, a: Attempt)
    requires UnpaidTells(unpaid, h) && a.cid !in unpaid && !a.ok
    ensures FirstFailure(h + [a], |h|)
  {
    var more := h + [a];
    forall j | 0 <= j < |h| && more[j].cid == a.cid && !more[j].ok
      ensures exists k :: j < k < |h| && more[k].cid == a.cid && more[k].ok
    {
      var k :| j < k < |h| && h[k].cid == h[j].cid && h[k].ok;
      assert more[k].ok;
    }
  }

  /** Over whole runs: settled epochs of a container strictly increase; a container marked unpaid since
      epoch u was last paid for an epoch before u, and u is its first failed epoch since. */
  lemma {:induction false} MarkersTellHistory(calls: seq<Call>)
    ensures MarkersTell(Run(calls), History(calls))
  {
    if calls != [] {
      var init, c := calls[..|calls| - 1], calls[|calls| - 1];
      var s := Run(init);
      MarkersTellHistory(init);
      CallKeepsMarks(s, History(init), c);
      hide Apply, Attempted, MarkersTell;
      if Apply(s, c.witnessed, c.op).Fault? {
        FailuresAttemptNothing(s, c);
      }
      assert History(init) + [] == History(init);
    }
  }

  lemma FailuresAttemptNothing(s: State, c: Call)
    requires Apply(s, c.witnessed, c.op).Fault?
    ensures Attempted(s, c) == []
  {
    hide Apply;
  }

  lemma SettleKeepsMarks(s: State, h: seq<Attempt>, cid: Bytes, e: Env)
    requires MarkersTell(s, h) && Attempts(s, cid, e) && ApplySettle(s, cid, e).Ok?
    ensures var r := ApplySettle(s, cid, e).value; MarkersTell(r.0, h + [Attempt(cid, e.epoch - 1, r.1)])
  {
    hide Pay, Amount, MarkersTell, Mark;
    var p := Pay(s.accounts, e.owner.value, e, e.stats).value;
    var paying := s.(accounts := p.ledger);
    SameMarks(s, paying, h);
    MarksKept(paying, h, cid, e.owner.value, e.epoch - 1, p.ok, Amount(p.made));
  }

  lemma CallKeepsMarks(s: State, h: seq<Attempt>, c: Call)
    requires MarkersTell(s, h)
    ensures Apply(s, c.witnessed, c.op).Ok? ==> MarkersTell(Apply(s, c.witnessed, c.op).value.0, h + Attempted(s, c))
  {
    hide MarkersTell;
    if Apply(s, c.witnessed, c.op).Ok? {
      if Attempted(s, c) == [] {
        OtherCallsKeepMarks(s, c);
        assert h + [] == h;
        SameMarks(s, Apply(s, c.witnessed, c.op).value.0, h);
      } else {
        hide ApplySettle, Attempts;
        SettleKeepsMarks(s, h, c.op.cid, c.op.env);
      }
    }
  }

  lemma SameMarks(s: State, t: State, h: seq<Attempt>)
    requires MarkersTell(s, h) && t.paid == s.paid && t.unpaid == s.unpaid
    ensures MarkersTell(t, h)
  {
  }

  lemma OtherCallsKeepMarks(s: State, c: Call)
    requires Attempted(s, c) == [] && Apply(s, c.witnessed, c.op).Ok?
    ensures var after := Apply(s, c.witnessed, c.op).value.0;
            after.paid == s.paid && after.unpaid == s.unpaid && after.notified == s.notified
  {
  }

  // ---- notifications ----

  /** The payment statuses announced for a container, oldest first. */
  function Statuses(n: seq<Notification>, cid: Bytes): seq<bool> {
    if n == [] then [] else
      var last := n[|n| - 1];
      Statuses(n[..|n| - 1], cid) + if last.ChangePaymentStatus? && last.cid == cid then [last.unpaid] else []
  }

  /** true, false, true, ... */
  ghost predicate Alternates(s: seq<bool>) {
    forall i :: 0 <= i < |s| ==> s[i] == (i % 2 == 0)
  }

  lemma {:induction false} StatusesAppend(n: seq<Notification>, more: seq<Notification>, cid: Bytes)
    ensures Statuses(n + more, cid) == Statuses(n, cid) + Statuses(more, cid)
    decreases |more|
  {
    if more == [] {
      assert n + more == n;
    } else {
      assert (n + more)[..|n + more| - 1] == n + more[..|more| - 1];
      StatusesAppend(n, more[..|more| - 1], cid);
    }
  }

  ghost predicate Announced(s: State) {
    forall cid :: Alternates(Statuses(s.notified, cid)) && (cid in s.unpaid <==> |Statuses(s.notified, cid)| % 2 == 1)
  }

  lemma AlternatesAppend(s: seq<bool>, b: bool)
    requires Alternates(s) && b == (|s| % 2 == 0)
    ensures Alternates(s + [b])
  {
  }

  lemma MarkAnnounces(s: State, cid: Bytes, owner: Address, epoch: int, ok: bool, total: int)
    requires Announced(s)
    ensures Announced(Mark(s, cid, owner, epoch, ok, total))
  {
    var after := Mark(s, cid, owner, epoch, ok, total);
    var changes := ok == (cid in s.unpaid);
    var changed := if changes then [ChangePaymentStatus(cid, epoch, !ok)] else [];
    var made := if ok then [PaymentMade(owner, cid, epoch, total)] else [];
    assert after.notified == s.notified + changed + made;
    forall c
      ensures Alternates(Statuses(after.notified, c)) && (c in after.unpaid <==> |Statuses(after.notified, c)| % 2 == 1)
    {
      StatusesAppend(s.notified, changed, c);
      StatusesAppend(s.notified + changed, made, c);
      assert Statuses(made, c) == [];
      var before := Statuses(s.notified, c);
      assert Alternates(before);
      if changes && c == cid {
        assert Statuses(changed, c) == [!ok];
        AlternatesAppend(before, !ok);
      } else {
        assert Statuses(changed, c) == [];
        assert before + [] + [] == before;
      }
    }
  }

  /** For every container the announcements alternate, beginning with "unpaid", and the last one agrees
      with the mark. */
  lemma {:induction false} StatusesAlternate(calls: seq<Call>)
    ensures Announced(Run(calls))
  {
    if calls != [] {
      StatusesAlternate(calls[..|calls| - 1]);
      CallAnnounces(Run(calls[..|calls| - 1]), calls[|calls| - 1]);
      hide Apply, Announced;
    }
  }

  lemma SettleAnnounces(s: State, cid: Bytes, e: Env)
    requires Announced(s) && Attempts(s, cid, e) && ApplySettle(s, cid, e).Ok?
    ensures Announced(ApplySettle(s, cid, e).value.0)
  {
    hide Pay, Amount, Announced, Mark;
    var p := Pay(s.accounts, e.owner.value, e, e.stats).value;
    SameAnnounced(s, s.(accounts := p.ledger));
    MarkAnnounces(s.(accounts := p.ledger), cid, e.owner.value, e.epoch - 1, p.ok, Amount(p.made));
  }

  lemma SameAnnounced(s: State, t: State)
    requires Announced(s) && t.notified == s.notified && t.unpaid == s.unpaid
    ensures Announced(t)
  {
  }

  lemma CallAnnounces(s: State, c: Call)
    requires Announced(s)
    ensures Apply(s, c.witnessed, c.op).Ok? ==> Announced(Apply(s, c.witnessed, c.op).value.0)
  {
    hide Announced;
    if Apply(s, c.witnessed, c.op).Ok? {
      if Attempted(s, c) == [] {
        OtherCallsKeepMarks(s, c);
        SameAnnounced(s, Apply(s, c.witnessed, c.op).value.0);
      } else {
        hide ApplySettle, Attempts;
        SettleAnnounces(s, c.op.cid, c.op.env);
      }
    }
  }
}
