/** Which settlements of the balance contract (contracts/balance/contract.go) are due, and what its markers
    and notifications say of them over whole runs, in terms of the calls and of who could be paid. */
module SettlementRuns {
  import opened Storage
  import opened Accounts
  import opened Settlement
  import opened Balance
  import opened BalanceRuns
  import Billing

  /** A settlement that is to be carried out: the alphabet asks for a proper container that has an owner and a
      rate, in the first epoch or later, and the epoch before has not been settled. `last` is the last
      epoch settled. */
  predicate IsDue(last: Option<int>, witnessed: bool, cid: Bytes, e: Env) {
    && witnessed && |cid| == 32 && e.owner.Some? && e.rate != 0 && 1 <= e.epoch
    && (last.Some? ==> last.value < e.epoch - 1)
  }

  function At<K, V>(m: map<K, V>, k: K): Option<V> {
    if k in m then Some(m[k]) else None
  }

  /** A settlement pays the nodes exactly if it is due, and then leaves the ledger as the payments do, the
      epoch recorded if everyone was paid, and otherwise a mark from the first failure on; any other
      accepted settlement changes nothing. It faults for a container it cannot know, without the
      alphabet, and if the payments do. */
  lemma SettleIff(s: State, witnessed: bool, cid: Bytes, e: Env)
    ensures var r, due := Apply(s, witnessed, Settle(cid, e)), IsDue(At(s.paid, cid), witnessed, cid, e);
      && (r.Fault? <==> |cid| != 32 || !witnessed || e.owner.None? || (due && Pay(s.accounts, e.owner.value, e, e.stats).Fault?))
      && (r.Ok? && !due ==> r.value.0 == s && (r.value.1 <==> e.rate == 0 || e.epoch < 1))
      && (r.Ok? && due ==>
            var t, p := r.value.0, Pay(s.accounts, e.owner.value, e, e.stats).value;
            && t.accounts == p.ledger && t.supply == s.supply && r.value.1 == p.ok
            && At(t.paid, cid) == (if p.ok then Some(e.epoch - 1) else At(s.paid, cid))
            && At(t.unpaid, cid) == (if p.ok then None else if cid in s.unpaid then Some(s.unpaid[cid]) else Some(e.epoch - 1))
            && forall c :: c != cid ==> At(t.paid, c) == At(s.paid, c) && At(t.unpaid, c) == At(s.unpaid, c))
  {
    hide Pay;
  }

  /** Who is owed what: a node with something to charge that has a live report under a proper key and was Online;
      one unit for each whole 2^30 of rate times size, and one if there is none. */
  lemma PayableMeans(e: Env, b: Billed)
    ensures var size := Billing.Pick(b.stat, e.epoch);
      && (Payable(e, b) <==>
            size != 0 && b.account in e.reporters && |e.reporters[b.account]| == 33 && e.reporters[b.account] in e.online)
      && Due(e, b).account == b.account && Due(e, b).size == size
      && (0 <= e.rate * size ==> Due(e, b).amount == if e.rate * size < 0x4000_0000 then 1 else e.rate * size / 0x4000_0000)
  {
    hide Billing.Pick;
  }

  // ---- over runs ----

  /** The call settles the container for that epoch: it is due and everyone can be paid. */
  predicate PaysAll(s: State, last: Option<int>, c: Call, cid: Bytes) {
    c.op.Settle? && c.op.cid == cid && IsDue(last, c.witnessed, cid, c.op.env)
    && Pay(s.accounts, c.op.env.owner.value, c.op.env, c.op.env.stats).Ok?
    && Pay(s.accounts, c.op.env.owner.value, c.op.env, c.op.env.stats).value.ok
  }

  /** The call is due, and somebody could not be paid. */
  predicate FailsToPay(s: State, last: Option<int>, c: Call, cid: Bytes) {
    c.op.Settle? && c.op.cid == cid && IsDue(last, c.witnessed, cid, c.op.env)
    && Pay(s.accounts, c.op.env.owner.value, c.op.env, c.op.env.stats).Ok?
    && !Pay(s.accounts, c.op.env.owner.value, c.op.env, c.op.env.stats).value.ok
  }

  /** The last epoch that a call settled, told by the calls. */
  function LastSettled(calls: seq<Call>, cid: Bytes): Option<int> {
    if calls == [] then None else
      var init, c := calls[..|calls| - 1], calls[|calls| - 1];
      if PaysAll(Run(init), LastSettled(init, cid), c, cid) then Some(c.op.env.epoch - 1) else LastSettled(init, cid)
  }

  /** The epoch of the first failure after the last settlement, told by the calls. */
  function FirstUnpaid(calls: seq<Call>, cid: Bytes): Option<int> {
    if calls == [] then None else
      var init, c := calls[..|calls| - 1], calls[|calls| - 1];
      var s, last, before := Run(init), LastSettled(init, cid), FirstUnpaid(init, cid);
      if PaysAll(s, last, c, cid) then None
      else if FailsToPay(s, last, c, cid) && before.None? then Some(c.op.env.epoch - 1)
      else before
  }

  /** What is announced for one call, `marked` telling whether the container is marked unpaid. */
  function Said(s: State, last: Option<int>, marked: bool, c: Call): seq<Notification> {
    if !c.op.Settle? then []
    else
      var cid, e := c.op.cid, c.op.env;
      if PaysAll(s, last, c, cid) then
        (if marked then [ChangePaymentStatus(cid, e.epoch - 1, false)] else [])
        + [PaymentMade(e.owner.value, cid, e.epoch - 1, Amount(Pay(s.accounts, e.owner.value, e, e.stats).value.made))]
      else if FailsToPay(s, last, c, cid) && !marked then [ChangePaymentStatus(cid, e.epoch - 1, true)]
      else []
  }

  /** The container a settlement is for. */
  function About(c: Call): Bytes {
    if c.op.Settle? then c.op.cid else []
  }

  function Announced(calls: seq<Call>): seq<Notification> {
    if calls == [] then [] else
      var init, c := calls[..|calls| - 1], calls[|calls| - 1];
      Announced(init) + Said(Run(init), LastSettled(init, About(c)), FirstUnpaid(init, About(c)).Some?, c)
  }

  lemma StepMarks(s: State, c: Call, cid: Bytes)
    requires Apply(s, c.witnessed, c.op).Ok?
    ensures var t, last := Apply(s, c.witnessed, c.op).value.0, At(s.paid, cid);
      && At(t.paid, cid) == (if PaysAll(s, last, c, cid) then Some(c.op.env.epoch - 1) else last)
      && At(t.unpaid, cid)
         == (if PaysAll(s, last, c, cid) then None
             else if FailsToPay(s, last, c, cid) && cid !in s.unpaid then Some(c.op.env.epoch - 1)
             else At(s.unpaid, cid))
  {
    if c.op.Settle? {
      SettleIff(s, c.witnessed, c.op.cid, c.op.env);
      hide ApplySettle;
    }
    hide Pay, Transfer, UnlockAll;
  }

  lemma FaultsPayNobody(s: State, c: Call, cid: Bytes)
    requires Apply(s, c.witnessed, c.op).Fault?
    ensures !PaysAll(s, At(s.paid, cid), c, cid) && !FailsToPay(s, At(s.paid, cid), c, cid)
  {
    if c.op.Settle? {
      SettleIff(s, c.witnessed, c.op.cid, c.op.env);
      hide Apply, Pay;
    }
  }

  lemma RunStep(calls: seq<Call>)
    requires calls != []
    ensures var s, c := Run(calls[..|calls| - 1]), calls[|calls| - 1];
      Run(calls) == if Apply(s, c.witnessed, c.op).Ok? then Apply(s, c.witnessed, c.op).value.0 else s
  {
  }

  /** In every run: the epoch recorded for a container is that of the last call that was due and got everyone
      paid, and the mark that of the first due call since then that did not. */
  lemma {:induction false} MarkersTellCalls(calls: seq<Call>, cid: Bytes)
    ensures At(Run(calls).paid, cid) == LastSettled(calls, cid)
    ensures At(Run(calls).unpaid, cid) == FirstUnpaid(calls, cid)
  {
    hide Run, Apply, PaysAll, FailsToPay;
    if calls == [] {
      NothingSettled();
    } else {
      var init, c := calls[..|calls| - 1], calls[|calls| - 1];
      MarkersTellCalls(init, cid);
      RunStep(calls);
      if Apply(Run(init), c.witnessed, c.op).Ok? {
        StepMarks(Run(init), c, cid);
      } else {
        FaultsPayNobody(Run(init), c, cid);
      }
    }
  }

  lemma NothingSettled()
    ensures Run([]).paid == map[] && Run([]).unpaid == map[] && Run([]).notified == []
  {
  }

  lemma StepAnnounces(s: State, c: Call)
    requires Apply(s, c.witnessed, c.op).Ok?
    ensures Apply(s, c.witnessed, c.op).value.0.notified
         == s.notified + Said(s, At(s.paid, About(c)), About(c) in s.unpaid, c)
  {
    assert s.notified + [] == s.notified;
    hide Pay, Amount, Transfer, UnlockAll;
  }

  lemma FaultsAnnounceNothing(s: State, c: Call)
    requires Apply(s, c.witnessed, c.op).Fault?
    ensures Said(s, At(s.paid, About(c)), About(c) in s.unpaid, c) == []
  {
    FaultsPayNobody(s, c, About(c));
    hide Apply, PaysAll, FailsToPay;
  }

  /** In every run exactly these payments and changes of status have been announced, in this order. */
  lemma {:induction false} NotificationsTellCalls(calls: seq<Call>)
    ensures Run(calls).notified == Announced(calls)
  {
    hide Run, Apply, Said;
    if calls == [] {
      NothingSettled();
    } else {
      var init, c := calls[..|calls| - 1], calls[|calls| - 1];
      NotificationsTellCalls(init);
      RunStep(calls);
      MarkersTellCalls(init, About(c));
      if Apply(Run(init), c.witnessed, c.op).Ok? {
        StepAnnounces(Run(init), c);
      } else {
        FaultsAnnounceNothing(Run(init), c);
        assert Announced(init) + [] == Announced(init);
      }
    }
  }

  /** The payment is announced. */
  ghost predicate PaymentFor(said: seq<Notification>, cid: Bytes, p: int) {
    exists n :: n in said && n.PaymentMade? && n.cid == cid && n.epoch == p
  }

  lemma SaidIff(s: State, last: Option<int>, marked: bool, c: Call, cid: Bytes, p: int)
    ensures PaymentFor(Said(s, last, marked, c), cid, p)
       <==> About(c) == cid && PaysAll(s, last, c, cid) && c.op.env.epoch == p + 1
  {
    hide Pay, Amount;
    if PaysAll(s, last, c, cid) && c.op.env.epoch == p + 1 {
      var said := Said(s, last, marked, c);
      assert said[|said| - 1].PaymentMade? && said[|said| - 1] in said;
    }
  }

  lemma PaymentForAppend(a: seq<Notification>, b: seq<Notification>, cid: Bytes, p: int)
    ensures PaymentFor(a + b, cid, p) <==> PaymentFor(a, cid, p) || PaymentFor(b, cid, p)
  {
  }

  /** Some call of the run settled the container for the epoch. */
  ghost predicate SettledBy(calls: seq<Call>, cid: Bytes, p: int) {
    exists i :: 0 <= i < |calls| && About(calls[i]) == cid && calls[i].op.Settle? && calls[i].op.env.epoch == p + 1
                && PaysAll(Run(calls[..i]), LastSettled(calls[..i], cid), calls[i], cid)
  }

  lemma SettledByMore(init: seq<Call>, c: Call, cid: Bytes, p: int)
    ensures SettledBy(init + [c], cid, p)
       <==> SettledBy(init, cid, p)
            || (About(c) == cid && PaysAll(Run(init), LastSettled(init, cid), c, cid) && c.op.env.epoch == p + 1)
  {
    hide Run, LastSettled, Pay, IsDue;
    var calls := init + [c];
    assert calls[..|init|] == init && calls[|init|] == c;
    assert forall i :: 0 <= i < |init| ==> init[..i] == calls[..i] && init[i] == calls[i];
  }

  /** In every run a payment is on record for an epoch exactly if some call of the run, made in the epoch
      after it, was due and got everyone paid. */
  lemma {:induction false} SettledIff(calls: seq<Call>, cid: Bytes, p: int)
    ensures PaymentFor(Run(calls).notified, cid, p) <==> SettledBy(calls, cid, p)
  {
    hide Run, PaysAll, Said, PaymentFor, SettledBy, LastSettled, FirstUnpaid;
    NotificationsTellCalls(calls);
    if calls == [] {
      NobodySettled(cid, p);
    } else {
      var init, c := calls[..|calls| - 1], calls[|calls| - 1];
      assert init + [c] == calls;
      SettledIff(init, cid, p);
      NotificationsTellCalls(init);
      SettledByMore(init, c, cid, p);
      SaidIff(Run(init), LastSettled(init, About(c)), FirstUnpaid(init, About(c)).Some?, c, cid, p);
      PaymentForAppend(Announced(init), Said(Run(init), LastSettled(init, About(c)), FirstUnpaid(init, About(c)).Some?, c), cid, p);
    }
  }

  lemma NobodySettled(cid: Bytes, p: int)
    ensures !PaymentFor([], cid, p) && !SettledBy([], cid, p)
  {
  }
}
