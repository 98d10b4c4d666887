/** Who can move money in the balance contract (contracts/balance/contract.go), what becomes of locked money,
    and how the supply comes about: each stated on balances and calls alone. */
module BalanceLaws {
  import opened Storage
  import opened Accounts
  import opened Settlement
  import opened Balance
  import opened BalanceRuns

  // ---- transfers ----

  /** The amount has gone from one account to the other and nothing else has changed. An account that is
      emptied goes, with its lock; one that is credited keeps its own. */
  ghost predicate Moved(m: Ledger, t: Ledger, from: Address, to: Address, amount: int) {
    && (forall a :: BalanceOf(t, a) == BalanceOf(m, a) - (if a == from then amount else 0) + (if a == to then amount else 0))
    && (forall a :: a != from && a != to ==> (a in t <==> a in m) && (a in m ==> t[a] == m[a]))
    && to in t
    && (from != to ==> (from in t <==> BalanceOf(m, from) != amount))
    && (forall a :: a in t && a in m && (a != from || BalanceOf(m, from) != amount) ==> t[a].until == m[a].until && t[a].parent == m[a].parent)
    && (forall a :: a in t && a !in m ==> t[a].until == 0)
  }

  /** Anyone may move money exactly if the sender signed or is the caller, both ends are 20-byte hashes and
      the sender has as much; a negative amount faults, and otherwise nothing happens. */
  lemma PlainTransferIff(m: Ledger, from: Address, to: Address, amount: int, usable: bool)
    ensures Transfer(m, from, to, amount, false, usable).Ok? <==> 0 <= amount
    ensures 0 <= amount ==>
      var (t, ok) := Transfer(m, from, to, amount, false, usable).value;
      && (ok <==> usable && |from| == 20 && |to| == 20 && amount <= BalanceOf(m, from))
      && (if ok then Moved(m, t, from, to, amount) else t == m)
  {
  }

  /** With the alphabet's authority nobody needs to sign, an empty sender brings money from outside, and ends
      that are no 20-byte hashes are neither debited nor credited. */
  lemma AlphabetTransferIff(m: Ledger, from: Address, to: Address, amount: int, usable: bool)
    ensures Transfer(m, from, to, amount, true, usable).Ok? <==> 0 <= amount
    ensures 0 <= amount ==>
      var (t, ok) := Transfer(m, from, to, amount, true, usable).value;
      && (ok <==> from == [] || amount <= BalanceOf(m, from))
      && (!ok ==> t == m)
      && (ok && |from| == 20 && |to| == 20 ==> Moved(m, t, from, to, amount))
      && (ok ==> forall a :: BalanceOf(t, a) == BalanceOf(m, a) - (if a == from && |a| == 20 then amount else 0)
                                                + (if a == to && |a| == 20 then amount else 0))
  {
  }

  /** So much for the entry points: anyone may call for a plain transfer, only the alphabet for its own, and
      supply and markers stay as they are. */
  lemma EntryIff(s: State, witnessed: bool, from: Address, to: Address, amount: int, usable: bool)
    ensures var r := Apply(s, witnessed, Move(from, to, amount, usable));
      && (r.Ok? <==> 0 <= amount)
      && (r.Ok? ==> var (t, ok) := r.value;
            && (ok <==> usable && |from| == 20 && |to| == 20 && amount <= BalanceOf(s.accounts, from))
            && t == s.(accounts := t.accounts)
            && if ok then Moved(s.accounts, t.accounts, from, to, amount) else t == s)
    ensures var r := Apply(s, witnessed, TransferX(from, to, amount));
      && (r.Ok? <==> witnessed && 0 <= amount)
      && (r.Ok? ==> var (t, ok) := r.value;
            && (ok <==> from == [] || amount <= BalanceOf(s.accounts, from))
            && t == s.(accounts := t.accounts)
            && (!ok ==> t == s)
            && (ok && |from| == 20 && |to| == 20 ==> Moved(s.accounts, t.accounts, from, to, amount)))
  {
    hide Transfer, Moved;
    PlainTransferIff(s.accounts, from, to, amount, usable);
    AlphabetTransferIff(s.accounts, from, to, amount, false);
  }

  // ---- whose money is safe ----

  /** The calls after which an account can have less, or another lock: the owner's own transfers, the
      alphabet's on it, the alphabet's settlement of its container, and the expiry of its lock. */
  predicate MaySpend(s: State, c: Call, a: Address) {
    match c.op
    case Move(from, _, _, usable) => from == a && usable
    case TransferX(from, _, _) => c.witnessed && from == a
    case Lock(from, to, _, _) => c.witnessed && (from == a || to == a)
    case Burn(from, _) => c.witnessed && from == a
    case Mint(_, _) => false
    case NewEpoch(_, epoch) => c.witnessed && a in s.accounts && s.accounts[a].until != 0 && s.accounts[a].until <= epoch
    case Settle(_, e) => c.witnessed && e.owner == Some(a)
  }

  /** The account has at least as much, under the same lock. */
  ghost predicate Keeps(m: Ledger, t: Ledger, a: Address) {
    && BalanceOf(m, a) <= BalanceOf(t, a)
    && (a in m ==> a in t && t[a].until == m[a].until && t[a].parent == m[a].parent)
    && (a !in m && a in t ==> t[a].until == 0)
  }

  lemma TransferKeeps(m: Ledger, from: Address, to: Address, amount: int, innerRing: bool, usable: bool, a: Address)
    requires Transfer(m, from, to, amount, innerRing, usable).Ok? && from != a
    ensures Keeps(m, Transfer(m, from, to, amount, innerRing, usable).value.0, a)
  {
  }

  lemma KeepsTrans(m: Ledger, t: Ledger, u: Ledger, a: Address)
    requires Keeps(m, t, a) && Keeps(t, u, a)
    ensures Keeps(m, u, a)
  {
  }

  lemma {:induction false} PayKeeps(m: Ledger, owner: Address, e: Env, stats: seq<Billed>, a: Address)
    requires Pay(m, owner, e, stats).Ok? && owner != a
    ensures Keeps(m, Pay(m, owner, e, stats).value.ledger, a)
    decreases |stats|
  {
    hide Transfer;
    if stats != [] {
      if !Payable(e, stats[0]) {
        PayKeeps(m, owner, e, stats[1..], a);
      } else {
        var due := Due(e, stats[0]);
        TransferKeeps(m, owner, due.account, due.amount, true, false, a);
        var r := Transfer(m, owner, due.account, due.amount, true, false).value;
        if r.1 {
          PayKeeps(r.0, owner, e, stats[1..], a);
          KeepsTrans(m, r.0, Pay(r.0, owner, e, stats[1..]).value.ledger, a);
        }
      }
    }
  }

  lemma {:induction false} UnlockKeeps(m: Ledger, order: seq<Address>, epoch: int, a: Address)
    requires UnlockAll(m, order, epoch).Ok? && !(a in m && m[a].until != 0 && m[a].until <= epoch)
    ensures Keeps(m, UnlockAll(m, order, epoch).value, a)
    decreases |order|
  {
    hide Transfer;
    if order != [] {
      if Expired(m, order[0], epoch) {
        TransferKeeps(m, order[0], m[order[0]].parent, m[order[0]].balance, true, false, a);
      }
      var t := Unlock(m, order[0], epoch).value;
      UnlockKeeps(t, order[1..], epoch, a);
      KeepsTrans(m, t, UnlockAll(t, order[1..], epoch).value, a);
    }
  }

  lemma LockSpares(m: Ledger, from: Address, to: Address, amount: int, until: int, a: Address)
    requires from != a && to != a && Transfer(m[to := Account(0, until, from)], from, to, amount, true, false).Ok?
    ensures Keeps(m, Transfer(m[to := Account(0, until, from)], from, to, amount, true, false).value.0, a)
  {
    TransferKeeps(m[to := Account(0, until, from)], from, to, amount, true, false, a);
    hide Transfer;
  }

  /** Nobody else's call takes money from an account or touches its lock. */
  lemma OthersCannotSpend(s: State, c: Call, a: Address)
    requires Apply(s, c.witnessed, c.op).Ok? && |a| == 20 && !MaySpend(s, c, a)
    ensures Keeps(s.accounts, Apply(s, c.witnessed, c.op).value.0.accounts, a)
  {
    hide Transfer, Pay, UnlockAll, Keeps;
    KeepsSame(s.accounts, a);
    match c.op
    case Move(from, to, amount, usable) =>
      if from == a {
        PlainTransferIff(s.accounts, from, to, amount, false);
        NothingMoved(s.accounts, to, amount, a);
      } else {
        TransferKeeps(s.accounts, from, to, amount, false, usable, a);
      }
    case TransferX(from, to, amount) => TransferKeeps(s.accounts, from, to, amount, true, false, a);
    case Lock(from, to, amount, until) => LockSpares(s.accounts, from, to, amount, until, a);
    case NewEpoch(order, epoch) => UnlockKeeps(s.accounts, order, epoch, a);
    case Mint(to, amount) => TransferKeeps(s.accounts, [], to, amount, true, false, a);
    case Burn(from, amount) => TransferKeeps(s.accounts, from, [], amount, true, false, a);
    case Settle(cid, e) =>
      if e.owner.Some? && Pay(s.accounts, e.owner.value, e, e.stats).Ok? {
        PayKeeps(s.accounts, e.owner.value, e, e.stats, a);
      }
  }

  lemma KeepsSame(m: Ledger, a: Address)
    ensures Keeps(m, m, a)
  {
  }

  lemma NothingMoved(m: Ledger, to: Address, amount: int, a: Address)
    requires Transfer(m, a, to, amount, false, false).Ok?
    ensures Transfer(m, a, to, amount, false, false).value.0 == m
  {
  }

  lemma RunStep(calls: seq<Call>)
    requires calls != []
    ensures var s, c := Run(calls[..|calls| - 1]), calls[|calls| - 1];
      Run(calls) == if Apply(s, c.witnessed, c.op).Ok? then Apply(s, c.witnessed, c.op).value.0 else s
  {
  }

  /** None of the further calls may spend from the account. */
  ghost predicate Untouched(calls: seq<Call>, more: seq<Call>, a: Address) {
    forall i :: 0 <= i < |more| ==> !MaySpend(Run(calls + more[..i]), more[i], a)
  }

  /** Through any run an account keeps what it has, under the same lock, until its owner, the alphabet, a
      settlement of its container or the expiry of its lock takes from it. */
  lemma {:induction false} MoneyIsSafe(calls: seq<Call>, more: seq<Call>, a: Address)
    requires |a| == 20 && Untouched(calls, more, a)
    ensures Keeps(Run(calls).accounts, Run(calls + more).accounts, a)
    decreases |more|
  {
    hide Run, Apply, MaySpend, Keeps;
    if more == [] {
      assert calls + more == calls;
      KeepsSame(Run(calls).accounts, a);
    } else {
      var init, c := more[..|more| - 1], more[|more| - 1];
      assert forall i :: 0 <= i < |init| ==> init[..i] == more[..i] && init[i] == more[i];
      MoneyIsSafe(calls, init, a);
      assert (calls + more)[..|calls + more| - 1] == calls + init;
      RunStep(calls + more);
      var s := Run(calls + init);
      if Apply(s, c.witnessed, c.op).Ok? {
        OthersCannotSpend(s, c, a);
        KeepsTrans(Run(calls).accounts, s.accounts, Run(calls + more).accounts, a);
      } else {
        KeepsSame(s.accounts, a);
      }
    }
  }

  // ---- locked money ----

  /** Locking goes through exactly if the payer has the amount once the target is emptied. The target then is
      a lock of just that amount, until the given epoch, that knows the payer. */
  lemma LockIff(s: State, witnessed: bool, from: Address, to: Address, amount: int, until: int)
    requires |from| == 20 && |to| == 20 && from != to
    ensures Apply(s, witnessed, Lock(from, to, amount, until)).Ok? <==> witnessed && 0 <= amount <= BalanceOf(s.accounts, from)
    ensures Apply(s, witnessed, Lock(from, to, amount, until)).Ok? ==>
      var (t, ok) := Apply(s, witnessed, Lock(from, to, amount, until)).value;
      && ok && to in t.accounts && t.accounts[to] == Account(amount, until, from)
      && BalanceOf(t.accounts, from) == BalanceOf(s.accounts, from) - amount
      && (forall a :: a != from && a != to ==> (a in t.accounts <==> a in s.accounts) && GetAccount(t.accounts, a) == GetAccount(s.accounts, a))
      && t.supply == s.supply
  {
  }

  /** Money in a lock stays there, whatever else is called, until the lock has run out or the alphabet
      intervenes; the epoch call that finds it expired gives it back to the payer. */
  lemma LockedMoneyReturns(calls: seq<Call>, from: Address, to: Address, amount: int, until: int, more: seq<Call>,
                           order: seq<Address>, epoch: int)
    requires |from| == 20 && |to| == 20 && from != to && until != 0 && until <= epoch
    requires calls != [] && calls[|calls| - 1].op == Lock(from, to, amount, until)
    requires Apply(Run(calls[..|calls| - 1]), calls[|calls| - 1].witnessed, Lock(from, to, amount, until)).Ok?
    requires Untouched(calls, more, to)
    requires var m := Run(calls + more).accounts;
      Lists(order, m) && !(from in m && m[from].until != 0 && m[from].until <= epoch)
    ensures var m := Run(calls + more).accounts;
      && to in m && m[to].until == until && m[to].parent == from && amount <= m[to].balance
      && UnlockAll(m, order, epoch).Ok?
      && BalanceOf(m, from) + amount <= BalanceOf(UnlockAll(m, order, epoch).value, from)
      && (to in UnlockAll(m, order, epoch).value ==> UnlockAll(m, order, epoch).value[to].until == 0)
  {
    hide Run, Apply, MaySpend, UnlockAll, Untouched;
    RunStep(calls);
    var c := calls[|calls| - 1];
    LockIff(Run(calls[..|calls| - 1]), c.witnessed, from, to, amount, until);
    MoneyIsSafe(calls, more, to);
    BalancesStayNonNegative(calls + more);
    ExpiredPays(Run(calls + more).accounts, order, epoch, to);
  }

  lemma ExpiredPays(m: Ledger, order: seq<Address>, epoch: int, a: Address)
    requires NonNegative(m) && Lists(order, m) && a in m && |a| == 20 && m[a].until != 0 && m[a].until <= epoch
    requires var p := m[a].parent; |p| == 20 && p != a && !(p in m && m[p].until != 0 && m[p].until <= epoch)
    ensures UnlockAll(m, order, epoch).Ok?
    ensures var t, p := UnlockAll(m, order, epoch).value, m[a].parent;
      && BalanceOf(m, p) + m[a].balance <= BalanceOf(t, p)
      && (a in t ==> t[a].until == 0)
  {
    hide UnlockAll, Sum;
    var p := m[a].parent;
    UnlockLeavesNoExpiredLock(m, order, epoch);
    UnlockDelivers(m, order, epoch, p);
    var f := BoundFor(m, order, epoch, p);
    GoesToParent(m, order, epoch, a);
    DestinationStays(m, order, epoch, p);
    SumDelete(m, a, f);
    SumDelete(m - {a}, p, f);
    SumNonNegative(m - {a} - {p}, f);
    assert Entry(m, a, f) == m[a].balance && Entry(m - {a}, p, f) == BalanceOf(m, p);
  }

  lemma {:induction false} GoesToParent(m: Ledger, order: seq<Address>, epoch: int, a: Address)
    requires a in order && Expired(m, a, epoch) && !Expired(m, m[a].parent, epoch)
    ensures Destination(m, order, epoch, a) == m[a].parent
    decreases |order|
  {
    if order[0] == a {
      DestinationStays(m, order[1..], epoch, m[a].parent);
    } else {
      GoesToParent(m, order[1..], epoch, a);
    }
  }

  lemma PayStaysNonNegative(m: Ledger, owner: Address, e: Env, stats: seq<Billed>)
    requires NonNegative(m) && Pay(m, owner, e, stats).Ok?
    ensures NonNegative(Pay(m, owner, e, stats).value.ledger)
    decreases |stats|
  {
    hide Transfer;
    if stats != [] {
      if !Payable(e, stats[0]) {
        PayStaysNonNegative(m, owner, e, stats[1..]);
      } else {
        var due := Due(e, stats[0]);
        TransferStaysNonNegative(m, owner, due.account, due.amount, true, false);
        var r := Transfer(m, owner, due.account, due.amount, true, false).value;
        if r.1 {
          PayStaysNonNegative(r.0, owner, e, stats[1..]);
        }
      }
    }
  }

  lemma TransferStaysNonNegative(m: Ledger, from: Address, to: Address, amount: int, innerRing: bool, usable: bool)
    requires NonNegative(m) && Transfer(m, from, to, amount, innerRing, usable).Ok?
    ensures NonNegative(Transfer(m, from, to, amount, innerRing, usable).value.0)
  {
  }

  lemma {:induction false} UnlockStaysNonNegative(m: Ledger, order: seq<Address>, epoch: int)
    requires NonNegative(m) && UnlockAll(m, order, epoch).Ok?
    ensures NonNegative(UnlockAll(m, order, epoch).value)
    decreases |order|
  {
    hide Transfer;
    if order != [] {
      if Expired(m, order[0], epoch) {
        TransferStaysNonNegative(m, order[0], m[order[0]].parent, m[order[0]].balance, true, false);
      }
      UnlockStaysNonNegative(Unlock(m, order[0], epoch).value, order[1..], epoch);
    }
  }

  /** No balance is ever negative, in any run whatsoever. */
  lemma {:induction false} BalancesStayNonNegative(calls: seq<Call>)
    ensures NonNegative(Run(calls).accounts)
  {
    if calls != [] {
      BalancesStayNonNegative(calls[..|calls| - 1]);
      var s, c := Run(calls[..|calls| - 1]), calls[|calls| - 1];
      hide Transfer, Pay, UnlockAll;
      if Apply(s, c.witnessed, c.op).Ok? {
        match c.op
        case Move(from, to, amount, usable) => TransferStaysNonNegative(s.accounts, from, to, amount, false, usable);
        case TransferX(from, to, amount) => TransferStaysNonNegative(s.accounts, from, to, amount, true, false);
        case Lock(from, to, amount, until) =>
          TransferStaysNonNegative(s.accounts[to := Account(0, until, from)], from, to, amount, true, false);
        case NewEpoch(order, epoch) => UnlockStaysNonNegative(s.accounts, order, epoch);
        case Mint(to, amount) => TransferStaysNonNegative(s.accounts, [], to, amount, true, false);
        case Burn(from, amount) => TransferStaysNonNegative(s.accounts, from, [], amount, true, false);
        case Settle(cid, e) =>
          if e.owner.Some? && Pay(s.accounts, e.owner.value, e, e.stats).Ok? {
            PayStaysNonNegative(s.accounts, e.owner.value, e, e.stats);
          }
      }
    }
  }

  // ---- supply ----

  /** Minting and burning go through exactly for the alphabet, with an amount that is not negative, and for
      burning one that both the account and the supply have; they change one balance and the supply by it. */
  lemma MintIff(s: State, witnessed: bool, to: Address, amount: int)
    ensures Apply(s, witnessed, Mint(to, amount)).Ok? <==> witnessed && 0 <= amount
    ensures Apply(s, witnessed, Mint(to, amount)).Ok? ==>
      var (t, ok) := Apply(s, witnessed, Mint(to, amount)).value;
      && ok && t.supply == s.supply + amount
      && forall a :: BalanceOf(t.accounts, a) == BalanceOf(s.accounts, a) + if a == to && |a| == 20 then amount else 0
  {
  }

  lemma BurnIff(s: State, witnessed: bool, from: Address, amount: int)
    ensures Apply(s, witnessed, Burn(from, amount)).Ok?
       <==> witnessed && 0 <= amount <= s.supply && (from == [] || amount <= BalanceOf(s.accounts, from))
    ensures Apply(s, witnessed, Burn(from, amount)).Ok? ==>
      var (t, ok) := Apply(s, witnessed, Burn(from, amount)).value;
      && ok && t.supply == s.supply - amount
      && forall a :: BalanceOf(t.accounts, a) == BalanceOf(s.accounts, a) - if a == from && |a| == 20 then amount else 0
  {
  }

  /** What has been minted less what has been burned. */
  function Issued(calls: seq<Call>): int {
    if calls == [] then 0 else
      var init, c := calls[..|calls| - 1], calls[|calls| - 1];
      Issued(init) + if Apply(Run(init), c.witnessed, c.op).Fault? then 0
                     else if c.op.Mint? then c.op.amount else if c.op.Burn? then -c.op.amount else 0
  }

  /** In every run the supply is what was minted less what was burned, and is not negative. */
  lemma {:induction false} SupplyIsIssued(calls: seq<Call>)
    ensures Run(calls).supply == Issued(calls) && 0 <= Run(calls).supply
  {
    if calls != [] {
      SupplyIsIssued(calls[..|calls| - 1]);
      var s, c := Run(calls[..|calls| - 1]), calls[|calls| - 1];
      MintIff(s, c.witnessed, if c.op.Mint? then c.op.to else [], if c.op.Mint? then c.op.amount else 0);
      BurnIff(s, c.witnessed, if c.op.Burn? then c.op.from else [], if c.op.Burn? then c.op.amount else 0);
      hide Transfer, Pay, UnlockAll;
    }
  }

  // ---- what an error says ----

  /** A call that fails says why: whatever the order of the checks, the reason given is true. Settlement adds
      prices that come out negative and nodes without a proper account. */
  lemma ErrorsAreTrue(s: State, witnessed: bool, op: Operation)
    requires Apply(s, witnessed, op).Fault?
    ensures match Apply(s, witnessed, op).error
      case NoAlphabetWitness => !witnessed && !op.Move?
      case InvalidContainerId => op.Settle? && |op.cid| != 32
      case ContainerNotFound => op.Settle? && op.env.owner.None?
      case NegativeAmount =>
        if op.NewEpoch? then !NonNegative(s.accounts)
        else if op.Settle? then exists b :: b in op.env.stats && Due(op.env, b).amount < 0
        else op.amount < 0
      case InvalidAccount => op.Settle? && exists b :: b in op.env.stats && |b.account| != 20
      case CannotTransfer => op.Burn? && op.from != [] && BalanceOf(s.accounts, op.from) < op.amount
      case CannotLock =>
        op.Lock? && op.from != [] && (op.from == op.to || BalanceOf(s.accounts, op.from) < op.amount)
      case NegativeSupply => op.Burn? && s.supply < op.amount
  {
    match op
    case NewEpoch(order, epoch) => UnlockFault(s.accounts, order, epoch); hide UnlockAll;
    case Settle(cid, e) =>
      if e.owner.Some? && Pay(s.accounts, e.owner.value, e, e.stats).Fault? {
        PayFault(s.accounts, e.owner.value, e, e.stats);
      }
      hide Pay;
    case _ => hide UnlockAll, Pay;
  }

  lemma {:induction false} UnlockFault(m: Ledger, order: seq<Address>, epoch: int)
    ensures UnlockAll(m, order, epoch).Fault? ==> UnlockAll(m, order, epoch).error == NegativeAmount && !NonNegative(m)
    decreases |order|
  {
    hide Transfer;
    if order != [] {
      if Expired(m, order[0], epoch) {
        AlphabetTransferIff(m, order[0], m[order[0]].parent, m[order[0]].balance, false);
        NegativeIsWhy(m, order[0], m[order[0]].parent, m[order[0]].balance);
      }
      if Unlock(m, order[0], epoch).Ok? {
        UnlockFault(Unlock(m, order[0], epoch).value, order[1..], epoch);
        if NonNegative(m) && Expired(m, order[0], epoch) {
          TransferStaysNonNegative(m, order[0], m[order[0]].parent, m[order[0]].balance, true, false);
        }
      }
    }
  }

  lemma NegativeIsWhy(m: Ledger, from: Address, to: Address, amount: int)
    ensures Transfer(m, from, to, amount, true, false).Fault? ==> Transfer(m, from, to, amount, true, false).error == NegativeAmount
  {
  }

  lemma {:induction false} PayFault(m: Ledger, owner: Address, e: Env, stats: seq<Billed>)
    requires Pay(m, owner, e, stats).Fault?
    ensures match Pay(m, owner, e, stats).error
      case NegativeAmount => exists b :: b in stats && Due(e, b).amount < 0
      case InvalidAccount => exists b :: b in stats && |b.account| != 20
      case _ => false
    decreases |stats|
  {
    var b := stats[0];
    assert b in stats;
    if Size(e, b) != 0 && !Real(b.account) {
    } else if !Payable(e, b) {
      PayFault(m, owner, e, stats[1..]);
    } else if Transfer(m, owner, b.account, Due(e, b).amount, true, false).Ok? {
      PayFault(Transfer(m, owner, b.account, Due(e, b).amount, true, false).value.0, owner, e, stats[1..]);
    }
  }
}
