/** The balance contract (contracts/balance/contract.go): its entry points over the stored accounts,
    the total supply and the settlement markers of containers. */
module Balance {
  import opened Storage
  import opened Accounts
  import opened Settlement
  import Billing

  const HASH256_LEN := 32

  datatype Notification =
    | ChangePaymentStatus(cid: Bytes, epoch: int, unpaid: bool)
    | PaymentMade(owner: Address, cid: Bytes, epoch: int, total: int)

  datatype State = State(accounts: Ledger, supply: int, paid: map<Bytes, int>, unpaid: map<Bytes, int>,
                         notified: seq<Notification>)

  const DEPLOYED := State(map[], 0, map[], map[], [])

  /** `usable` tells whether the sender signed or is the calling contract; the operations other than
      `Move` are for the alphabet, whose witness `Apply` takes separately. `order` is what the iterator
      over accounts yields. */
  datatype Operation =
    | Move(from: Address, to: Address, amount: int, usable: bool)
    | TransferX(from: Address, to: Address, amount: int)
    | Lock(from: Address, to: Address, amount: int, until: int)
    | NewEpoch(order: seq<Address>, epoch: int)
    | Mint(to: Address, amount: int)
    | Burn(from: Address, amount: int)
    | Settle(cid: Bytes, env: Env)

  // ---- the rules as functions of the state ----

  function ApplyTransfer(s: State, from: Address, to: Address, amount: int, innerRing: bool, usable: bool): Result<(State, bool), Error> {
    match Transfer(s.accounts, from, to, amount, innerRing, usable)
    case Fault(e) => Fault(e)
    case Ok(r) => Ok((s.(accounts := r.0), r.1))
  }

  function ApplyLock(s: State, from: Address, to: Address, amount: int, until: int): Result<(State, bool), Error> {
    match Transfer(s.accounts[to := Account(0, until, from)], from, to, amount, true, false)
    case Fault(e) => Fault(e)
    case Ok(r) => if r.1 then Ok((s.(accounts := r.0), true)) else Fault(CannotLock)
  }

  function ApplyMint(s: State, to: Address, amount: int): Result<(State, bool), Error> {
    match Transfer(s.accounts, [], to, amount, true, false)
    case Fault(e) => Fault(e)
    case Ok(r) => if r.1 then Ok((s.(accounts := r.0, supply := s.supply + amount), true)) else Fault(CannotTransfer)
  }

  function ApplyBurn(s: State, from: Address, amount: int): Result<(State, bool), Error> {
    match Transfer(s.accounts, from, [], amount, true, false)
    case Fault(e) => Fault(e)
    case Ok(r) =>
      if !r.1 then Fault(CannotTransfer)
      else if s.supply < amount then Fault(NegativeSupply)
      else Ok((s.(accounts := r.0, supply := s.supply - amount), true))
  }

  function ApplyNewEpoch(s: State, order: seq<Address>, epoch: int): Result<(State, bool), Error> {
    match UnlockAll(s.accounts, order, epoch)
    case Fault(e) => Fault(e)
    case Ok(m) => Ok((s.(accounts := m), true))
  }

  /** Markers and notifications once the loop is over: the first failure marks the container unpaid, a
      success clears the mark and records the epoch. */
  function Mark(s: State, cid: Bytes, owner: Address, epoch: int, ok: bool, total: int): State {
    var marked := cid in s.unpaid;
    var changed := if ok == marked then [ChangePaymentStatus(cid, epoch, !ok)] else [];
    if ok then
      s.(unpaid := s.unpaid - {cid}, paid := s.paid[cid := epoch],
         notified := s.notified + changed + [PaymentMade(owner, cid, epoch, total)])
    else
      s.(unpaid := if marked then s.unpaid else s.unpaid[cid := epoch], notified := s.notified + changed)
  }

  /** Whether a settlement call gets as far as paying anybody. */
  predicate Attempts(s: State, cid: Bytes, e: Env) {
    e.rate != 0 && 0 <= e.epoch - 1 && !(cid in s.paid && e.epoch - 1 <= s.paid[cid])
  }

  function ApplySettle(s: State, cid: Bytes, e: Env): Result<(State, bool), Error> {
    if e.owner.None? then Fault(ContainerNotFound)
    else if e.rate == 0 || e.epoch - 1 < 0 then Ok((s, true))
    else if !Attempts(s, cid, e) then Ok((s, false))
    else
      match Pay(s.accounts, e.owner.value, e, e.stats)
      case Fault(error) => Fault(error)
      case Ok(p) => Ok((Mark(s.(accounts := p.ledger), cid, e.owner.value, e.epoch - 1, p.ok, Amount(p.made)), p.ok))
  }

  function Apply(s: State, witnessed: bool, op: Operation): Result<(State, bool), Error> {
    if op.Settle? && |op.cid| != HASH256_LEN then Fault(InvalidContainerId)
    else if !op.Move? && !witnessed then Fault(NoAlphabetWitness)
    else match op
      case Move(from, to, amount, usable) => ApplyTransfer(s, from, to, amount, false, usable)
      case TransferX(from, to, amount) => ApplyTransfer(s, from, to, amount, true, false)
      case Lock(from, to, amount, until) => ApplyLock(s, from, to, amount, until)
      case NewEpoch(order, epoch) => ApplyNewEpoch(s, order, epoch)
      case Mint(to, amount) => ApplyMint(s, to, amount)
      case Burn(from, amount) => ApplyBurn(s, from, amount)
      case Settle(cid, env) => ApplySettle(s, cid, env)
  }

  /** The call did what the rules say; a failed one left everything as it was. */
  ghost predicate Obeys(before: State, witnessed: bool, op: Operation, after: State, outcome: Result<bool, Error>) {
    match Apply(before, witnessed, op)
    case Fault(e) => outcome == Fault(e) && after == before
    case Ok(r) => outcome == Ok(r.1) && after == r.0
  }

  // ---- the contract ----

  class Contract {
    var accounts: Ledger
    var supply: int
    var paid: map<Bytes, int>
    var unpaid: map<Bytes, int>
    var notified: seq<Notification>

    constructor ()
      ensures Now() == DEPLOYED
    {
      accounts, supply, paid, unpaid, notified := map[], 0, map[], map[], [];
    }

    function Now(): State
      reads this
    {
      State(accounts, supply, paid, unpaid, notified)
    }

    method TransferTokens(from: Address, to: Address, amount: int, innerRing: bool, usable: bool) returns (r: Result<bool, Error>)
      modifies this`accounts
      ensures match Transfer(old(accounts), from, to, amount, innerRing, usable)
              case Fault(e) => r == Fault(e) && accounts == old(accounts)
              case Ok(t) => r == Ok(t.1) && accounts == t.0
    {
      if amount < 0 {
        return Fault(NegativeAmount);
      }
      var amountFrom := CanTransfer(accounts, from, to, amount, innerRing, usable);
      if amountFrom.None? {
        return Ok(false);
      }
      if |from| == HASH160_LEN {
        if amountFrom.value.balance == amount {
          accounts := accounts - {from};
        } else {
          accounts := accounts[from := amountFrom.value.(balance := amountFrom.value.balance - amount)];
        }
      }
      if |to| == HASH160_LEN {
        var amountTo := GetAccount(accounts, to);
        accounts := accounts[to := amountTo.(balance := amountTo.balance + amount)];
      }
      return Ok(true);
    }

    method MoveTokens(from: Address, to: Address, amount: int, usable: bool) returns (r: Result<bool, Error>)
      modifies this
      ensures Obeys(old(Now()), false, Move(from, to, amount, usable), Now(), r)
    {
      r := TransferTokens(from, to, amount, false, usable);
    }

    method TransferByAlphabet(witnessed: bool, from: Address, to: Address, amount: int) returns (r: Result<bool, Error>)
      modifies this
      ensures Obeys(old(Now()), witnessed, TransferX(from, to, amount), Now(), r)
    {
      if !witnessed {
        return Fault(NoAlphabetWitness);
      }
      r := TransferTokens(from, to, amount, true, false);
    }

    method LockTokens(witnessed: bool, from: Address, to: Address, amount: int, until: int) returns (r: Result<bool, Error>)
      modifies this
      ensures Obeys(old(Now()), witnessed, Lock(from, to, amount, until), Now(), r)
    {
      if !witnessed {
        return Fault(NoAlphabetWitness);
      }
      var before := accounts;
      accounts := accounts[to := Account(0, until, from)];
      r := TransferTokens(from, to, amount, true, false);
      if r.Fault? || !r.value {
        accounts := before;  // the VM undoes the new lock account
        return if r.Fault? then r else Fault(CannotLock);
      }
    }

    method UnlockExpired(witnessed: bool, order: seq<Address>, epoch: int) returns (r: Result<bool, Error>)
      modifies this
      ensures Obeys(old(Now()), witnessed, NewEpoch(order, epoch), Now(), r)
    {
      if !witnessed {
        return Fault(NoAlphabetWitness);
      }
      var before := accounts;
      assert order[0..] == order;
      for i := 0 to |order|
        invariant supply == old(supply) && paid == old(paid) && unpaid == old(unpaid) && notified == old(notified)
        invariant UnlockAll(before, order, epoch) == UnlockAll(accounts, order[i..], epoch)
      {
        var addr := order[i];
        assert order[i..][0] == addr && order[i..][1..] == order[i + 1..];
        if |addr| != HASH160_LEN {
          continue;
        }
        var acc := GetAccount(accounts, addr);
        if acc.until == 0 {
          continue;
        }
        if epoch >= acc.until {
          var t := TransferTokens(addr, acc.parent, acc.balance, true, false);
          if t.Fault? {
            accounts := before;
            return t;
          }
        }
      }
      return Ok(true);
    }

    method MintTokens(witnessed: bool, to: Address, amount: int) returns (r: Result<bool, Error>)
      modifies this
      ensures Obeys(old(Now()), witnessed, Mint(to, amount), Now(), r)
    {
      if !witnessed {
        return Fault(NoAlphabetWitness);
      }
      r := TransferTokens([], to, amount, true, false);
      if r.Fault? {
        return r;
      }
      if !r.value {
        return Fault(CannotTransfer);
      }
      supply := supply + amount;
    }

    method BurnTokens(witnessed: bool, from: Address, amount: int) returns (r: Result<bool, Error>)
      modifies this
      ensures Obeys(old(Now()), witnessed, Burn(from, amount), Now(), r)
    {
      if !witnessed {
        return Fault(NoAlphabetWitness);
      }
      var before := accounts;
      r := TransferTokens(from, [], amount, true, false);
      if r.Fault? {
        return r;
      }
      if !r.value {
        return Fault(CannotTransfer);
      }
      if supply < amount {
        accounts := before;
        return Fault(NegativeSupply);
      }
      supply := supply - amount;
    }

    /** The payment loop: `made` lists what was transferred, `total` adds it up. */
    method PayNodes(owner: Address, e: Env) returns (r: Result<bool, Error>, total: int)
      modifies this`accounts
      ensures match Pay(old(accounts), owner, e, e.stats)
              case Fault(error) => r == Fault(error) && accounts == old(accounts)
              case Ok(p) => r == Ok(p.ok) && accounts == p.ledger && total == Amount(p.made)
    {
      var before := accounts;
      ghost var made: seq<Payment> := [];
      total := 0;
      var ok := true;
      assert e.stats[0..] == e.stats;
      assert forall p: seq<Payment> :: [] + p == p && p + [] == p;
      var i := 0;
      while i < |e.stats| && ok
        invariant 0 <= i <= |e.stats|
        invariant total == Amount(made)
        invariant PayState(before, accounts, owner, e, e.stats[i..], ok, made)
      {
        var b := e.stats[i];
        assert e.stats[i..][0] == b && e.stats[i..][1..] == e.stats[i + 1..];
        i := i + 1;
        var size := Billing.Pick(b.stat, e.epoch);
        if size == 0 {
          continue;
        }
        if |b.account| != HASH160_LEN {
          accounts := before;
          return Fault(InvalidAccount), total;
        }
        var key := ReporterKey(e, b.account);
        if |key| != PUBLIC_KEY_LEN || key !in e.online {
          continue;
        }
        var payment := TruncDiv(e.rate * size, GIGABYTE);
        if payment == 0 {
          payment := 1;
        }
        var t := TransferTokens(owner, b.account, payment, true, false);
        if t.Fault? {
          accounts := before;
          return t, total;
        }
        ok := t.value;
        if ok {
          AmountAppend(made, [Due(e, b)], owner);
          ghost var rest := Pay(accounts, owner, e, e.stats[i..]);
          assert rest.Ok? ==> made + ([Due(e, b)] + rest.value.made) == made + [Due(e, b)] + rest.value.made;
          made := made + [Due(e, b)];
          total := total + payment;
        }
      }
      r := Ok(ok);
    }

    method SettleContainerPayment(witnessed: bool, cid: Bytes, e: Env) returns (r: Result<bool, Error>)
      modifies this
      ensures Obeys(old(Now()), witnessed, Settle(cid, e), Now(), r)
    {
      if |cid| != HASH256_LEN {
        return Fault(InvalidContainerId);
      }
      if !witnessed {
        return Fault(NoAlphabetWitness);
      }
      if e.owner.None? {
        return Fault(ContainerNotFound);
      }
      var paymentEpoch := e.epoch - 1;
      if e.rate == 0 || paymentEpoch < 0 {
        return Ok(true);
      }
      if cid in paid && paid[cid] >= paymentEpoch {
        return Ok(false);
      }
      var total;
      r, total := PayNodes(e.owner.value, e);
      if r.Fault? {
        return;
      }
      var paymentOK := r.value;
      var alreadyMarkedUnpaid := cid in unpaid;
      if paymentOK && alreadyMarkedUnpaid {
        notified := notified + [ChangePaymentStatus(cid, paymentEpoch, false)];
        unpaid := unpaid - {cid};
      } else if !paymentOK && !alreadyMarkedUnpaid {
        notified := notified + [ChangePaymentStatus(cid, paymentEpoch, true)];
        unpaid := unpaid[cid := paymentEpoch];
      }
      assert paymentOK && !alreadyMarkedUnpaid ==> unpaid - {cid} == unpaid;
      if paymentOK {
        paid := paid[cid := paymentEpoch];
        notified := notified + [PaymentMade(e.owner.value, cid, paymentEpoch, total)];
      }
    }
  }

  /** Where the payment loop stands: what is left to do from here completes what was to be done. */
  ghost predicate PayState(before: Ledger, now: Ledger, owner: Address, e: Env, rest: seq<Billed>, ok: bool, made: seq<Payment>) {
    var whole := Pay(before, owner, e, e.stats);
    if !ok then whole == Ok(Payout(now, false, made))
    else match Pay(now, owner, e, rest)
      case Fault(error) => whole == Fault(error)
      case Ok(p) => whole == Ok(Payout(p.ledger, p.ok, made + p.made))
  }
}
