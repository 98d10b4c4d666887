/** Paying storage nodes out of a container owner's account (SettleContainerPayment in
    contracts/balance/contract.go): who is paid how much, and what the loop does to the ledger. */
module Settlement {
  import opened Storage
  import opened Varint
  import opened Accounts
  import Billing

  type Bytes = seq<Byte>

  const PUBLIC_KEY_LEN := 33
  const GIGABYTE := 0x4000_0000

  /** A billing entry of the container, with the node account it is kept for. */
  datatype Billed = Billed(account: Address, stat: Billing.Stat)

  /** What the container and netmap contracts answer: the owner (none for an unknown container), the
      configured rate, the current epoch, the billing entries, the keys behind the live reports and the
      keys that were Online in the epoch being paid for. */
  datatype Env = Env(owner: Option<Address>, rate: int, epoch: int, stats: seq<Billed>,
                     reporters: map<Address, Bytes>, online: set<Bytes>)

  function ReporterKey(e: Env, a: Address): Bytes {
    if a in e.reporters then e.reporters[a] else []
  }

  function Size(e: Env, b: Billed): int {
    Billing.Pick(b.stat, e.epoch)
  }

  /** A node is owed something if it has a size to charge, a live report and was Online. */
  predicate Payable(e: Env, b: Billed) {
    && Size(e, b) != 0
    && |ReporterKey(e, b.account)| == PUBLIC_KEY_LEN
    && ReporterKey(e, b.account) in e.online
  }

  /** The charge for a size, never less than one unit. */
  function Price(rate: int, size: int): int {
    var payment := TruncDiv(rate * size, GIGABYTE);
    if payment == 0 then 1 else payment
  }

  datatype Payment = Payment(account: Address, size: int, amount: int)

  function Due(e: Env, b: Billed): Payment {
    Payment(b.account, Size(e, b), Price(e.rate, Size(e, b)))
  }

  /** The payments owed for the given entries. */
  function Dues(e: Env, stats: seq<Billed>): seq<Payment> {
    if stats == [] then []
    else (if Payable(e, stats[0]) then [Due(e, stats[0])] else []) + Dues(e, stats[1..])
  }

  function Amount(made: seq<Payment>): int {
    if made == [] then 0 else made[0].amount + Amount(made[1..])
  }

  function Sizes(made: seq<Payment>): int {
    if made == [] then 0 else made[0].size + Sizes(made[1..])
  }

  function Received(made: seq<Payment>, a: Address): int {
    if made == [] then 0 else (if made[0].account == a then Part(a, made[0].amount) else 0) + Received(made[1..], a)
  }

  /** How the loop ends: the ledger, whether everyone was paid, and the payments made. */
  datatype Payout = Payout(ledger: Ledger, ok: bool, made: seq<Payment>)

  /** The loop over the billing entries; it stops at the first payment the owner cannot afford. */
  function Pay(m: Ledger, owner: Address, e: Env, stats: seq<Billed>): Result<Payout, Error>
    decreases |stats|
  {
    if stats == [] then Ok(Payout(m, true, [])) else
      var b := stats[0];
      if Size(e, b) != 0 && !Real(b.account) then Fault(InvalidAccount)
      else if !Payable(e, b) then Pay(m, owner, e, stats[1..])
      else
        var due := Due(e, b);
        match Transfer(m, owner, b.account, due.amount, true, false)
        case Fault(error) => Fault(error)
        case Ok(r) =>
          if !r.1 then Ok(Payout(m, false, [])) else
            match Pay(r.0, owner, e, stats[1..])
            case Fault(error) => Fault(error)
            case Ok(p) => Ok(Payout(p.ledger, p.ok, [due] + p.made))
  }

  lemma {:induction false} AmountAppend(a: seq<Payment>, b: seq<Payment>, k: Address)
    ensures Amount(a + b) == Amount(a) + Amount(b)
    ensures Sizes(a + b) == Sizes(a) + Sizes(b)
    ensures Received(a + b, k) == Received(a, k) + Received(b, k)
  {
    if a == [] {
      assert a + b == b;
    } else {
      assert (a + b)[1..] == a[1..] + b;
      AmountAppend(a[1..], b, k);
    }
  }

  lemma {:induction false} DuesAppend(e: Env, a: seq<Billed>, b: seq<Billed>)
    ensures Dues(e, a + b) == Dues(e, a) + Dues(e, b)
  {
    if a == [] {
      assert a + b == b;
    } else {
      assert (a + b)[1..] == a[1..] + b;
      DuesAppend(e, a[1..], b);
    }
  }

  /** The loop makes the payments owed for a prefix of the entries: all of them on success; otherwise
      those before an entry whose payment exceeds what the owner has left then. */
  lemma {:induction false} PayMakesDues(m: Ledger, owner: Address, e: Env, stats: seq<Billed>) returns (j: nat)
    requires Real(owner) && Pay(m, owner, e, stats).Ok?
    ensures var p := Pay(m, owner, e, stats).value;
      && j <= |stats| && p.made == Dues(e, stats[..j])
      && (p.ok <==> j == |stats|)
      && (!p.ok ==> Payable(e, stats[j]) && BalanceOf(p.ledger, owner) < Due(e, stats[j]).amount)
    decreases |stats|
  {
    if stats == [] {
      return 0;
    }
    var b := stats[0];
    if !Payable(e, b) {
      var i := PayMakesDues(m, owner, e, stats[1..]);
      j := i + 1;
      assert stats[..j][1..] == stats[1..][..i];
    } else {
      var r := Transfer(m, owner, b.account, Due(e, b).amount, true, false).value;
      if !r.1 {
        j := 0;
      } else {
        var i := PayMakesDues(r.0, owner, e, stats[1..]);
        j := i + 1;
        assert stats[..j][1..] == stats[1..][..i];
      }
    }
  }

  /** Whether or not it gets through, the loop keeps the sum of all balances: every account gains what
      it was paid, and the owner loses the sum of the payments. */
  lemma {:induction false} PayConserves(m: Ledger, owner: Address, e: Env, stats: seq<Billed>)
    requires Real(owner) && Pay(m, owner, e, stats).Ok?
    ensures var p := Pay(m, owner, e, stats).value;
      && Total(p.ledger) == Total(m)
      && (NonNegative(m) ==> NonNegative(p.ledger))
      && (forall a :: BalanceOf(p.ledger, a)
            == BalanceOf(m, a) + Received(p.made, a) - if a == owner then Amount(p.made) else 0)
    decreases |stats|
  {
    if stats != [] {
      var b := stats[0];
      if !Payable(e, b) {
        PayConserves(m, owner, e, stats[1..]);
      } else {
        var due := Due(e, b);
        var r := Transfer(m, owner, b.account, due.amount, true, false).value;
        if r.1 {
          TransferMoves(m, owner, b.account, due.amount, true, false);
          PayConserves(r.0, owner, e, stats[1..]);
          var rest := Pay(r.0, owner, e, stats[1..]).value;
          assert ([due] + rest.made)[1..] == rest.made;
        }
      }
    }
  }

  /** With the owner not among the paid nodes and everyone paid, the owner's loss is the total
      reported, and so is the gain of all nodes together. */
  lemma OwnerLosesTotal(m: Ledger, owner: Address, e: Env, stats: seq<Billed>)
    requires Real(owner) && Pay(m, owner, e, stats).Ok?
    requires forall b :: b in stats ==> b.account != owner
    ensures var p := Pay(m, owner, e, stats).value;
      && BalanceOf(p.ledger, owner) == BalanceOf(m, owner) - Amount(p.made)
      && (Total(p.ledger) - BalanceOf(p.ledger, owner)) - (Total(m) - BalanceOf(m, owner)) == Amount(p.made)
  {
    PayConserves(m, owner, e, stats);
    var j := PayMakesDues(m, owner, e, stats);
    NothingReceived(e, stats[..j], owner);
  }

  lemma {:induction false} NothingReceived(e: Env, stats: seq<Billed>, a: Address)
    requires forall b :: b in stats ==> b.account != a
    ensures Received(Dues(e, stats), a) == 0
  {
    if stats != [] {
      NothingReceived(e, stats[1..], a);
      var head := if Payable(e, stats[0]) then [Due(e, stats[0])] else [];
      AmountAppend(head, Dues(e, stats[1..]), a);
      assert stats[0] in stats;
    }
  }

  /** Only entries that are payable are paid, each at its price. */
  lemma {:induction false} DuesArePayable(e: Env, stats: seq<Billed>)
    ensures forall p :: p in Dues(e, stats) ==> exists b :: b in stats && Payable(e, b) && p == Due(e, b)
    ensures |Dues(e, stats)| <= |stats|
  {
    if stats != [] {
      DuesArePayable(e, stats[1..]);
      forall p | p in Dues(e, stats)
        ensures exists b :: b in stats && Payable(e, b) && p == Due(e, b)
      {
        if p in Dues(e, stats[1..]) {
          var b :| b in stats[1..] && Payable(e, b) && p == Due(e, b);
          assert b in stats;
        } else {
          assert stats[0] in stats;
        }
      }
    }
  }

  /** A price is within one unit of the exact one, unless the exact one is negative but above -1: then it
      is rounded up to a whole unit, and is within two. */
  lemma PriceIsCloseIff(rate: int, size: int)
    ensures var error := 0x4000_0000 * Price(rate, size) - rate * size;
      && (-0x4000_0000 <= error <= 0x4000_0000 <==> !(-0x4000_0000 < rate * size < 0))
      && -0x4000_0000 <= error <= 2 * 0x4000_0000
    ensures Price(rate, size) < 0 <==> rate * size <= -0x4000_0000
  {
  }

  lemma Distribute(r: int, a: int, b: int)
    ensures r * (a + b) == r * a + r * b
  {
  }

  /** Payments that a negative size within one unit of zero brings up to a whole unit. */
  function Overcharged(rate: int, made: seq<Payment>): nat {
    if made == [] then 0
    else (if -GIGABYTE < rate * made[0].size < 0 then 1 else 0) + Overcharged(rate, made[1..])
  }

  lemma {:induction false} OverchargedIsPart(rate: int, made: seq<Payment>)
    ensures Overcharged(rate, made) <= |made|
    ensures (forall p :: p in made ==> !(-GIGABYTE < rate * p.size < 0)) <==> Overcharged(rate, made) == 0
  {
    if made != [] {
      OverchargedIsPart(rate, made[1..]);
      assert forall p :: p in made <==> p == made[0] || p in made[1..];
    }
  }

  /** The total is the rate times the charged sizes, give or take one unit for each payment, and another
      one for each that was overcharged. */
  lemma {:induction false} AmountIsClose(e: Env, stats: seq<Billed>)
    ensures var made := Dues(e, stats);
            var error := GIGABYTE * Amount(made) - e.rate * Sizes(made);
      && -(|made| * GIGABYTE) <= error <= (|made| + Overcharged(e.rate, made)) * GIGABYTE
      && error <= 2 * |made| * GIGABYTE
  {
    OverchargedIsPart(e.rate, Dues(e, stats));
    if stats != [] {
      AmountIsClose(e, stats[1..]);
      hide Price, Payable, Size;
      var b, rest := stats[0], Dues(e, stats[1..]);
      if Payable(e, b) {
        var made := [Due(e, b)] + rest;
        assert made == Dues(e, stats) && made[1..] == rest;
        PriceIsCloseIff(e.rate, Size(e, b));
        Distribute(e.rate, Size(e, b), Sizes(rest));
      } else {
        assert [] + rest == rest;
      }
    }
  }

  // ---- when settlement panics ----

  /** An entry that ends the whole settlement if the loop reaches it: an improper account, or a price
      below zero. */
  predicate Panics(e: Env, b: Billed) {
    (Size(e, b) != 0 && !Real(b.account)) || (Payable(e, b) && e.rate * Size(e, b) <= -GIGABYTE)
  }

  /** What the owner has left after the given payments, some of which it may have received itself. */
  function Left(balance: int, made: seq<Payment>, owner: Address): int {
    balance - Amount(made) + Received(made, owner)
  }

  /** The loop gets past the entry at j: it is in order, and the owner can pay for it. */
  predicate Passes(balance: int, owner: Address, e: Env, stats: seq<Billed>, j: nat)
    requires j < |stats|
  {
    !Panics(e, stats[j])
    && (Payable(e, stats[j]) ==> Due(e, stats[j]).amount <= Left(balance, Dues(e, stats[..j]), owner))
  }

  predicate PanicsAt(balance: int, owner: Address, e: Env, stats: seq<Billed>, i: nat) {
    i < |stats| && Panics(e, stats[i]) && forall j :: 0 <= j < i ==> Passes(balance, owner, e, stats, j)
  }

  /** Payments due to a prefix are the head's and those due to a prefix of the rest. */
  lemma DuesPrefix(e: Env, stats: seq<Billed>, j: nat, balance: int, owner: Address)
    requires j < |stats|
    ensures Left(balance, Dues(e, stats[..j + 1]), owner)
         == Left(Left(balance, Dues(e, [stats[0]]), owner), Dues(e, stats[1..][..j]), owner)
  {
    assert stats[..j + 1] == [stats[0]] + stats[1..][..j];
    DuesAppend(e, [stats[0]], stats[1..][..j]);
    AmountAppend(Dues(e, [stats[0]]), Dues(e, stats[1..][..j]), owner);
  }

  lemma PassesDown(balance: int, owner: Address, e: Env, stats: seq<Billed>, j: nat)
    requires j + 1 < |stats|
    ensures Passes(balance, owner, e, stats, j + 1)
       <==> Passes(Left(balance, Dues(e, [stats[0]]), owner), owner, e, stats[1..], j)
  {
    DuesPrefix(e, stats, j, balance, owner);
    assert stats[1..][j] == stats[j + 1];
    hide Panics, Payable, Due, Dues, Left;
  }

  lemma PanicsDown(balance: int, owner: Address, e: Env, stats: seq<Billed>, i: nat)
    requires stats != []
    ensures PanicsAt(balance, owner, e, stats, i + 1)
       <==> Passes(balance, owner, e, stats, 0) && PanicsAt(Left(balance, Dues(e, [stats[0]]), owner), owner, e, stats[1..], i)
  {
    hide Panics, Passes, Dues, Left;
    forall j: nat | j + 1 < |stats|
      ensures Passes(balance, owner, e, stats, j + 1)
         <==> Passes(Left(balance, Dues(e, [stats[0]]), owner), owner, e, stats[1..], j)
    {
      PassesDown(balance, owner, e, stats, j);
    }
    if PanicsAt(balance, owner, e, stats, i + 1) {
      forall j | 0 <= j < i
        ensures Passes(Left(balance, Dues(e, [stats[0]]), owner), owner, e, stats[1..], j)
      {
        assert Passes(balance, owner, e, stats, j + 1);
      }
    }
    if Passes(balance, owner, e, stats, 0) && PanicsAt(Left(balance, Dues(e, [stats[0]]), owner), owner, e, stats[1..], i) {
      forall j | 0 <= j < i + 1
        ensures Passes(balance, owner, e, stats, j)
      {
        if 0 < j {
          assert Passes(Left(balance, Dues(e, [stats[0]]), owner), owner, e, stats[1..], j - 1);
        }
      }
    }
  }

  /** Whether some entry, with everything before it passed, panics. */
  ghost predicate PanicReached(balance: int, owner: Address, e: Env, stats: seq<Billed>) {
    exists i: nat :: PanicsAt(balance, owner, e, stats, i)
  }

  lemma PanicReachedSteps(balance: int, owner: Address, e: Env, stats: seq<Billed>)
    requires stats != []
    ensures PanicReached(balance, owner, e, stats) <==>
      Panics(e, stats[0])
      || (Passes(balance, owner, e, stats, 0) && PanicReached(Left(balance, Dues(e, [stats[0]]), owner), owner, e, stats[1..]))
  {
    hide Panics, Passes, Dues, Left, PanicsAt;
    PanicsAtHead(balance, owner, e, stats);
    if PanicReached(balance, owner, e, stats) {
      var i: nat :| PanicsAt(balance, owner, e, stats, i);
      if 0 < i {
        PanicsDown(balance, owner, e, stats, i - 1);
      }
    }
    if Passes(balance, owner, e, stats, 0) && PanicReached(Left(balance, Dues(e, [stats[0]]), owner), owner, e, stats[1..]) {
      var i: nat :| PanicsAt(Left(balance, Dues(e, [stats[0]]), owner), owner, e, stats[1..], i);
      PanicsDown(balance, owner, e, stats, i);
    }
  }

  lemma PanicsAtHead(balance: int, owner: Address, e: Env, stats: seq<Billed>)
    requires stats != []
    ensures PanicsAt(balance, owner, e, stats, 0) <==> Panics(e, stats[0])
  {
  }

  /** What the loop does with its first entry. */
  lemma PayHead(m: Ledger, owner: Address, e: Env, stats: seq<Billed>)
    requires Real(owner) && stats != []
    ensures Panics(e, stats[0]) ==> Pay(m, owner, e, stats).Fault?
    ensures !Panics(e, stats[0]) && !Passes(BalanceOf(m, owner), owner, e, stats, 0) ==> Pay(m, owner, e, stats).Ok?
    ensures Passes(BalanceOf(m, owner), owner, e, stats, 0) ==>
      exists after :: (Pay(m, owner, e, stats).Fault? <==> Pay(after, owner, e, stats[1..]).Fault?)
                      && BalanceOf(after, owner) == Left(BalanceOf(m, owner), Dues(e, [stats[0]]), owner)
  {
    var b := stats[0];
    PriceIsCloseIff(e.rate, Size(e, b));
    hide Price, Size;
    assert stats[..0] == [] && Left(BalanceOf(m, owner), [], owner) == BalanceOf(m, owner);
    assert [b][1..] == [] && Dues(e, []) == [];
    if Payable(e, b) && !Panics(e, b) {
      var due := Due(e, b);
      assert Dues(e, [b]) == [due] && [due][1..] == [];
      if due.amount <= BalanceOf(m, owner) {
        TransferMoves(m, owner, b.account, due.amount, true, false);
        var after := Transfer(m, owner, b.account, due.amount, true, false).value.0;
        assert BalanceOf(after, owner) == Left(BalanceOf(m, owner), [due], owner);
      }
    } else if !Panics(e, b) {
      assert Dues(e, [b]) == [];
    }
  }

  /** Settlement panics exactly if the loop reaches an entry with a size but an improper account, or one to
      be paid whose rate times size is -2^30 or less: before it nothing panics, and the owner can afford
      everything due. */
  lemma {:induction false} PayPanicsIff(m: Ledger, owner: Address, e: Env, stats: seq<Billed>)
    requires Real(owner)
    ensures Pay(m, owner, e, stats).Fault? <==> PanicReached(BalanceOf(m, owner), owner, e, stats)
    decreases |stats|
  {
    hide Panics, Passes, Dues, Left, PanicsAt;
    if stats == [] {
      NothingPanics(m, owner, e);
    } else {
      PanicReachedSteps(BalanceOf(m, owner), owner, e, stats);
      PayHead(m, owner, e, stats);
      hide Pay, PanicReached;
      if Passes(BalanceOf(m, owner), owner, e, stats, 0) {
        var after :| (Pay(m, owner, e, stats).Fault? <==> Pay(after, owner, e, stats[1..]).Fault?)
                     && BalanceOf(after, owner) == Left(BalanceOf(m, owner), Dues(e, [stats[0]]), owner);
        PayPanicsIff(after, owner, e, stats[1..]);
        PassingIsNoPanic(BalanceOf(m, owner), owner, e, stats);
      }
    }
  }

  lemma NothingPanics(m: Ledger, owner: Address, e: Env)
    ensures Pay(m, owner, e, []).Ok? && !PanicReached(BalanceOf(m, owner), owner, e, [])
  {
  }

  lemma PassingIsNoPanic(balance: int, owner: Address, e: Env, stats: seq<Billed>)
    requires stats != [] && Passes(balance, owner, e, stats, 0)
    ensures !Panics(e, stats[0])
  {
  }

  /** With sizes of -1 at least, a rate from 0 to below 2^30 and proper node accounts, settlement never panics. */
  lemma PayRuns(m: Ledger, owner: Address, e: Env, stats: seq<Billed>)
    requires Real(owner) && 0 <= e.rate < GIGABYTE
    requires forall b :: b in stats ==> -1 <= Size(e, b) && Real(b.account)
    ensures Pay(m, owner, e, stats).Ok?
  {
    PayPanicsIff(m, owner, e, stats);
    forall i | 0 <= i < |stats|
      ensures !Panics(e, stats[i])
    {
      assert stats[i] in stats;
      ChargeIsAbove(e.rate, Size(e, stats[i]));
      hide Size, Price;
    }
    hide Panics, Passes, Pay;
  }

  lemma ChargeIsAbove(rate: int, size: int)
    requires 0 <= rate < GIGABYTE && -1 <= size
    ensures -GIGABYTE < rate * size
  {
    if size == -1 {
    } else {
      assert 0 <= rate * size;
    }
  }

  /** With a stored average of -1, as the container contract can come to, a rate of 2^30 makes the whole
      settlement panic, and one less overcharges by more than a unit. */
  lemma NegativeSizePanics(m: Ledger, owner: Address, e: Env, b: Billed)
    requires Real(owner) && Real(b.account) && Payable(e, b)
    requires e.epoch == 6 && Billing.IsLog([Billing.QUIET, Billing.RISE, Billing.AGAIN, Billing.FALL])
    requires b.stat == Billing.Fold([Billing.QUIET, Billing.RISE, Billing.AGAIN, Billing.FALL])
    ensures Size(e, b) == -1
    ensures Pay(m, owner, e.(rate := GIGABYTE), [b]).Fault?
    ensures Price(GIGABYTE - 1, Size(e, b)) == 1
    ensures GIGABYTE * Price(GIGABYTE - 1, Size(e, b)) - (GIGABYTE - 1) * Size(e, b) > GIGABYTE
  {
    Billing.PickBelowZero();
    hide Billing.Fold, Billing.Pick;
    var dear := e.(rate := GIGABYTE);
    assert Size(dear, b) == -1 && Payable(dear, b);
    PayHead(m, owner, dear, [b]);
  }
}
