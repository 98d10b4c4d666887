/** The token ledger of the balance contract (contracts/balance/contract.go): account entries,
    the transfer rule, and the unlocking of expired lock accounts. */
module Accounts {
  import opened Storage
  import opened Varint

  type Address = seq<Byte>

  const HASH160_LEN := 20

  datatype Account = Account(balance: int, until: int, parent: Address)

  type Ledger = map<Address, Account>

  const EMPTY := Account(0, 0, [])

  datatype Error =
    | NoAlphabetWitness | NegativeAmount | CannotTransfer | CannotLock | NegativeSupply
    | InvalidContainerId | ContainerNotFound | InvalidAccount

  /** A proper 20-byte script hash. Nothing but these is ever credited or debited. */
  predicate Real(a: Address) {
    |a| == HASH160_LEN
  }

  function GetAccount(m: Ledger, a: Address): Account {
    if a in m then m[a] else EMPTY
  }

  function BalanceOf(m: Ledger, a: Address): int {
    GetAccount(m, a).balance
  }

  function Held(a: Address, acc: Account): int {
    acc.balance
  }

  ghost function Total(m: Ledger): int {
    Sum(m, Held)
  }

  ghost predicate NonNegative(m: Ledger) {
    forall a :: a in m ==> 0 <= m[a].balance
  }

  // ---- transfer ----

  /** The paying account if the transfer is allowed. Without the alphabet's authority both ends must
      be proper hashes and the sender must have signed or be the caller (`usable`); with it, an empty
      sender stands for money coming from outside. */
  function CanTransfer(m: Ledger, from: Address, to: Address, amount: int, innerRing: bool, usable: bool): Option<Account> {
    if !innerRing && (!Real(to) || !(Real(from) && usable)) then None
    else if innerRing && from == [] then Some(EMPTY)
    else if BalanceOf(m, from) < amount then None
    else Some(GetAccount(m, from))
  }

  /** The debit: an account emptied by it disappears, with its lock. */
  function Debit(m: Ledger, from: Address, amount: int): Ledger {
    if !Real(from) then m
    else if BalanceOf(m, from) == amount then m - {from}
    else m[from := GetAccount(m, from).(balance := BalanceOf(m, from) - amount)]
  }

  function Credit(m: Ledger, to: Address, amount: int): Ledger {
    if !Real(to) then m else m[to := GetAccount(m, to).(balance := BalanceOf(m, to) + amount)]
  }

  /** The new ledger and whether anything was transferred. */
  function Transfer(m: Ledger, from: Address, to: Address, amount: int, innerRing: bool, usable: bool): Result<(Ledger, bool), Error> {
    if amount < 0 then Fault(NegativeAmount)
    else if CanTransfer(m, from, to, amount, innerRing, usable).None? then Ok((m, false))
    else Ok((Credit(Debit(m, from, amount), to, amount), true))
  }

  function Part(a: Address, amount: int): int {
    if Real(a) then amount else 0
  }

  /** A transfer changes the total by what reaches a proper receiver less what leaves a proper sender;
      no balance other than these two changes, and a transfer to oneself changes none. */
  lemma TransferMoves(m: Ledger, from: Address, to: Address, amount: int, innerRing: bool, usable: bool)
    requires Transfer(m, from, to, amount, innerRing, usable).Ok?
    requires Transfer(m, from, to, amount, innerRing, usable).value.1
    ensures var after := Transfer(m, from, to, amount, innerRing, usable).value.0;
      && Total(after) == Total(m) + Part(to, amount) - Part(from, amount)
      && (forall a :: BalanceOf(after, a) == BalanceOf(m, a)
            + (if a == to then Part(to, amount) else 0) - (if a == from then Part(from, amount) else 0))
      && (forall a :: a != from && a != to ==> (a in after <==> a in m) && GetAccount(after, a) == GetAccount(m, a))
      && (NonNegative(m) ==> NonNegative(after))
  {
    var paid := Debit(m, from, amount);
    if Real(from) {
      if BalanceOf(m, from) == amount {
        SumDelete(m, from, Held);
      } else {
        SumPut(m, from, GetAccount(m, from).(balance := BalanceOf(m, from) - amount), Held);
      }
    }
    if Real(to) {
      SumPut(paid, to, GetAccount(paid, to).(balance := BalanceOf(paid, to) + amount), Held);
    }
  }

  /** When exactly the total survives. */
  lemma TransferKeepsTotalIff(m: Ledger, from: Address, to: Address, amount: int, innerRing: bool, usable: bool)
    requires Transfer(m, from, to, amount, innerRing, usable).Ok?
    requires Transfer(m, from, to, amount, innerRing, usable).value.1
    ensures Total(Transfer(m, from, to, amount, innerRing, usable).value.0) == Total(m)
       <==> amount == 0 || (Real(from) <==> Real(to))
  {
    TransferMoves(m, from, to, amount, innerRing, usable);
  }

  // ---- unlocking ----

  predicate ExpiredLock(a: Address, acc: Account, epoch: int) {
    Real(a) && acc.until != 0 && acc.until <= epoch
  }

  predicate Expired(m: Ledger, a: Address, epoch: int) {
    a in m && ExpiredLock(a, m[a], epoch)
  }

  /** What the loop does with one visited address. */
  function Unlock(m: Ledger, a: Address, epoch: int): Result<Ledger, Error> {
    if !Expired(m, a, epoch) then Ok(m) else
      match Transfer(m, a, m[a].parent, m[a].balance, true, false)
      case Fault(e) => Fault(e)
      case Ok(r) => Ok(r.0)
  }

  /** The loop over the addresses found when it started, in whatever order they come. */
  function UnlockAll(m: Ledger, order: seq<Address>, epoch: int): Result<Ledger, Error>
    decreases |order|
  {
    if order == [] then Ok(m) else
      match Unlock(m, order[0], epoch)
      case Fault(e) => Fault(e)
      case Ok(after) => UnlockAll(after, order[1..], epoch)
  }

  /** How far a run of the loop has come: `start` is the ledger it began with, `now` the current one,
      `rest` the addresses still to visit. */
  ghost predicate Unlocking(start: Ledger, now: Ledger, rest: seq<Address>, epoch: int) {
    && NonNegative(now)
    // expired locks: as they were (but for money received) until visited, then gone or plain
    && (forall a :: Expired(start, a, epoch) ==>
          if a in rest then a in now && now[a].until == start[a].until && now[a].parent == start[a].parent
          else a in now ==> now[a].until == 0)
    // other accounts keep their lock and only gain
    && (forall a :: a in start && !Expired(start, a, epoch) ==>
          a in now && now[a].until == start[a].until && now[a].parent == start[a].parent && start[a].balance <= now[a].balance)
    && (forall a :: a in now && a !in start ==> now[a].until == 0)
    // nobody but expired locks and their parents is touched
    && (forall a :: !Expired(start, a, epoch) && !(exists b :: Expired(start, b, epoch) && start[b].parent == a) ==>
          (a in now <==> a in start) && GetAccount(now, a) == GetAccount(start, a))
  }

  ghost predicate NoRepeats(s: seq<Address>) {
    forall i, j :: 0 <= i < j < |s| ==> s[i] != s[j]
  }

  lemma UnlockStep(start: Ledger, now: Ledger, rest: seq<Address>, epoch: int)
    requires rest != [] && NoRepeats(rest) && Unlocking(start, now, rest, epoch)
    ensures Unlock(now, rest[0], epoch).Ok?
    ensures Unlocking(start, Unlock(now, rest[0], epoch).value, rest[1..], epoch)
  {
    var a := rest[0];
    assert a !in rest[1..];
    assert forall b :: b in rest <==> b == a || b in rest[1..];
    if Expired(now, a, epoch) {
      assert Expired(start, a, epoch);
      TransferMoves(now, a, now[a].parent, now[a].balance, true, false);
    } else {
      assert !Expired(start, a, epoch);
    }
  }

  lemma {:induction false} UnlockRun(start: Ledger, now: Ledger, rest: seq<Address>, epoch: int)
    requires NoRepeats(rest) && Unlocking(start, now, rest, epoch)
    ensures UnlockAll(now, rest, epoch).Ok?
    ensures Unlocking(start, UnlockAll(now, rest, epoch).value, [], epoch)
    decreases |rest|
  {
    if rest != [] {
      UnlockStep(start, now, rest, epoch);
      UnlockRun(start, Unlock(now, rest[0], epoch).value, rest[1..], epoch);
    }
  }

  /** `order` is what an iterator over all accounts yields. */
  ghost predicate Lists(order: seq<Address>, m: Ledger) {
    NoRepeats(order) && forall a :: a in order <==> a in m
  }

  /** After the loop no lock with 0 < until <= epoch is left, in whatever order the accounts were
      visited; only expired locks and their parents were touched, and no other account lost money or
      its own lock. */
  lemma UnlockLeavesNoExpiredLock(m: Ledger, order: seq<Address>, epoch: int)
    requires NonNegative(m) && Lists(order, m)
    ensures UnlockAll(m, order, epoch).Ok?
    ensures var after := UnlockAll(m, order, epoch).value;
      && Unlocking(m, after, [], epoch)
      && forall a :: !Expired(after, a, epoch)
  {
    UnlockRun(m, m, order, epoch);
  }

  ghost predicate ParentsReal(m: Ledger, epoch: int) {
    forall a :: Expired(m, a, epoch) ==> Real(m[a].parent)
  }

  /** Unlocking moves money, it neither makes nor loses any, also where a parent is itself a lock. */
  lemma {:induction false} UnlockKeepsTotal(m: Ledger, order: seq<Address>, epoch: int)
    requires ParentsReal(m, epoch) && UnlockAll(m, order, epoch).Ok?
    ensures Total(UnlockAll(m, order, epoch).value) == Total(m)
    decreases |order|
  {
    if order != [] {
      if Expired(m, order[0], epoch) {
        TransferMoves(m, order[0], m[order[0]].parent, m[order[0]].balance, true, false);
      }
      UnlockKeepsTotal(Unlock(m, order[0], epoch).value, order[1..], epoch);
    }
  }

  // ---- locks within locks ----

  /** Where the money of an account ends up when the loop still has the given addresses to visit: a visited
      expired lock passes it on to its parent, whose own turn may still come. */
  function Destination(start: Ledger, order: seq<Address>, epoch: int, a: Address): Address
    decreases |order|
  {
    if order == [] then a
    else if order[0] == a && Expired(start, a, epoch) then Destination(start, order[1..], epoch, start[a].parent)
    else Destination(start, order[1..], epoch, a)
  }

  /** Money on its way to p. */
  function BoundFor(start: Ledger, order: seq<Address>, epoch: int, p: Address): (Address, Account) -> int {
    (a: Address, acc: Account) => if Destination(start, order, epoch, a) == p then acc.balance else 0
  }

  lemma {:induction false} DestinationStays(start: Ledger, order: seq<Address>, epoch: int, a: Address)
    requires !Expired(start, a, epoch)
    ensures Destination(start, order, epoch, a) == a
    decreases |order|
  {
    if order != [] {
      DestinationStays(start, order[1..], epoch, a);
    }
  }

  /** The visit of an address matters only for the money of an expired lock there. */
  lemma BoundAsBefore(start: Ledger, rest: seq<Address>, epoch: int, p: Address, m: Ledger)
    requires rest != [] && (rest[0] !in m || !Expired(start, rest[0], epoch))
    ensures Sum(m, BoundFor(start, rest, epoch, p)) == Sum(m, BoundFor(start, rest[1..], epoch, p))
  {
    var f, g := BoundFor(start, rest, epoch, p), BoundFor(start, rest[1..], epoch, p);
    hide Sum;
    forall x
      ensures Entry(m, x, f) == Entry(m, x, g)
    {
      if x in m {
        assert Destination(start, rest, epoch, x) == Destination(start, rest[1..], epoch, x);
      }
    }
    SumAgrees(m, m, f, g);
  }

  /** An expired lock is visited: its money goes on towards where its parent's goes. */
  lemma LockMoves(start: Ledger, now: Ledger, rest: seq<Address>, epoch: int, p: Address)
    requires rest != [] && Real(p) && Expired(start, rest[0], epoch) && Expired(now, rest[0], epoch)
    requires now[rest[0]].parent == start[rest[0]].parent && 0 <= now[rest[0]].balance
    ensures Unlock(now, rest[0], epoch).Ok?
    ensures Sum(Unlock(now, rest[0], epoch).value, BoundFor(start, rest[1..], epoch, p)) == Sum(now, BoundFor(start, rest, epoch, p))
  {
    var a := rest[0];
    var q, paid := now[a].parent, now - {a};
    SumDelete(now, a, BoundFor(start, rest, epoch, p));
    BoundAsBefore(start, rest, epoch, p, paid);
    assert Real(a) && Debit(now, a, now[a].balance) == paid;
    if Real(q) {
      SumPut(paid, q, GetAccount(paid, q).(balance := BalanceOf(paid, q) + now[a].balance), BoundFor(start, rest[1..], epoch, p));
    } else {
      DestinationStays(start, rest[1..], epoch, q);
    }
    hide Sum;
  }

  lemma UnlockStepMoves(start: Ledger, now: Ledger, rest: seq<Address>, epoch: int, p: Address)
    requires rest != [] && NoRepeats(rest) && Unlocking(start, now, rest, epoch) && Real(p)
    ensures Unlock(now, rest[0], epoch).Ok?
    ensures Sum(Unlock(now, rest[0], epoch).value, BoundFor(start, rest[1..], epoch, p)) == Sum(now, BoundFor(start, rest, epoch, p))
  {
    hide Sum, BoundFor;
    VisitedLock(start, now, rest, epoch);
    if Expired(start, rest[0], epoch) {
      LockMoves(start, now, rest, epoch, p);
    } else {
      BoundAsBefore(start, rest, epoch, p, now);
    }
  }

  lemma VisitedLock(start: Ledger, now: Ledger, rest: seq<Address>, epoch: int)
    requires rest != [] && Unlocking(start, now, rest, epoch)
    ensures Expired(now, rest[0], epoch) <==> Expired(start, rest[0], epoch)
    ensures Expired(start, rest[0], epoch) ==> now[rest[0]].parent == start[rest[0]].parent && 0 <= now[rest[0]].balance
  {
    assert rest[0] in rest;
  }

  lemma {:induction false} UnlockRunMoves(start: Ledger, now: Ledger, rest: seq<Address>, epoch: int, p: Address)
    requires NoRepeats(rest) && Unlocking(start, now, rest, epoch) && Real(p)
    ensures UnlockAll(now, rest, epoch).Ok?
    ensures Sum(UnlockAll(now, rest, epoch).value, BoundFor(start, [], epoch, p)) == Sum(now, BoundFor(start, rest, epoch, p))
    decreases |rest|
  {
    if rest != [] {
      UnlockStepMoves(start, now, rest, epoch, p);
      UnlockStep(start, now, rest, epoch);
      UnlockRunMoves(start, Unlock(now, rest[0], epoch).value, rest[1..], epoch, p);
    }
  }

  lemma BoundAtEnd(start: Ledger, m: Ledger, epoch: int, p: Address)
    ensures Sum(m, BoundFor(start, [], epoch, p)) == BalanceOf(m, p)
  {
    SumDelete(m, p, BoundFor(start, [], epoch, p));
    SumWorthless(m - {p}, BoundFor(start, [], epoch, p));
  }

  /** Whatever the order and however locks are nested, after the loop every proper account holds exactly the
      money whose way through the visited locks ends there. */
  lemma UnlockDelivers(m: Ledger, order: seq<Address>, epoch: int, p: Address)
    requires NonNegative(m) && Lists(order, m) && Real(p)
    ensures UnlockAll(m, order, epoch).Ok?
    ensures BalanceOf(UnlockAll(m, order, epoch).value, p) == Sum(m, BoundFor(m, order, epoch, p))
  {
    UnlockRunMoves(m, m, order, epoch, p);
    BoundAtEnd(m, UnlockAll(m, order, epoch).value, epoch, p);
  }

  // ---- when it reaches the owners ----

  /** Each expired lock is visited before the expired lock that it belongs to. */
  ghost predicate ChildrenFirst(m: Ledger, order: seq<Address>, epoch: int) {
    forall i, j :: 0 <= i <= j < |order| && Expired(m, order[i], epoch) && Expired(m, order[j], epoch)
      ==> m[order[j]].parent != order[i]
  }

  /** The first account on the way up from a, in at most n steps, that is no expired lock. */
  function Owner(m: Ledger, epoch: int, a: Address, n: nat): Address
    decreases n
  {
    if n == 0 || !Expired(m, a, epoch) then a else Owner(m, epoch, m[a].parent, n - 1)
  }

  lemma {:induction false} OwnerSettles(m: Ledger, epoch: int, a: Address, n: nat)
    requires !Expired(m, Owner(m, epoch, a, n), epoch)
    ensures Owner(m, epoch, a, n + 1) == Owner(m, epoch, a, n)
    decreases n
  {
    if 0 < n && Expired(m, a, epoch) {
      OwnerSettles(m, epoch, m[a].parent, n - 1);
    }
  }

  /** With i addresses visited, whatever is at an expired lock that is still to come gets to its owner. */
  lemma {:induction false} ReachesOwner(m: Ledger, order: seq<Address>, epoch: int, i: nat, a: Address)
    requires ChildrenFirst(m, order, epoch) && i <= |order|
    requires forall b :: Expired(m, b, epoch) ==> b in order
    requires Expired(m, a, epoch) ==> a in order[i..]
    ensures Destination(m, order[i..], epoch, a) == Owner(m, epoch, a, |order| - i)
    ensures !Expired(m, Destination(m, order[i..], epoch, a), epoch)
    decreases |order| - i
  {
    if i < |order| && Expired(m, a, epoch) {
      assert order[i..][1..] == order[i + 1..];
      if order[i] == a {
        var q := m[a].parent;
        if Expired(m, q, epoch) {
          var j :| 0 <= j < |order| && order[j] == q;
          assert i < j;
          assert order[i + 1..][j - i - 1] == q;
        }
        ReachesOwner(m, order, epoch, i + 1, q);
      } else {
        ReachesOwner(m, order, epoch, i + 1, a);
        OwnerSettles(m, epoch, a, |order| - i - 1);
      }
    } else {
      DestinationStays(m, order[i..], epoch, a);
    }
  }

  lemma {:induction false} DestinationOfVisited(m: Ledger, order: seq<Address>, epoch: int, a: Address)
    requires a !in order
    ensures Destination(m, order, epoch, a) == a
    decreases |order|
  {
    if order != [] {
      assert order[0] in order;
      DestinationOfVisited(m, order[1..], epoch, a);
    }
  }

  /** Money of a lock visited at j goes to the lock's parent and no further if that has had its turn. */
  lemma {:induction false} StaysWithVisited(m: Ledger, order: seq<Address>, epoch: int, i: nat, j: nat)
    requires NoRepeats(order) && i <= j < |order| && Expired(m, order[j], epoch)
    requires m[order[j]].parent !in order[j + 1..]
    ensures Destination(m, order[i..], epoch, order[j]) == m[order[j]].parent
    decreases j - i
  {
    assert order[i..][1..] == order[i + 1..];
    if i == j {
      DestinationOfVisited(m, order[i + 1..], epoch, m[order[j]].parent);
    } else {
      StaysWithVisited(m, order, epoch, i + 1, j);
    }
  }

  /** No money of an expired lock ends at an expired lock, exactly if each is visited before the one it
      belongs to; then all of it reaches the first account above that is no expired lock. */
  lemma UnlockReachesOwnersIff(m: Ledger, order: seq<Address>, epoch: int)
    requires Lists(order, m)
    ensures (forall a :: Expired(m, a, epoch) ==> !Expired(m, Destination(m, order, epoch, a), epoch)) <==> ChildrenFirst(m, order, epoch)
    ensures ChildrenFirst(m, order, epoch) ==> forall a :: Destination(m, order, epoch, a) == Owner(m, epoch, a, |order|)
  {
    assert order[0..] == order;
    if ChildrenFirst(m, order, epoch) {
      forall a
        ensures Destination(m, order, epoch, a) == Owner(m, epoch, a, |order|)
        ensures !Expired(m, Destination(m, order, epoch, a), epoch)
      {
        ReachesOwner(m, order, epoch, 0, a);
      }
    } else {
      var i, j :| 0 <= i <= j < |order| && Expired(m, order[i], epoch) && Expired(m, order[j], epoch)
                  && m[order[j]].parent == order[i];
      forall k | j + 1 <= k < |order|
        ensures order[k] != order[i]
      {
      }
      StaysWithVisited(m, order, epoch, 0, j);
    }
  }

  /** Money whose owner, locks being nested as they may, is p. */
  function OwnedBy(m: Ledger, epoch: int, n: nat, p: Address): (Address, Account) -> int {
    (a: Address, acc: Account) => if Owner(m, epoch, a, n) == p then acc.balance else 0
  }

  /** Visited locks before their parents, every account holds all that was its own, directly or in expired
      locks within locks, after the loop. */
  lemma UnlockPaysOwners(m: Ledger, order: seq<Address>, epoch: int, p: Address)
    requires NonNegative(m) && Lists(order, m) && Real(p) && ChildrenFirst(m, order, epoch)
    ensures UnlockAll(m, order, epoch).Ok?
    ensures BalanceOf(UnlockAll(m, order, epoch).value, p) == Sum(m, OwnedBy(m, epoch, |order|, p))
  {
    UnlockDelivers(m, order, epoch, p);
    UnlockReachesOwnersIff(m, order, epoch);
    hide UnlockAll, ChildrenFirst, Lists, Owner, Destination;
    SumAgrees(m, m, BoundFor(m, order, epoch, p), OwnedBy(m, epoch, |order|, p));
  }

  /** A lock within a lock, both expired: money visited outer lock first stays at the outer lock's address,
      visited inner lock first it reaches the owner. */
  lemma OrderMatters(a: Address, b: Address, p: Address)
    requires Real(a) && Real(b) && Real(p) && a != b && a != p && b != p
    ensures var m := map[a := Account(7, 1, b), b := Account(5, 1, p)];
      && UnlockAll(m, [b, a], 1) == Ok(map[p := Account(5, 0, []), b := Account(7, 0, [])])
      && UnlockAll(m, [a, b], 1) == Ok(map[p := Account(12, 0, [])])
  {
    var m := map[a := Account(7, 1, b), b := Account(5, 1, p)];
    var outer, inner := map[a := Account(7, 1, b), p := Account(5, 0, [])], map[b := Account(12, 1, p)];
    var late, done := map[p := Account(5, 0, []), b := Account(7, 0, [])], map[p := Account(12, 0, [])];
    hide UnlockAll;
    UnlocksTo(m, b, outer);
    UnlocksTo(outer, a, late);
    UnlocksTo(m, a, inner);
    UnlocksTo(inner, b, done);
    UnlockTwo(m, b, a, outer, late);
    UnlockTwo(m, a, b, inner, done);
  }

  lemma UnlocksTo(m: Ledger, a: Address, after: Ledger)
    requires Expired(m, a, 1) && Real(m[a].parent) && m[a].parent != a && 0 <= m[a].balance
    requires after == (m - {a})[m[a].parent := GetAccount(m, m[a].parent).(balance := BalanceOf(m, m[a].parent) + m[a].balance)]
    ensures Unlock(m, a, 1) == Ok(after)
  {
    assert Debit(m, a, m[a].balance) == m - {a};
  }

  lemma UnlockTwo(m: Ledger, a: Address, b: Address, mid: Ledger, after: Ledger)
    requires Unlock(m, a, 1) == Ok(mid) && Unlock(mid, b, 1) == Ok(after)
    ensures UnlockAll(m, [a, b], 1) == Ok(after)
  {
    hide Unlock;
    assert [a, b][1..] == [b] && [b][1..] == [];
    assert UnlockAll(mid, [b], 1) == UnlockAll(after, [], 1);
  }
}
