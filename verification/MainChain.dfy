/** The decisions of the main-chain contract that alphabet nodes vote on when notary is disabled
    (contracts/neofs/contract.go): paying a cheque, replacing the alphabet list, setting a
    configuration value. All three share one ballot list. */
module MainChain {
  import opened Storage
  import opened Ballots

  const PUBLIC_KEY_LEN := 33

  datatype Request =
    | Cheque(user: Bytes, amount: int, lockAcc: Bytes)
    | AlphabetUpdate(keys: seq<Bytes>)
    | SetConfig(key: Bytes, val: Bytes)

  datatype Error = NotAlphabet | NoAlphabetWitness | BadArguments | InvalidPublicKey | TransferFailed

  /** What the chain supplies to a call: which keys witnessed it, whether the alphabet's
      multi-signature did, the current block, and whether GAS would accept the transfer. */
  datatype Env = Env(witnesses: set<Bytes>, multisig: bool, height: int, gasTransfers: bool)

  datatype State = State(notaryDisabled: bool, alphabet: seq<Bytes>, ballots: seq<Ballot>,
                         config: map<Bytes, Bytes>, performed: seq<(Bytes, Request)>)

  function Threshold(alphabet: seq<Bytes>): nat {
    |alphabet| * 2 / 3 + 1
  }

  /** First alphabet key that witnessed the call; empty when there is none. */
  function Invoker(alphabet: seq<Bytes>, witnesses: set<Bytes>): (key: Bytes)
    ensures (key in alphabet && key in witnesses) || key == []
    ensures (forall k :: k in alphabet ==> k !in witnesses) ==> key == []
  {
    if alphabet == [] then []
    else if alphabet[0] in witnesses then alphabet[0]
    else Invoker(alphabet[1..], witnesses)
  }

  // ---- the rules as functions of the state ----

  /** Checks made before anything is voted on. `SetConfig` tests its argument where the other two
      test the voter, so it lets a call that no alphabet node witnessed vote with an empty key. */
  function Refusal(s: State, r: Request, e: Env): Option<Error> {
    var missing := if r.SetConfig? then r.key == [] else Invoker(s.alphabet, e.witnesses) == [];
    if r.AlphabetUpdate? && r.keys == [] then Some(BadArguments)
    else if s.notaryDisabled && missing then Some(NotAlphabet)
    else if !s.notaryDisabled && !e.multisig then Some(NoAlphabetWitness)
    else if r.AlphabetUpdate? && exists k :: k in r.keys && |k| != PUBLIC_KEY_LEN then Some(InvalidPublicKey)
    else None
  }

  /** The ballots after this call's vote and whether the decision is accepted now. */
  function Ask(s: State, id: Bytes, e: Env): (seq<Ballot>, bool) {
    var (after, n) := Tally(s.ballots, id, Invoker(s.alphabet, e.witnesses), e.height);
    if n < Threshold(s.alphabet) then (after, false)
    else (Without(after, Index(after, id)), true)
  }

  function Perform(s: State, id: Bytes, r: Request): State {
    var done := s.(performed := s.performed + [(id, r)]);
    match r
    case Cheque(_, _, _) => done
    case AlphabetUpdate(keys) => done.(alphabet := keys)
    case SetConfig(key, val) => done.(config := s.config[key := val])
  }

  function Call(s: State, id: Bytes, r: Request, e: Env): Result<State, Error> {
    match Refusal(s, r, e)
    case Some(error) => Fault(error)
    case None =>
      var (ballots, accepted) := if s.notaryDisabled then Ask(s, id, e) else (s.ballots, true);
      if !accepted then Ok(s.(ballots := ballots))
      else if r.Cheque? && !e.gasTransfers then Fault(TransferFailed)
      else Ok(Perform(s.(ballots := ballots), id, r))
  }

  // ---- the contract ----

  class NeoFS {
    const notaryDisabled: bool
    const box: BallotBox
    var alphabet: seq<Bytes>
    var config: map<Bytes, Bytes>
    var performed: seq<(Bytes, Request)>

    constructor (notaryDisabled: bool, keys: seq<Bytes>)
      requires keys != [] && forall k :: k in keys ==> |k| == PUBLIC_KEY_LEN
      ensures fresh(box) && Valid(box.ballots)
      ensures Now() == State(notaryDisabled, keys, [], map[], [])
    {
      this.notaryDisabled := notaryDisabled;
      box := new BallotBox();
      alphabet := keys;
      config := map[];
      performed := [];
    }

    function Now(): State
      reads this, box
    {
      State(notaryDisabled, alphabet, box.ballots, config, performed)
    }

    method FindInvoker(witnesses: set<Bytes>) returns (key: Bytes)
      ensures key == Invoker(alphabet, witnesses)
    {
      assert alphabet[0..] == alphabet;
      for i := 0 to |alphabet|
        invariant Invoker(alphabet, witnesses) == Invoker(alphabet[i..], witnesses)
      {
        assert alphabet[i..][0] == alphabet[i] && alphabet[i..][1..] == alphabet[i + 1..];
        if alphabet[i] in witnesses {
          return alphabet[i];
        }
      }
      return [];
    }

    /** Casts the vote and, once it reaches the threshold, removes the ballot. */
    method Collect(id: Bytes, nodeKey: Bytes, e: Env) returns (accepted: bool)
      requires Valid(box.ballots) && nodeKey == Invoker(alphabet, e.witnesses)
      modifies box
      ensures Valid(box.ballots)
      ensures (box.ballots, accepted) == Ask(old(Now()), id, e)
    {
      var threshold := |alphabet| * 2 / 3 + 1;
      TallyMeaning(box.ballots, id, nodeKey, e.height);
      var n := box.Vote(id, nodeKey, e.height);
      if n < threshold {
        return false;
      }
      box.RemoveVotes(id);
      return true;
    }

    method PayCheque(id: Bytes, user: Bytes, amount: int, lockAcc: Bytes, e: Env) returns (r: Result<(), Error>)
      requires Valid(box.ballots)
      modifies this, box
      ensures Valid(box.ballots)
      ensures Obeys(old(Now()), id, Cheque(user, amount, lockAcc), e, Now(), r)
    {
      var nodeKey := [];
      if notaryDisabled {
        nodeKey := FindInvoker(e.witnesses);
        if |nodeKey| == 0 {
          return Fault(NotAlphabet);
        }
      } else if !e.multisig {
        return Fault(NoAlphabetWitness);
      }
      var before := box.ballots;
      if notaryDisabled {
        var accepted := Collect(id, nodeKey, e);
        if !accepted {
          return Ok(());
        }
      }
      if !e.gasTransfers {
        box.ballots := before;  // the VM undoes the vote together with the rest of the call
        return Fault(TransferFailed);
      }
      performed := performed + [(id, Cheque(user, amount, lockAcc))];
      return Ok(());
    }

    method CheckKeys(args: seq<Bytes>) returns (newAlphabet: Option<seq<Bytes>>)
      ensures newAlphabet == if forall k :: k in args ==> |k| == PUBLIC_KEY_LEN then Some(args) else None
    {
      var keys: seq<Bytes> := [];
      for i := 0 to |args|
        invariant keys == args[..i]
        invariant forall k :: k in args[..i] ==> |k| == PUBLIC_KEY_LEN
      {
        if |args[i]| != PUBLIC_KEY_LEN {
          return None;
        }
        keys := keys + [args[i]];
      }
      assert args[..|args|] == args;
      return Some(keys);
    }

    method UpdateAlphabet(id: Bytes, args: seq<Bytes>, e: Env) returns (r: Result<(), Error>)
      requires Valid(box.ballots)
      modifies this, box
      ensures Valid(box.ballots)
      ensures Obeys(old(Now()), id, AlphabetUpdate(args), e, Now(), r)
    {
      if |args| == 0 {
        return Fault(BadArguments);
      }
      var nodeKey := [];
      if notaryDisabled {
        nodeKey := FindInvoker(e.witnesses);
        if |nodeKey| == 0 {
          return Fault(NotAlphabet);
        }
      } else if !e.multisig {
        return Fault(NoAlphabetWitness);
      }
      var newAlphabet := CheckKeys(args);
      if newAlphabet.None? {
        return Fault(InvalidPublicKey);
      }
      if notaryDisabled {
        var accepted := Collect(id, nodeKey, e);
        if !accepted {
          return Ok(());
        }
      }
      alphabet := newAlphabet.value;
      performed := performed + [(id, AlphabetUpdate(args))];
      return Ok(());
    }

    method PutConfig(id: Bytes, key: Bytes, val: Bytes, e: Env) returns (r: Result<(), Error>)
      requires Valid(box.ballots)
      modifies this, box
      ensures Valid(box.ballots)
      ensures Obeys(old(Now()), id, SetConfig(key, val), e, Now(), r)
    {
      var nodeKey := [];
      if notaryDisabled {
        nodeKey := FindInvoker(e.witnesses);
        if |key| == 0 {
          return Fault(NotAlphabet);
        }
      } else if !e.multisig {
        return Fault(NoAlphabetWitness);
      }
      if notaryDisabled {
        var accepted := Collect(id, nodeKey, e);
        if !accepted {
          return Ok(());
        }
      }
      config := config[key := val];
      performed := performed + [(id, SetConfig(key, val))];
      return Ok(());
    }
  }

  /** The call did what the rules say; a failed one left everything as it was. */
  ghost predicate Obeys(before: State, id: Bytes, r: Request, e: Env, after: State, outcome: Result<(), Error>) {
    match Call(before, id, r, e)
    case Fault(error) => outcome == Fault(error) && after == before
    case Ok(s) => outcome == Ok(()) && after == s
  }
}
