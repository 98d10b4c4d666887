/** Whose calls the main-chain contract (contracts/neofs/contract.go) obeys and what it then stores: with the
    alphabet's multi-signature at once, without notary once enough nodes have voted. */
module MainChainPowers {
  import opened Storage
  import opened Ballots
  import opened MainChain
  import opened MainChainRuns

  /** Two thirds of the list, rounded down, and one. */
  lemma ThresholdIs(alphabet: seq<Bytes>)
    ensures 2 * |alphabet| < 3 * Threshold(alphabet) <= 2 * |alphabet| + 3
  {
  }

  /** The voter of a call is the first node on the list that witnessed it, or nobody. */
  lemma {:induction false} VoterIsFirst(alphabet: seq<Bytes>, witnesses: set<Bytes>, i: nat)
    requires i < |alphabet| && alphabet[i] in witnesses && forall j :: 0 <= j < i ==> alphabet[j] !in witnesses
    ensures Invoker(alphabet, witnesses) == alphabet[i]
  {
    if 0 < i {
      assert alphabet[0] !in witnesses;
      VoterIsFirst(alphabet[1..], witnesses, i - 1);
    }
  }

  /** A call with arguments that can be carried out: a list of proper keys that is not empty; for a cheque,
      money that GAS transfers. */
  predicate Feasible(r: Request, e: Env) {
    match r
    case Cheque(_, _, _) => e.gasTransfers
    case AlphabetUpdate(keys) => keys != [] && forall k :: k in keys ==> |k| == 33
    case SetConfig(_, _) => true
  }

  /** The request has been carried out. */
  ghost predicate Done(s: State, t: State, id: Bytes, r: Request) {
    && t.performed == s.performed + [(id, r)]
    && t.notaryDisabled == s.notaryDisabled
    && t.alphabet == (if r.AlphabetUpdate? then r.keys else s.alphabet)
    && t.config == (if r.SetConfig? then s.config[r.key := r.val] else s.config)
  }

  /** With notary a call goes through exactly with the alphabet's multi-signature, and is carried out at once. */
  lemma WithNotaryIff(s: State, id: Bytes, r: Request, e: Env)
    requires !s.notaryDisabled
    ensures Call(s, id, r, e).Ok? <==> e.multisig && Feasible(r, e)
    ensures Call(s, id, r, e).Ok? ==> Done(s, Call(s, id, r, e).value, id, r) && Call(s, id, r, e).value.ballots == s.ballots
  {
    hide Invoker, Ask;
  }

  /** Who has voted for a decision within the last twenty blocks since the one before. */
  function VotersNow(bs: seq<Ballot>, id: Bytes, height: int): set<Bytes> {
    var b := Lookup(bs, id);
    if b.Some? && height - b.value.height <= 20 then set v | v in b.value.voters else {}
  }

  /** Without notary an accepted call is carried out exactly if, with its own, there are votes of two thirds plus
      one; until then it is only counted. It is refused if no node on the list witnessed it, a configuration
      call instead if its key is empty. */
  lemma WithoutNotaryIff(s: State, id: Bytes, r: Request, e: Env)
    requires s.notaryDisabled && Valid(s.ballots)
    requires r.AlphabetUpdate? ==> r.keys != [] && forall k :: k in r.keys ==> |k| == 33
    ensures var voters := VotersNow(s.ballots, id, e.height) + {Invoker(s.alphabet, e.witnesses)};
      var missing := if r.SetConfig? then r.key == [] else Invoker(s.alphabet, e.witnesses) == [];
      var enough := |s.alphabet| * 2 / 3 + 1 <= |voters|;
      && (Call(s, id, r, e).Ok? <==> !missing && (enough ==> Feasible(r, e)))
      && (Call(s, id, r, e).Ok? ==>
            if enough then Done(s, Call(s, id, r, e).value, id, r) && VotersNow(Call(s, id, r, e).value.ballots, id, e.height) == {}
            else Call(s, id, r, e).value == s.(ballots := Call(s, id, r, e).value.ballots)
                 && VotersNow(Call(s, id, r, e).value.ballots, id, e.height) == voters)
  {
    CountIs(s, id, e);
    hide Tally, Valid, Invoker, VotersNow, Without, Index, Lookup;
  }

  lemma CountIs(s: State, id: Bytes, e: Env)
    requires Valid(s.ballots)
    ensures var voters := VotersNow(s.ballots, id, e.height) + {Invoker(s.alphabet, e.witnesses)};
      var (after, done) := Ask(s, id, e);
      && (done <==> |s.alphabet| * 2 / 3 + 1 <= |voters|)
      && VotersNow(after, id, e.height) == if done then {} else voters
  {
    var voter := Invoker(s.alphabet, e.witnesses);
    var (polled, n) := Tally(s.ballots, id, voter, e.height);
    TallyMeaning(s.ballots, id, voter, e.height);
    VotersAre(s.ballots, id, e.height);
    VotersAre(polled, id, e.height);
    PolledIs(s.ballots, id, voter, e.height);
    hide Tally, Invoker, VotersNow;
    if Threshold(s.alphabet) <= n {
      LiveIsStored(polled, id, e.height);
      LookupWithout(polled, Index(polled, id), id);
      NobodyNow(Without(polled, Index(polled, id)), id, e.height);
    }
    hide Valid, Lookup, LiveVoters;
  }

  lemma VotersAre(bs: seq<Ballot>, id: Bytes, height: int)
    ensures VotersNow(bs, id, height) == set v | v in LiveVoters(bs, id, height)
  {
    hide Lookup;
  }

  lemma NobodyNow(bs: seq<Ballot>, id: Bytes, height: int)
    requires Lookup(bs, id).None?
    ensures VotersNow(bs, id, height) == {}
  {
  }

  lemma LiveIsStored(bs: seq<Ballot>, id: Bytes, height: int)
    requires LiveVoters(bs, id, height) != []
    ensures Lookup(bs, id).Some? && Index(bs, id) < |bs| && bs[Index(bs, id)].id == id
  {
    hide Lookup, Index;
  }

  lemma PolledIs(bs: seq<Ballot>, id: Bytes, voter: Bytes, height: int)
    requires Valid(bs)
    ensures var after := Tally(bs, id, voter, height).0;
      && (set v | v in LiveVoters(after, id, height)) == (set v | v in LiveVoters(bs, id, height)) + {voter}
      && LiveVoters(after, id, height) != []
  {
    TallyMeaning(bs, id, voter, height);
    hide Tally, Valid, Lookup;
  }

  // ---- what is stored ----

  /** The value last set for a configuration key by what was carried out. */
  function LastValue(performed: seq<(Bytes, Request)>, key: Bytes): Option<Bytes> {
    if performed == [] then None else
      var r := performed[|performed| - 1].1;
      if r.SetConfig? && r.key == key then Some(r.val) else LastValue(performed[..|performed| - 1], key)
  }

  /** The list last put in place. */
  function LastList(keys: seq<Bytes>, performed: seq<(Bytes, Request)>): seq<Bytes> {
    if performed == [] then keys else
      var r := performed[|performed| - 1].1;
      if r.AlphabetUpdate? then r.keys else LastList(keys, performed[..|performed| - 1])
  }

  /** The state after any calls, with or without notary; a failed call leaves no trace. */
  function After(s: State, calls: seq<Invocation>): State {
    if calls == [] then s else
      var t, c := After(s, calls[..|calls| - 1]), calls[|calls| - 1];
      match Call(t, c.id, c.request, c.env)
      case Fault(_) => t
      case Ok(u) => u
  }

  function Deployed(notaryDisabled: bool, keys: seq<Bytes>): State {
    State(notaryDisabled, keys, [], map[], [])
  }

  /** What was carried out explains what is stored. */
  ghost predicate Explained(s: State, keys: seq<Bytes>) {
    && s.alphabet == LastList(keys, s.performed)
    && forall key :: LastValue(s.performed, key) == if key in s.config then Some(s.config[key]) else None
  }

  lemma StepExplains(s: State, keys: seq<Bytes>, c: Invocation)
    requires Explained(s, keys) && Call(s, c.id, c.request, c.env).Ok?
    ensures Explained(Call(s, c.id, c.request, c.env).value, keys)
  {
    var t := Call(s, c.id, c.request, c.env).value;
    assert (s.performed + [(c.id, c.request)])[..|s.performed|] == s.performed;
    hide Ask, Refusal;
  }

  /** In every run each configuration value is the one last set by a decision that was carried out, and the
      alphabet list the one last decided on. */
  lemma {:induction false} StoredIsDecided(notaryDisabled: bool, keys: seq<Bytes>, calls: seq<Invocation>)
    ensures Explained(After(Deployed(notaryDisabled, keys), calls), keys)
  {
    hide Call, Explained;
    if calls == [] {
      NothingDecided(notaryDisabled, keys);
    } else {
      var init, c := calls[..|calls| - 1], calls[|calls| - 1];
      StoredIsDecided(notaryDisabled, keys, init);
      var s := After(Deployed(notaryDisabled, keys), init);
      if Call(s, c.id, c.request, c.env).Ok? {
        StepExplains(s, keys, c);
      }
    }
  }

  lemma NothingDecided(notaryDisabled: bool, keys: seq<Bytes>)
    ensures Explained(Deployed(notaryDisabled, keys), keys)
  {
  }

  /** With notary: exactly the feasible calls that the alphabet signed have been carried out, in order. */
  function Signed(calls: seq<Invocation>): seq<(Bytes, Request)> {
    if calls == [] then [] else
      var c := calls[|calls| - 1];
      Signed(calls[..|calls| - 1]) + if c.env.multisig && Feasible(c.request, c.env) then [(c.id, c.request)] else []
  }

  lemma {:induction false} SignedIsDone(keys: seq<Bytes>, calls: seq<Invocation>)
    ensures var s := After(Deployed(false, keys), calls); !s.notaryDisabled && s.performed == Signed(calls) && s.ballots == []
  {
    hide Call;
    if calls != [] {
      var init, c := calls[..|calls| - 1], calls[|calls| - 1];
      SignedIsDone(keys, init);
      WithNotaryIff(After(Deployed(false, keys), init), c.id, c.request, c.env);
      assert Signed(init) + [] == Signed(init);
    }
  }

  // ---- what an error says ----

  /** A call that fails says why: whatever the order of the checks, the reason given is true. */
  lemma ErrorsAreTrue(s: State, id: Bytes, r: Request, e: Env)
    requires Call(s, id, r, e).Fault? && ProperKeys(s.alphabet)
    ensures match Call(s, id, r, e).error
      case NotAlphabet =>
        s.notaryDisabled && if r.SetConfig? then r.key == [] else forall k :: k in s.alphabet ==> k !in e.witnesses
      case NoAlphabetWitness => !s.notaryDisabled && !e.multisig
      case BadArguments => r.AlphabetUpdate? && r.keys == []
      case InvalidPublicKey => r.AlphabetUpdate? && exists k :: k in r.keys && |k| != 33
      case TransferFailed => r.Cheque? && !e.gasTransfers
  {
    InvokerFinds(s.alphabet, e.witnesses);
    hide Ask, Invoker;
  }
}
