/** Quorum safety of the decisions voted on, over whole runs: what each one rested on, who the voters were,
    and what it takes to decide again (common/vote.go, contracts/neofs/contract.go). */
module MainChainRuns {
  import opened Storage
  import opened Ballots
  import opened MainChain

  datatype Invocation = Invocation(id: Bytes, request: Request, env: Env)

  /** What an observer notes down, with the alphabet list in force: calls whose vote counted, and calls
      whose decision was taken. */
  datatype Event =
    | Voted(call: Invocation, alphabet: seq<Bytes>)
    | Fired(call: Invocation, alphabet: seq<Bytes>)
  {
    function Voter(): Bytes { Invoker(alphabet, call.env.witnesses) }

    predicate ByMember() { Voter() in alphabet }

    /** A configuration call that no alphabet node witnessed. */
    predicate Unwitnessed() {
      call.request.SetConfig? && forall key :: key in alphabet ==> key !in call.env.witnesses
    }
  }

  datatype World = World(state: State, history: seq<Event>)

  /** The vote as noted, if it counts. */
  function Vote(s: State, c: Invocation): seq<Event> {
    if Invoker(s.alphabet, c.env.witnesses) in LiveVoters(s.ballots, c.id, c.env.height) then []
    else [Voted(c, s.alphabet)]
  }

  function Noted(s: State, c: Invocation): seq<Event> {
    Vote(s, c) + if Ask(s, c.id, c.env).1 then [Fired(c, s.alphabet)] else []
  }

  /** One call; a failed one leaves no trace. */
  function Step(w: World, c: Invocation): World {
    match Call(w.state, c.id, c.request, c.env)
    case Fault(_) => w
    case Ok(s) => World(s, w.history + if s.notaryDisabled then Noted(w.state, c) else [])
  }

  function Run(keys: seq<Bytes>, calls: seq<Invocation>): World {
    if calls == [] then World(State(true, keys, [], map[], []), [])
    else Step(Run(keys, calls[..|calls| - 1]), calls[|calls| - 1])
  }

  // ---- what a decision rests on ----

  /** `idx` lists the noted votes behind a ballot: one for each voter, in order, each at most BLOCK_DIFF
      blocks after the one before, all of them cast after the last time the decision was taken. */
  ghost predicate Evidence(h: seq<Event>, idx: seq<nat>, b: Ballot) {
    && |idx| == |b.voters| && idx != []
    && (forall j :: 0 <= j < |idx| ==> idx[j] < |h| && h[idx[j]].Voted?
                                       && h[idx[j]].call.id == b.id && h[idx[j]].Voter() == b.voters[j])
    && (forall j :: 0 < j < |idx| ==> idx[j - 1] < idx[j]
                                      && h[idx[j]].call.env.height - h[idx[j - 1]].call.env.height <= BLOCK_DIFF)
    && h[idx[|idx| - 1]].call.env.height == b.height
    && (forall k :: idx[0] < k < |h| && h[k].Fired? ==> h[k].call.id != b.id)
  }

  ghost predicate Backed(h: seq<Event>, b: Ballot) {
    exists idx :: Evidence(h, idx, b)
  }

  /** The votes at idx are a quorum for the decision taken at position k: as many votes of distinct voters
      as its alphabet demands, the last of them still live. */
  ghost predicate Quorum(h: seq<Event>, k: nat, idx: seq<nat>, b: Ballot)
    requires k < |h|
  {
    && Evidence(h[..k], idx, b) && b.id == h[k].call.id && Distinct(b.voters)
    && Threshold(h[k].alphabet) <= |b.voters| && h[k].call.env.height - b.height <= BLOCK_DIFF
  }

  ghost predicate Justified(h: seq<Event>, k: nat)
    requires k < |h|
  {
    exists idx, b :: Quorum(h, k, idx, b)
  }

  ghost predicate AllBacked(bs: seq<Ballot>, h: seq<Event>) {
    forall id :: Lookup(bs, id).Some? ==> Backed(h, Lookup(bs, id).value)
  }

  ghost predicate AllJustified(h: seq<Event>) {
    forall k: nat :: k < |h| && h[k].Fired? ==> Justified(h, k)
  }

  ghost predicate Sound(w: World) {
    Valid(w.state.ballots) && AllBacked(w.state.ballots, w.history) && AllJustified(w.history)
  }

  lemma EvidenceExtends(h: seq<Event>, b: Ballot, more: seq<Event>)
    requires Backed(h, b)
    requires forall e :: e in more && e.Fired? ==> e.call.id != b.id
    ensures Backed(h + more, b)
  {
    var idx: seq<nat> :| Evidence(h, idx, b);
    var longer := h + more;
    forall k | idx[0] < k < |longer| && longer[k].Fired?
      ensures longer[k].call.id != b.id
    {
      assert |h| <= k ==> longer[k] in more;
    }
    hide Invoker;
    assert Evidence(longer, idx, b);
  }

  lemma EvidenceAppends(h: seq<Event>, idx: seq<nat>, b: Ballot, vote: Event)
    requires Evidence(h, idx, b) && vote.Voted? && vote.call.id == b.id && vote.call.env.height - b.height <= BLOCK_DIFF
    ensures Evidence(h + [vote], idx + [|h|], Ballot(b.id, b.voters + [vote.Voter()], vote.call.env.height))
  {
    hide Invoker;
    var longer, grown: seq<nat> := h + [vote], idx + [|h|];
    assert longer[|h|] == vote && grown[|idx|] == |h|;
    forall k | grown[0] < k < |longer| && longer[k].Fired?
      ensures longer[k].call.id != b.id
    {
      assert longer[k] == h[k];
    }
  }

  lemma EvidenceGrows(h: seq<Event>, b: Ballot, vote: Event)
    requires Backed(h, b) && vote.Voted? && vote.call.id == b.id && vote.call.env.height - b.height <= BLOCK_DIFF
    ensures Backed(h + [vote], Ballot(b.id, b.voters + [vote.Voter()], vote.call.env.height))
  {
    var idx: seq<nat> :| Evidence(h, idx, b);
    EvidenceAppends(h, idx, b, vote);
  }

  lemma EvidenceStarts(h: seq<Event>, vote: Event)
    requires vote.Voted?
    ensures Backed(h + [vote], Ballot(vote.call.id, [vote.Voter()], vote.call.env.height))
  {
    hide Invoker;
    assert Evidence(h + [vote], [|h|], Ballot(vote.call.id, [vote.Voter()], vote.call.env.height));
  }

  lemma QuorumExtends(h: seq<Event>, k: nat, more: seq<Event>)
    requires k < |h| && Justified(h, k)
    ensures Justified(h + more, k)
  {
    var idx, b :| Quorum(h, k, idx, b);
    assert (h + more)[..k] == h[..k];
    assert Quorum(h + more, k, idx, b);
  }

  lemma JustifiedExtends(h: seq<Event>, more: seq<Event>)
    requires AllJustified(h) && forall e :: e in more ==> e.Voted?
    ensures AllJustified(h + more)
  {
    var longer := h + more;
    assert forall k: nat :: |h| <= k < |longer| ==> longer[k] in more;
    forall k: nat | k < |longer| && longer[k].Fired?
      ensures Justified(longer, k)
    {
      QuorumExtends(h, k, more);
    }
  }

  lemma GrownIsBacked(bs: seq<Ballot>, h: seq<Event>, vote: Event)
    requires AllBacked(bs, h) && vote.Voted?
    ensures var id, height := vote.call.id, vote.call.env.height;
            Backed(h + [vote], Ballot(id, LiveVoters(bs, id, height) + [vote.Voter()], height))
  {
    hide Backed, Invoker;
    var id, height := vote.call.id, vote.call.env.height;
    if LiveBallot(bs, id, height).Some? {
      EvidenceGrows(h, Lookup(bs, id).value, vote);
    } else {
      assert LiveVoters(bs, id, height) + [vote.Voter()] == [vote.Voter()];
      EvidenceStarts(h, vote);
    }
  }

  lemma KeptIsBacked(bs: seq<Ballot>, h: seq<Event>, id: Bytes, height: int, more: seq<Event>)
    requires AllBacked(bs, h) && LiveBallot(bs, id, height).Some?
    requires forall e :: e in more && e.Fired? ==> e.call.id != id
    ensures Backed(h + more, LiveBallot(bs, id, height).value)
  {
    hide Backed;
    EvidenceExtends(h, Lookup(bs, id).value, more);
  }

  lemma TallyLookup(bs: seq<Ballot>, id: Bytes, voter: Bytes, height: int, k: Bytes)
    requires Valid(bs) && voter !in LiveVoters(bs, id, height)
    ensures Lookup(Tally(bs, id, voter, height).0, k)
         == if k == id then Some(Ballot(id, LiveVoters(bs, id, height) + [voter], height)) else LiveBallot(bs, k, height)
  {
    TallyMeaning(bs, id, voter, height);
    hide *;
  }

  /** A vote that counts, noted down, backs the ballot that it changes. */
  lemma VoteIsBacked(bs: seq<Ballot>, h: seq<Event>, vote: Event)
    requires Valid(bs) && AllBacked(bs, h) && vote.Voted?
    requires vote.Voter() !in LiveVoters(bs, vote.call.id, vote.call.env.height)
    ensures AllBacked(Tally(bs, vote.call.id, vote.Voter(), vote.call.env.height).0, h + [vote])
  {
    hide Backed, Tally, Valid, Lookup, LiveBallot, LiveVoters, Invoker;
    var id, voter, height := vote.call.id, vote.Voter(), vote.call.env.height;
    var after := Tally(bs, id, voter, height).0;
    forall k | Lookup(after, k).Some?
      ensures Backed(h + [vote], Lookup(after, k).value)
    {
      TallyLookup(bs, id, voter, height, k);
      if k == id {
        GrownIsBacked(bs, h, vote);
      } else {
        KeptIsBacked(bs, h, k, height, [vote]);
      }
    }
  }

  /** The ballots after the vote of a call. */
  function Polled(s: State, c: Invocation): seq<Ballot> {
    Tally(s.ballots, c.id, Invoker(s.alphabet, c.env.witnesses), c.env.height).0
  }

  /** Voting keeps every stored ballot backed by noted votes. */
  lemma VoteKeepsSound(w: World, c: Invocation)
    requires Sound(w)
    ensures Sound(World(w.state.(ballots := Polled(w.state, c)), w.history + Vote(w.state, c)))
  {
    hide AllBacked, AllJustified, Tally, Valid, LiveVoters, Invoker;
    TallyMeaning(w.state.ballots, c.id, Invoker(w.state.alphabet, c.env.witnesses), c.env.height);
    if Vote(w.state, c) != [] {
      var vote := Voted(c, w.state.alphabet);
      VoteIsBacked(w.state.ballots, w.history, vote);
      JustifiedExtends(w.history, [vote]);
    } else {
      assert w.history + [] == w.history;
    }
  }

  lemma WithoutIsBacked(bs: seq<Ballot>, h: seq<Event>, c: Invocation, alphabet: seq<Bytes>)
    requires Valid(bs) && AllBacked(bs, h) && Lookup(bs, c.id).Some?
    ensures Valid(Without(bs, Index(bs, c.id)))
    ensures AllBacked(Without(bs, Index(bs, c.id)), h + [Fired(c, alphabet)])
  {
    var i := Index(bs, c.id);
    WithoutValid(bs, i);
    hide Backed, Valid, Invoker;
    forall k | Lookup(Without(bs, i), k).Some?
      ensures Backed(h + [Fired(c, alphabet)], Lookup(Without(bs, i), k).value)
    {
      LookupWithout(bs, i, k);
      EvidenceExtends(h, Lookup(bs, k).value, [Fired(c, alphabet)]);
    }
  }

  lemma FiredIsJustified(bs: seq<Ballot>, h: seq<Event>, c: Invocation, alphabet: seq<Bytes>)
    requires Valid(bs) && AllBacked(bs, h) && LiveBallot(bs, c.id, c.env.height).Some?
    requires Threshold(alphabet) <= |LiveVoters(bs, c.id, c.env.height)|
    ensures Justified(h + [Fired(c, alphabet)], |h|)
  {
    var b := Lookup(bs, c.id).value;
    LookupVoters(bs, c.id);
    assert Backed(h, b);
    var idx: seq<nat> :| Evidence(h, idx, b);
    assert (h + [Fired(c, alphabet)])[..|h|] == h;
    assert Quorum(h + [Fired(c, alphabet)], |h|, idx, b) by { hide Evidence; }
  }

  /** Removing the ballot of an accepted decision keeps the remaining ones backed, and the decision
      itself justified by the ballot removed. */
  lemma FireKeepsSound(w: World, c: Invocation, alphabet: seq<Bytes>)
    requires Sound(w) && LiveBallot(w.state.ballots, c.id, c.env.height).Some?
    requires Threshold(alphabet) <= |LiveVoters(w.state.ballots, c.id, c.env.height)|
    ensures Sound(World(w.state.(ballots := Without(w.state.ballots, Index(w.state.ballots, c.id))),
                        w.history + [Fired(c, alphabet)]))
  {
    var bs, h, fired := w.state.ballots, w.history, Fired(c, alphabet);
    WithoutIsBacked(bs, h, c, alphabet);
    FiredIsJustified(bs, h, c, alphabet);
    hide Valid, AllBacked, Justified, LiveVoters, Invoker;
    forall k: nat | k < |h + [fired]| && (h + [fired])[k].Fired?
      ensures Justified(h + [fired], k)
    {
      if k < |h| {
        QuorumExtends(h, k, [fired]);
      }
    }
  }

  /** An accepted decision has a live ballot with enough voters. */
  lemma AcceptedIsLive(s: State, c: Invocation)
    requires Valid(s.ballots) && Ask(s, c.id, c.env).1
    ensures var after := Polled(s, c);
      && LiveBallot(after, c.id, c.env.height).Some?
      && Threshold(s.alphabet) <= |LiveVoters(after, c.id, c.env.height)|
      && Ask(s, c.id, c.env).0 == Without(after, Index(after, c.id))
  {
    TallyMeaning(s.ballots, c.id, Invoker(s.alphabet, c.env.witnesses), c.env.height);
    SetOfSeqSize(LiveVoters(Polled(s, c), c.id, c.env.height));
    hide Valid, Tally, Lookup, Invoker;
  }

  lemma {:induction false} SetOfSeqSize(s: seq<Bytes>)
    ensures |set k | k in s| <= |s|
  {
    if s != [] {
      SetOfSeqSize(s[1..]);
      assert (set k | k in s) == {s[0]} + set k | k in s[1..];
    }
  }

  /** Voting and, where the threshold is reached, removing the ballot. */
  lemma AskKeepsSound(w: World, c: Invocation)
    requires Sound(w)
    ensures Sound(World(w.state.(ballots := Ask(w.state, c.id, c.env).0), w.history + Noted(w.state, c)))
  {
    hide *;
    var s := w.state;
    VoteKeepsSound(w, c);
    NotedIs(s, c);
    SoundIsValid(w);
    if Ask(s, c.id, c.env).1 {
      AcceptedKeepsSound(w, c);
    }
  }

  lemma SoundIsValid(w: World)
    requires Sound(w)
    ensures Valid(w.state.ballots)
  {
  }

  lemma AcceptedKeepsSound(w: World, c: Invocation)
    requires Ask(w.state, c.id, c.env).1 && Valid(w.state.ballots)
    requires Sound(World(w.state.(ballots := Polled(w.state, c)), w.history + Vote(w.state, c)))
    ensures Sound(World(w.state.(ballots := Ask(w.state, c.id, c.env).0), w.history + Noted(w.state, c)))
  {
    hide *;
    var s := w.state;
    var voted := World(s.(ballots := Polled(s, c)), w.history + Vote(s, c));
    AcceptedIsLive(s, c);
    FireKeepsSound(voted, c, s.alphabet);
    NotedIs(s, c);
    assert voted.history + [Fired(c, s.alphabet)] == w.history + Noted(s, c);
  }

  lemma NotedIs(s: State, c: Invocation)
    ensures Noted(s, c) == Vote(s, c) + if Ask(s, c.id, c.env).1 then [Fired(c, s.alphabet)] else []
    ensures !Ask(s, c.id, c.env).1 ==> Noted(s, c) == Vote(s, c) && Ask(s, c.id, c.env).0 == Polled(s, c)
  {
    hide Tally, Invoker;
  }

  lemma SoundIgnoresOutcome(w: World, s: State)
    requires Sound(w) && s.ballots == w.state.ballots
    ensures Sound(World(s, w.history))
  {
  }

  lemma StepKeepsSound(w: World, c: Invocation)
    requires Sound(w)
    ensures Sound(Step(w, c))
  {
    hide Sound, Noted, Ask, Tally;
    var s := w.state;
    if Call(s, c.id, c.request, c.env).Ok? {
      if s.notaryDisabled {
        AskKeepsSound(w, c);
        SoundIgnoresOutcome(World(s.(ballots := Ask(s, c.id, c.env).0), w.history + Noted(s, c)), Step(w, c).state);
      } else {
        assert w.history + [] == w.history;
        SoundIgnoresOutcome(w, Step(w, c).state);
      }
    }
  }

  /** In every run each ballot is backed by votes cast since the decision was last taken, and each decision
      taken rested on at least two thirds plus one distinct fresh voters. */
  lemma {:induction false} EveryRunIsSound(keys: seq<Bytes>, calls: seq<Invocation>)
    ensures Sound(Run(keys, calls))
  {
    if calls != [] {
      EveryRunIsSound(keys, calls[..|calls| - 1]);
      StepKeepsSound(Run(keys, calls[..|calls| - 1]), calls[|calls| - 1]);
    }
  }

  /** The decisions taken, in order. */
  function Decisions(h: seq<Event>): seq<(Bytes, Request)> {
    if h == [] then [] else
      var last := h[|h| - 1];
      Decisions(h[..|h| - 1]) + if last.Fired? then [(last.call.id, last.call.request)] else []
  }

  lemma {:induction false} DecisionsAppend(h: seq<Event>, more: seq<Event>)
    ensures Decisions(h + more) == Decisions(h) + Decisions(more)
    decreases |more|
  {
    if more == [] {
      assert h + more == h;
    } else {
      assert (h + more)[..|h + more| - 1] == h + more[..|more| - 1];
      DecisionsAppend(h, more[..|more| - 1]);
    }
  }

  lemma NotedDecisions(s: State, c: Invocation)
    ensures Decisions(Noted(s, c)) == if Ask(s, c.id, c.env).1 then [(c.id, c.request)] else []
  {
    hide Ask, Invoker, LiveVoters;
    var vote := Vote(s, c);
    assert Decisions(vote) == [] by { assert vote != [] ==> vote[..0] == []; }
    DecisionsAppend(vote, [Fired(c, s.alphabet)]);
    DecisionsAppend(vote, []);
    assert [Fired(c, s.alphabet)][..0] == [];
  }

  /** What the contract has done is exactly what was decided by vote, in that order. */
  lemma {:induction false} OnlyDecisionsArePerformed(keys: seq<Bytes>, calls: seq<Invocation>)
    ensures Run(keys, calls).state.notaryDisabled
    ensures Run(keys, calls).state.performed == Decisions(Run(keys, calls).history)
  {
    if calls != [] {
      var init, c := calls[..|calls| - 1], calls[|calls| - 1];
      OnlyDecisionsArePerformed(keys, init);
      var w := Run(keys, init);
      StepPerforms(w, c);
      hide Step, Decisions;
    }
  }

  lemma CallPerforms(s: State, c: Invocation)
    requires s.notaryDisabled && Call(s, c.id, c.request, c.env).Ok?
    ensures var t := Call(s, c.id, c.request, c.env).value;
      && t.notaryDisabled
      && t.performed == s.performed + if Ask(s, c.id, c.env).1 then [(c.id, c.request)] else []
  {
    hide Ask, Refusal;
    assert s.performed + [] == s.performed;
  }

  lemma StepPerforms(w: World, c: Invocation)
    requires w.state.notaryDisabled && w.state.performed == Decisions(w.history)
    ensures Step(w, c).state.notaryDisabled && Step(w, c).state.performed == Decisions(Step(w, c).history)
  {
    if Call(w.state, c.id, c.request, c.env).Ok? {
      CallPerforms(w.state, c);
      NotedDecisions(w.state, c);
      DecisionsAppend(w.history, Noted(w.state, c));
    }
    hide Ask, Noted, Decisions, Call;
  }

  // ---- who the voters are ----

  predicate ProperKeys(keys: seq<Bytes>) {
    forall key :: key in keys ==> |key| == PUBLIC_KEY_LEN
  }

  /** A noted vote is an alphabet node's exactly if its call is no unwitnessed configuration call. */
  predicate VoterKnown(e: Event) {
    e.Voted? ==> (e.ByMember() <==> !e.Unwitnessed())
  }

  /** The contract takes a vote for the request, whoever asks. */
  predicate Askable(r: Request) {
    match r
    case Cheque(_, _, _) => true
    case AlphabetUpdate(keys) => keys != [] && ProperKeys(keys)
    case SetConfig(key, _) => key != []
  }

  ghost predicate Known(w: World, calls: seq<Invocation>) {
    && w.state.notaryDisabled && ProperKeys(w.state.alphabet)
    && (forall e :: e in w.history ==> e.call in calls && VoterKnown(e) && Askable(e.call.request))
  }

  lemma {:induction false} InvokerFinds(alphabet: seq<Bytes>, witnesses: set<Bytes>)
    requires ProperKeys(alphabet)
    ensures Invoker(alphabet, witnesses) == [] <==> forall key :: key in alphabet ==> key !in witnesses
    ensures Invoker(alphabet, witnesses) == [] <==> Invoker(alphabet, witnesses) !in alphabet
  {
    if alphabet != [] {
      assert forall key :: key in alphabet <==> key == alphabet[0] || key in alphabet[1..];
      InvokerFinds(alphabet[1..], witnesses);
      if alphabet[0] in witnesses {
        assert alphabet[0] in alphabet;
      }
    }
  }

  lemma CallIsKnown(s: State, c: Invocation)
    requires s.notaryDisabled && ProperKeys(s.alphabet) && Call(s, c.id, c.request, c.env).Ok?
    ensures VoterKnown(Voted(c, s.alphabet)) && Askable(c.request)
    ensures Call(s, c.id, c.request, c.env).value.notaryDisabled
    ensures ProperKeys(Call(s, c.id, c.request, c.env).value.alphabet)
  {
    InvokerFinds(s.alphabet, c.env.witnesses);
    hide Invoker, Ask;
  }

  lemma NotedCalls(w: World, c: Invocation, e: Event)
    requires e in Step(w, c).history
    ensures e in w.history || (Call(w.state, c.id, c.request, c.env).Ok? && e in [Voted(c, w.state.alphabet), Fired(c, w.state.alphabet)])
  {
    hide Invoker, Ask, LiveVoters, Call;
  }

  lemma StepKnows(w: World, c: Invocation, calls: seq<Invocation>)
    requires Known(w, calls)
    ensures Known(Step(w, c), calls + [c])
  {
    if Call(w.state, c.id, c.request, c.env).Ok? {
      CallIsKnown(w.state, c);
    }
    hide Call, Noted, VoterKnown, ProperKeys, Askable;
    forall e | e in Step(w, c).history
      ensures e.call in calls + [c] && VoterKnown(e) && Askable(e.call.request)
    {
      NotedCalls(w, c, e);
      FiredIsNoVote(c, w.state.alphabet);
    }
  }

  lemma FiredIsNoVote(c: Invocation, alphabet: seq<Bytes>)
    ensures VoterKnown(Fired(c, alphabet))
  {
  }

  lemma {:induction false} EveryVoterIsKnown(keys: seq<Bytes>, calls: seq<Invocation>)
    requires ProperKeys(keys)
    ensures Known(Run(keys, calls), calls)
  {
    if calls != [] {
      var init := calls[..|calls| - 1];
      EveryVoterIsKnown(keys, init);
      StepKnows(Run(keys, init), calls[|calls| - 1], init);
      assert init + [calls[|calls| - 1]] == calls;
    }
  }

  /** In every run, a quorum has a member that is no alphabet node exactly if one of its votes came from a
      configuration call that no alphabet node witnessed. */
  lemma OutsiderVotesIff(keys: seq<Bytes>, calls: seq<Invocation>, k: nat, idx: seq<nat>, b: Ballot)
    requires ProperKeys(keys) && k < |Run(keys, calls).history| && Quorum(Run(keys, calls).history, k, idx, b)
    ensures var h := Run(keys, calls).history;
            (exists i :: i in idx && !h[i].ByMember()) <==> (exists i :: i in idx && h[i].Unwitnessed())
  {
    EveryVoterIsKnown(keys, calls);
    var h := Run(keys, calls).history;
    hide Invoker, Run;
    forall i | i in idx
      ensures i < |h| && h[i].ByMember() == !h[i].Unwitnessed()
    {
      var j :| 0 <= j < |idx| && idx[j] == i;
      assert h[..k][i] == h[i] && h[i] in h;
      assert VoterKnown(h[i]);
    }
  }

  /** Every configuration call of the run was witnessed by some node then on the alphabet list. */
  ghost predicate ConfigWitnessed(keys: seq<Bytes>, calls: seq<Invocation>) {
    calls == [] ||
    var init, c := calls[..|calls| - 1], calls[|calls| - 1];
    ConfigWitnessed(keys, init)
    && (c.request.SetConfig? ==> exists key :: key in Run(keys, init).state.alphabet && key in c.env.witnesses)
  }

  lemma {:induction false} NoneIsUnwitnessed(keys: seq<Bytes>, calls: seq<Invocation>)
    requires ConfigWitnessed(keys, calls)
    ensures forall e :: e in Run(keys, calls).history ==> !e.Unwitnessed()
  {
    hide Step, Invoker;
    if calls != [] {
      var init, c := calls[..|calls| - 1], calls[|calls| - 1];
      NoneIsUnwitnessed(keys, init);
      var w := Run(keys, init);
      forall e | e in Step(w, c).history
        ensures !e.Unwitnessed()
      {
        NotedCalls(w, c, e);
      }
    }
  }

  /** Where configuration calls are witnessed, alphabet nodes alone decide: every decision taken has a
      quorum, and every vote of it was cast by a node then on the list. */
  lemma MembersDecide(keys: seq<Bytes>, calls: seq<Invocation>, k: nat)
    requires ProperKeys(keys) && ConfigWitnessed(keys, calls)
    requires k < |Run(keys, calls).history| && Run(keys, calls).history[k].Fired?
    ensures Justified(Run(keys, calls).history, k)
    ensures forall idx, b :: Quorum(Run(keys, calls).history, k, idx, b) ==>
              forall i :: i in idx ==> i < k && Run(keys, calls).history[i].ByMember()
  {
    EveryRunIsSound(keys, calls);
    NoneIsUnwitnessed(keys, calls);
    EveryVoterIsKnown(keys, calls);
    var h := Run(keys, calls).history;
    hide Run, Invoker;
    forall idx, b, i | Quorum(h, k, idx, b) && i in idx
      ensures i < k && h[i].ByMember()
    {
      var j :| 0 <= j < |idx| && idx[j] == i;
      assert h[..k][i] == h[i] && h[i] in h;
      assert VoterKnown(h[i]);
    }
  }

  // ---- deciding again ----

  lemma IndicesIncrease(h: seq<Event>, idx: seq<nat>, b: Ballot)
    requires Evidence(h, idx, b)
    ensures idx != [] && forall i :: i in idx ==> idx[0] <= i < |h| && h[i].Voted?
  {
    hide Invoker;
    for j := 1 to |idx|
      invariant forall i :: 0 <= i < j ==> idx[0] <= idx[i]
    {
      assert idx[j - 1] < idx[j];
    }
  }

  /** The votes of a quorum were all cast after any earlier time the decision was taken. */
  lemma QuorumIsFresh(h: seq<Event>, earlier: nat, later: nat, idx: seq<nat>, b: Ballot)
    requires earlier < later < |h| && h[earlier].Fired? && h[earlier].call.id == h[later].call.id
    requires Quorum(h, later, idx, b)
    ensures forall i :: i in idx ==> earlier < i < later
  {
    assert h[..later][earlier] == h[earlier];
    assert h[..later][idx[0]].Voted?;
    IndicesIncrease(h[..later], idx, b);
  }

  /** In every run each decision taken again rests on a quorum of votes, all of them cast after the time before. */
  lemma FiringsNeedFreshVotes(keys: seq<Bytes>, calls: seq<Invocation>, earlier: nat, later: nat)
    requires earlier < later < |Run(keys, calls).history|
    requires var h := Run(keys, calls).history; h[earlier].Fired? && h[later].Fired? && h[earlier].call.id == h[later].call.id
    ensures var h := Run(keys, calls).history;
      && Justified(h, later)
      && forall idx, b :: Quorum(h, later, idx, b) ==> forall i :: i in idx ==> earlier < i < later
  {
    EveryRunIsSound(keys, calls);
    var h := Run(keys, calls).history;
    hide Run, Quorum;
    forall idx, b | Quorum(h, later, idx, b)
      ensures forall i :: i in idx ==> earlier < i < later
    {
      QuorumIsFresh(h, earlier, later, idx, b);
    }
  }

  function VoterSet(b: Ballot): set<Bytes> {
    set v | v in b.voters
  }

  /** The alphabet list stayed the same from the first vote of a quorum to a later decision. */
  ghost predicate SameAlphabet(h: seq<Event>, idx: seq<nat>, last: nat)
    requires idx != [] && last < |h|
  {
    forall i :: idx[0] <= i <= last ==> h[i].alphabet == h[last].alphabet
  }

  lemma QuorumIsMembers(h: seq<Event>, k: nat, idx: seq<nat>, b: Ballot, alphabet: seq<Bytes>)
    requires k < |h| && Quorum(h, k, idx, b)
    requires forall i :: i in idx ==> i < k && h[i].ByMember() && h[i].alphabet == alphabet
    ensures VoterSet(b) <= (set key | key in alphabet)
    ensures |VoterSet(b)| == |b.voters|
  {
    DistinctCount(b.voters);
    hide Invoker;
    forall v | v in b.voters
      ensures v in alphabet
    {
      var j :| 0 <= j < |b.voters| && b.voters[j] == v;
      assert idx[j] in idx && h[..k][idx[j]] == h[idx[j]];
    }
  }

  lemma SubsetSize(a: set<Bytes>, b: set<Bytes>)
    requires a <= b
    ensures |a| <= |b|
  {
    assert b == a + (b - a);
  }

  lemma SetsOverlap(alphabet: seq<Bytes>, first: set<Bytes>, second: set<Bytes>)
    requires first <= (set k | k in alphabet) && second <= (set k | k in alphabet)
    requires Threshold(alphabet) <= |first| && Threshold(alphabet) <= |second|
    ensures |alphabet| < 3 * |first * second|
  {
    var all := set k | k in alphabet;
    SetOfSeqSize(alphabet);
    SubsetSize(first + second, all);
    assert |first + second| + |first * second| == |first| + |second|;
  }

  /** A voter of the ballot voted again after the given position. */
  ghost predicate VotedAgain(h: seq<Event>, idx: seq<nat>, v: Bytes, after: nat) {
    exists i :: i in idx && after < i < |h| && h[i].Voted? && h[i].Voter() == v
  }

  /** In a run whose configuration calls are witnessed, let a decision be taken twice while the alphabet
      list stays the same. Then more than a third of the list belongs to both quorums, and all of those voted
      again after the first time. So nodes that had not voted for it the first time cannot take it again
      by themselves. */
  lemma DecidingAgainNeedsOldVoters(keys: seq<Bytes>, calls: seq<Invocation>, earlier: nat, later: nat,
                                    idx1: seq<nat>, b1: Ballot, idx2: seq<nat>, b2: Ballot)
    requires ProperKeys(keys) && ConfigWitnessed(keys, calls)
    requires earlier < later < |Run(keys, calls).history|
    requires var h := Run(keys, calls).history;
      && h[earlier].Fired? && h[later].Fired? && h[earlier].call.id == h[later].call.id
      && Quorum(h, earlier, idx1, b1) && Quorum(h, later, idx2, b2)
      && SameAlphabet(h, idx1, later)
    ensures var h, shared := Run(keys, calls).history, VoterSet(b1) * VoterSet(b2);
      && |h[later].alphabet| < 3 * |shared|
      && (forall v :: v in shared ==> VotedAgain(h, idx2, v, earlier))
      && !(VoterSet(b2) <= (set key | key in h[later].alphabet) - VoterSet(b1))
  {
    hide Run, Invoker, ConfigWitnessed, Evidence, ProperKeys;
    MembersDecide(keys, calls, earlier);
    MembersDecide(keys, calls, later);
    var h := Run(keys, calls).history;
    IndicesIncrease(h[..earlier], idx1, b1);
    assert idx1[0] in idx1 && h[earlier].alphabet == h[later].alphabet;
    QuorumIsFresh(h, earlier, later, idx2, b2);
    QuorumIsMembers(h, earlier, idx1, b1, h[later].alphabet);
    QuorumIsMembers(h, later, idx2, b2, h[later].alphabet);
    SetsOverlap(h[later].alphabet, VoterSet(b1), VoterSet(b2));
    QuorumVotesAgain(h, earlier, later, idx2, b2);
    var v :| v in VoterSet(b1) * VoterSet(b2);
  }

  lemma QuorumVotesAgain(h: seq<Event>, earlier: nat, later: nat, idx: seq<nat>, b: Ballot)
    requires earlier < later < |h| && h[earlier].Fired? && h[earlier].call.id == h[later].call.id
    requires Quorum(h, later, idx, b)
    ensures forall v :: v in VoterSet(b) ==> VotedAgain(h, idx, v, earlier)
  {
    QuorumIsFresh(h, earlier, later, idx, b);
    hide Invoker;
    forall v | v in VoterSet(b)
      ensures VotedAgain(h, idx, v, earlier)
    {
      var j :| 0 <= j < |b.voters| && b.voters[j] == v;
      assert idx[j] in idx && h[..later][idx[j]] == h[idx[j]];
    }
  }

  // ---- who is on the list when it is decided ----

  /** If the list stayed the same since the quorum's first vote, the quorum consists of nodes on the list in
      force when the decision is taken. */
  lemma CurrentMembersDecide(keys: seq<Bytes>, calls: seq<Invocation>, k: nat, idx: seq<nat>, b: Ballot)
    requires ProperKeys(keys) && ConfigWitnessed(keys, calls)
    requires k < |Run(keys, calls).history| && Run(keys, calls).history[k].Fired?
    requires Quorum(Run(keys, calls).history, k, idx, b) && SameAlphabet(Run(keys, calls).history, idx, k)
    ensures VoterSet(b) <= (set key | key in Run(keys, calls).history[k].alphabet)
    ensures Threshold(Run(keys, calls).history[k].alphabet) <= |VoterSet(b)|
  {
    hide Run, Invoker, ConfigWitnessed, Evidence, ProperKeys;
    MembersDecide(keys, calls, k);
    var h := Run(keys, calls).history;
    IndicesIncrease(h[..k], idx, b);
    QuorumIsMembers(h, k, idx, b, h[k].alphabet);
  }
}
