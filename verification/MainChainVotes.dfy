/** What votes count for in runs of the main-chain contract: an id is all that ties a vote to a request
    (common/vote.go, contracts/neofs/contract.go). When votes are for what is then done, and runs in which
    they are not, or in which they are not an alphabet node's. */
module MainChainVotes {
  import opened Storage
  import opened Ballots
  import opened MainChain
  import opened MainChainRuns

  // ---- what was voted for ----

  /** Calls that name the same decision ask for the same thing, those aside that no vote is taken for. */
  predicate IdsMeanRequests(calls: seq<Invocation>) {
    forall c, d :: c in calls && d in calls && c.id == d.id && Askable(c.request) && Askable(d.request) ==> c.request == d.request
  }

  /** Every vote behind a decision was for what was then done. */
  ghost predicate VotedForIt(h: seq<Event>) {
    forall k: nat, idx, b, i :: k < |h| && h[k].Fired? && Quorum(h, k, idx, b) && i in idx
      ==> i < k && h[i].call.request == h[k].call.request
  }

  /** Where decision ids are tied to requests, every vote behind a decision was for what was then done. */
  lemma VotesAreForRequest(keys: seq<Bytes>, calls: seq<Invocation>)
    requires ProperKeys(keys) && IdsMeanRequests(calls)
    ensures VotedForIt(Run(keys, calls).history)
  {
    EveryVoterIsKnown(keys, calls);
    var h := Run(keys, calls).history;
    hide Run, Invoker, Askable;
    forall k: nat, idx, b, i | k < |h| && h[k].Fired? && Quorum(h, k, idx, b) && i in idx
      ensures i < k && h[i].call.request == h[k].call.request
    {
      var j :| 0 <= j < |idx| && idx[j] == i;
      assert h[..k][i] == h[i] && h[i] in h && h[k] in h;
    }
  }

  /** One node asks. */
  function Asked(id: Bytes, r: Request, key: Bytes, height: int): Invocation {
    Invocation(id, r, Env({key}, false, height, true))
  }

  function Start(keys: seq<Bytes>): World {
    World(State(true, keys, [], map[], []), [])
  }

  /** Two votes under one id decide for what the second asked, whatever the first asked. */
  lemma LastVoteDecides(id: Bytes, first: Request, second: Request, a: Bytes, b: Bytes, height: int)
    requires a != b && ProperKeys([a, b]) && Askable(first) && Askable(second)
    ensures var keys, c, d := [a, b], Asked(id, first, a, height), Asked(id, second, b, height);
            var w := Run(keys, [c, d]);
      && w.history == [Voted(c, keys), Voted(d, keys), Fired(d, keys)] && w.state.performed == [(id, second)]
      && Quorum(w.history, 2, [0, 1], Ballot(id, [a, b], height))
  {
    hide Run, Evidence;
    TwoInvoke(a, b, b);
    var keys, c, d := [a, b], Asked(id, first, a, height), Asked(id, second, b, height);
    hide Invoker;
    TwoCallsDecide(keys, c, d);
    TwoVotesAreQuorum(keys, c, d, a, b);
  }

  /** Two calls with different voters under one id, before a list of two. */
  lemma TwoCallsDecide(keys: seq<Bytes>, c: Invocation, d: Invocation)
    requires |keys| == 2 && c.id == d.id && c.env.height == d.env.height && d.env.gasTransfers
    requires Refusal(Start(keys).state, c.request, c.env).None? && Refusal(Start(keys).state, d.request, d.env).None?
    requires Invoker(keys, c.env.witnesses) != Invoker(keys, d.env.witnesses)
    ensures var w := Run(keys, [c, d]);
      w.history == [Voted(c, keys), Voted(d, keys), Fired(d, keys)] && w.state.performed == [(d.id, d.request)]
  {
    hide Run, Step, Invoker, Refusal;
    RunOfTwo(keys, c, d);
    FirstVoteCounts(keys, c);
    SecondVoteDecides(Start(keys).state, [Voted(c, keys)], c.id, Invoker(keys, c.env.witnesses), d);
    assert [] + [(d.id, d.request)] == [(d.id, d.request)];
    assert [Voted(c, keys)] + [Voted(d, keys), Fired(d, keys)] == [Voted(c, keys), Voted(d, keys), Fired(d, keys)];
  }

  lemma TwoVotesAreQuorum(keys: seq<Bytes>, c: Invocation, d: Invocation, a: Bytes, b: Bytes)
    requires c.id == d.id && c.env.height == d.env.height && a != b && |keys| == 2
    requires Invoker(keys, c.env.witnesses) == a && Invoker(keys, d.env.witnesses) == b
    ensures Quorum([Voted(c, keys), Voted(d, keys), Fired(d, keys)], 2, [0, 1], Ballot(c.id, [a, b], c.env.height))
  {
    hide Invoker;
    var h, idx: seq<nat> := [Voted(c, keys), Voted(d, keys), Fired(d, keys)], [0, 1];
    assert h[..2] == [Voted(c, keys), Voted(d, keys)];
    assert Evidence(h[..2], idx, Ballot(c.id, [a, b], c.env.height));
  }

  /** Which requests may be asked for under which ids. */
  type Discipline = (Bytes, Request) -> bool

  predicate Within(calls: seq<Invocation>, d: Discipline) {
    forall c :: c in calls ==> d(c.id, c.request)
  }

  /** At most one request that votes are taken for under each id. */
  ghost predicate TiesIds(d: Discipline) {
    forall id, r, q :: d(id, r) && d(id, q) && Askable(r) && Askable(q) ==> r == q
  }

  /** Votes are for what is done in every run of calls that keep to a discipline, exactly if the discipline
      ties ids to requests. The contract ties them to nothing. */
  lemma VotesAreForRequestIff(d: Discipline)
    ensures (forall keys, calls :: ProperKeys(keys) && Within(calls, d) ==> VotedForIt(Run(keys, calls).history)) <==> TiesIds(d)
  {
    hide Run, Askable, VotedForIt;
    if TiesIds(d) {
      forall keys, calls | ProperKeys(keys) && Within(calls, d)
        ensures VotedForIt(Run(keys, calls).history)
      {
        VotesAreForRequest(keys, calls);
      }
    } else {
      var id, r, q :| d(id, r) && d(id, q) && Askable(r) && Askable(q) && r != q;
      VotesMix(d, id, r, q);
    }
  }

  lemma VotesMix(d: Discipline, id: Bytes, r: Request, q: Request)
    requires d(id, r) && d(id, q) && Askable(r) && Askable(q) && r != q
    ensures exists keys, calls :: ProperKeys(keys) && Within(calls, d) && !VotedForIt(Run(keys, calls).history)
  {
    hide Run, Askable, VotedForIt, ProperKeys, Quorum;
    var a, b := TwoKeys();
    var keys, calls := [a, b], [Asked(id, r, a, 0), Asked(id, q, b, 0)];
    assert Within(calls, d);
    LastVoteDecides(id, r, q, a, b, 0);
    NotVotedForIt(Run(keys, calls).history, 2, [0, 1], Ballot(id, [a, b], 0));
  }

  lemma TwoKeys() returns (a: Bytes, b: Bytes)
    ensures a != b && ProperKeys([a, b])
  {
    a, b := seq(PUBLIC_KEY_LEN, _ => 2), seq(PUBLIC_KEY_LEN, _ => 3);
    assert a[0] != b[0];
  }

  lemma NotVotedForIt(h: seq<Event>, k: nat, idx: seq<nat>, b: Ballot)
    requires k < |h| && h[k].Fired? && Quorum(h, k, idx, b) && idx != [] && idx[0] < |h|
    requires h[idx[0]].call.request != h[k].call.request
    ensures !VotedForIt(h)
  {
    hide Quorum;
    assert idx[0] in idx;
  }

  /** A configuration call witnessed by nobody. */
  function Nobody(id: Bytes, height: int): Invocation {
    Invocation(id, SetConfig([1], []), Env({}, false, height, true))
  }

  const PAYMENT := Cheque([], 1, [])

  /** A vote that nobody's key backs: with two alphabet nodes and a threshold of two, a configuration call
      witnessed by nobody votes with the empty key, and the vote counts for a cheque with the same id. One
      node alone then has the cheque paid. */
  lemma OneNodeDecides(id: Bytes, a: Bytes, b: Bytes, height: int)
    requires a != b && ProperKeys([a, b])
    ensures var c := Asked(id, PAYMENT, a, height); var w := Run([a, b], [Nobody(id, height), c]);
      && Threshold([a, b]) == 2
      && w.history == [Voted(Nobody(id, height), [a, b]), Voted(c, [a, b]), Fired(c, [a, b])]
      && !w.history[0].ByMember()
      && w.state.performed == [(id, PAYMENT)]
  {
    hide Run;
    TwoInvoke(a, b, b);
    InvokerFinds([a, b], {});
    hide Invoker;
    TwoCallsDecide([a, b], Nobody(id, height), Asked(id, PAYMENT, a, height));
  }

  lemma RunOfTwo(keys: seq<Bytes>, c: Invocation, d: Invocation)
    ensures Run(keys, [c, d]) == Step(Step(Start(keys), c), d)
  {
    hide Step;
    var calls := [c, d];
    assert calls[..1] == [c] && [c][..0] == [];
    assert Run(keys, []) == Start(keys);
  }

  lemma FirstVoteCounts(keys: seq<Bytes>, c: Invocation)
    requires |keys| == 2 && Refusal(Start(keys).state, c.request, c.env).None?
    ensures var voter := Invoker(keys, c.env.witnesses);
      Step(Start(keys), c) == World(State(true, keys, [Ballot(c.id, [voter], c.env.height)], map[], []), [Voted(c, keys)])
  {
    var s, voter := Start(keys).state, Invoker(keys, c.env.witnesses);
    FirstVote(c.id, voter, c.env.height);
    hide Tally, Without, Index, LiveVoters, Invoker, Refusal;
    assert Ask(s, c.id, c.env) == ([Ballot(c.id, [voter], c.env.height)], false);
    assert [] + Noted(s, c) == [Voted(c, keys)];
  }

  /** The second of two voters on a decision, the only one voted on, has it taken. */
  lemma SecondVoteDecides(s: State, h: seq<Event>, id: Bytes, first: Bytes, c: Invocation)
    requires s.notaryDisabled && s.ballots == [] && |s.alphabet| == 2 && c.id == id && c.env.gasTransfers
    requires Refusal(s, c.request, c.env).None? && Invoker(s.alphabet, c.env.witnesses) != first
    ensures Step(World(s.(ballots := [Ballot(id, [first], c.env.height)]), h), c)
         == World(Perform(s, id, c.request), h + [Voted(c, s.alphabet), Fired(c, s.alphabet)])
  {
    var voter, t := Invoker(s.alphabet, c.env.witnesses), s.(ballots := [Ballot(id, [first], c.env.height)]);
    SecondVote(id, first, voter, c.env.height);
    OnlyBallot(id, [first, voter], c.env.height);
    assert Refusal(t, c.request, c.env).None?;
    hide Tally, Without, Index, LiveVoters, Invoker, Refusal;
    assert Ask(t, id, c.env) == ([], true);
    assert [Voted(c, s.alphabet)] + [Fired(c, s.alphabet)] == [Voted(c, s.alphabet), Fired(c, s.alphabet)];
  }

  // ---- a node that was dropped ----

  /** A node votes for a cheque, the alphabet list is replaced by one without it, and a node that stayed on
      votes for the cheque. */
  function Dropping(pay: Bytes, update: Bytes, a: Bytes, b: Bytes, c: Bytes, height: int): seq<Invocation> {
    var r := AlphabetUpdate([b, c]);
    [Asked(pay, PAYMENT, a, height), Asked(update, r, a, height), Asked(update, r, b, height), Asked(pay, PAYMENT, b, height)]
  }

  lemma SecondBallot(pay: Bytes, update: Bytes, voter: Bytes, height: int)
    requires pay != update
    ensures LiveVoters([Ballot(pay, [voter], height)], update, height) == []
    ensures Tally([Ballot(pay, [voter], height)], update, voter, height)
         == ([Ballot(pay, [voter], height), Ballot(update, [voter], height)], 1)
  {
    var b := Ballot(pay, [voter], height);
    assert [b][..0] == [] && [b][0] == b;
    assert Lookup([], update) == None && Lookup([b], update) == None;
    assert Rebuild([], update, voter, height) == [];
    assert Cast(b, update, voter, height) == b && [] + [b] == [b];
    assert Rebuild([b], update, voter, height) == [b];
    assert [b] + [Ballot(update, [voter], height)] == [b, Ballot(update, [voter], height)];
  }

  lemma SecondBallotGrows(pay: Bytes, update: Bytes, first: Bytes, second: Bytes, height: int)
    requires pay != update && first != second
    ensures var bs := [Ballot(pay, [first], height), Ballot(update, [first], height)];
      && LiveVoters(bs, update, height) == [first]
      && Tally(bs, update, second, height) == ([Ballot(pay, [first], height), Ballot(update, [first, second], height)], 2)
  {
    var p, u, v := Ballot(pay, [first], height), Ballot(update, [first], height), Ballot(update, [first, second], height);
    var bs := [p, u];
    assert bs[..1] == [p] && [p][..0] == [];
    assert Rebuild([], update, second, height) == [];
    assert Cast(p, update, second, height) == p && [] + [p] == [p];
    assert Rebuild([p], update, second, height) == [p];
    assert [first] + [second] == [first, second];
    assert Cast(u, update, second, height) == v && [p] + [v] == [p, v];
    assert Rebuild(bs, update, second, height) == [p, v];
    assert Lookup([p, v], update).Some?;
  }

  lemma SecondBallotGoes(pay: Bytes, update: Bytes, voters: seq<Bytes>, more: seq<Bytes>, height: int)
    requires pay != update
    ensures var bs := [Ballot(pay, voters, height), Ballot(update, more, height)];
      Index(bs, update) == 1 && Without(bs, 1) == [Ballot(pay, voters, height)]
  {
    var bs := [Ballot(pay, voters, height), Ballot(update, more, height)];
    assert bs[..1] == [bs[0]] && bs[2..] == [];
  }

  lemma UpdateIsVotedOn(keys: seq<Bytes>, pay: Bytes, h: seq<Event>, c: Invocation)
    requires |keys| == 2 && pay != c.id && Refusal(Start(keys).state, c.request, c.env).None?
    ensures var voter, height := Invoker(keys, c.env.witnesses), c.env.height;
      Step(World(State(true, keys, [Ballot(pay, [voter], height)], map[], []), h), c)
      == World(State(true, keys, [Ballot(pay, [voter], height), Ballot(c.id, [voter], height)], map[], []), h + [Voted(c, keys)])
  {
    var voter, height := Invoker(keys, c.env.witnesses), c.env.height;
    var s := State(true, keys, [Ballot(pay, [voter], height)], map[], []);
    SecondBallot(pay, c.id, voter, height);
    assert Refusal(s, c.request, c.env).None?;
    hide Tally, Without, Index, LiveVoters, Invoker, Refusal;
    assert Ask(s, c.id, c.env) == ([Ballot(pay, [voter], height), Ballot(c.id, [voter], height)], false);
    assert Noted(s, c) == [Voted(c, keys)];
  }

  lemma UpdateIsDecided(keys: seq<Bytes>, pay: Bytes, first: Bytes, h: seq<Event>, c: Invocation)
    requires |keys| == 2 && pay != c.id && c.env.gasTransfers && Refusal(Start(keys).state, c.request, c.env).None?
    requires Invoker(keys, c.env.witnesses) != first
    ensures var height := c.env.height;
      Step(World(State(true, keys, [Ballot(pay, [first], height), Ballot(c.id, [first], height)], map[], []), h), c)
      == World(Perform(State(true, keys, [Ballot(pay, [first], height)], map[], []), c.id, c.request),
               h + [Voted(c, keys), Fired(c, keys)])
  {
    var voter, height := Invoker(keys, c.env.witnesses), c.env.height;
    var s := State(true, keys, [Ballot(pay, [first], height), Ballot(c.id, [first], height)], map[], []);
    SecondBallotGrows(pay, c.id, first, voter, height);
    SecondBallotGoes(pay, c.id, [first], [first, voter], height);
    assert Refusal(s, c.request, c.env).None?;
    hide Tally, Without, Index, LiveVoters, Invoker, Refusal;
    assert Ask(s, c.id, c.env) == ([Ballot(pay, [first], height)], true);
    assert [Voted(c, keys)] + [Fired(c, keys)] == [Voted(c, keys), Fired(c, keys)];
  }

  lemma RunOfFour(keys: seq<Bytes>, calls: seq<Invocation>)
    requires |calls| == 4
    ensures Run(keys, calls) == Step(Step(Step(Step(Start(keys), calls[0]), calls[1]), calls[2]), calls[3])
  {
    hide Step;
    assert calls[..3][..2] == [calls[0], calls[1]];
    RunOfTwo(keys, calls[0], calls[1]);
    assert Run(keys, calls[..3]) == Step(Run(keys, calls[..3][..2]), calls[2]);
    assert calls[..4] == calls;
  }

  /** A quorum can contain a vote of a node that is no longer on the list: a node's vote outlasts its being
      dropped, and here it makes half of a decision under the new list. */
  lemma DroppedNodeDecides(pay: Bytes, update: Bytes, a: Bytes, b: Bytes, c: Bytes, height: int)
    requires pay != update && a != b && a != c && ProperKeys([a, b, c])
    ensures var calls := Dropping(pay, update, a, b, c, height); var w := Run([a, b], calls);
      && w.history == [Voted(calls[0], [a, b]), Voted(calls[1], [a, b]), Voted(calls[2], [a, b]), Fired(calls[2], [a, b]),
                       Voted(calls[3], [b, c]), Fired(calls[3], [b, c])]
      && w.state.performed == [(update, AlphabetUpdate([b, c])), (pay, PAYMENT)]
      && Quorum(w.history, 5, [0, 4], Ballot(pay, [a, b], height)) && a !in w.history[5].alphabet
  {
    hide Invoker, Run, Step, Quorum;
    var keys, calls := [a, b], Dropping(pay, update, a, b, c, height);
    TwoInvoke(a, b, c);
    RunOfFour(keys, calls);
    FirstVoteCounts(keys, calls[0]);
    UpdateIsVotedOn(keys, pay, [Voted(calls[0], keys)], calls[1]);
    UpdateIsDecided(keys, pay, a, [Voted(calls[0], keys)] + [Voted(calls[1], keys)], calls[2]);
    var s := Perform(State(true, keys, [], map[], []), update, calls[2].request);
    var h := [Voted(calls[0], keys), Voted(calls[1], keys), Voted(calls[2], keys), Fired(calls[2], keys)];
    assert [Voted(calls[0], keys)] + [Voted(calls[1], keys)] + [Voted(calls[2], keys), Fired(calls[2], keys)] == h;
    SecondVoteDecides(s, h, pay, a, calls[3]);
    var h' := h + [Voted(calls[3], [b, c]), Fired(calls[3], [b, c])];
    assert h' == [h[0], h[1], h[2], h[3], Voted(calls[3], [b, c]), Fired(calls[3], [b, c])];
    DroppedQuorum(h', pay, a, b, height);
    assert s.performed + [(pay, PAYMENT)] == [(update, AlphabetUpdate([b, c])), (pay, PAYMENT)];
  }

  lemma TwoInvoke(a: Bytes, b: Bytes, c: Bytes)
    requires a != b && ProperKeys([a, b, c])
    ensures Invoker([a, b], {a}) == a && Invoker([a, b], {b}) == b && Invoker([b, c], {b}) == b
    ensures ProperKeys([a, b]) && ProperKeys([b, c]) && a != [] && b != []
  {
    var keys := [a, b, c];
    assert keys[0] in keys && keys[1] in keys && keys[2] in keys;
    assert [a, b][1..] == [b];
  }

  lemma DroppedQuorum(h: seq<Event>, pay: Bytes, a: Bytes, b: Bytes, height: int)
    requires |h| == 6 && h[0].Voted? && h[1].Voted? && h[2].Voted? && h[3].Fired? && h[4].Voted? && h[5].Fired?
    requires h[0].call.id == pay && h[4].call.id == pay && h[5].call.id == pay && h[3].call.id != pay
    requires h[0].Voter() == a && h[4].Voter() == b && a != b && |h[5].alphabet| == 2
    requires h[0].call.env.height == h[4].call.env.height == h[5].call.env.height == height
    ensures Quorum(h, 5, [0, 4], Ballot(pay, [a, b], height))
  {
    hide Invoker;
    var idx: seq<nat> := [0, 4];
    assert Evidence(h[..5], idx, Ballot(pay, [a, b], height));
  }

  lemma FirstVote(id: Bytes, voter: Bytes, height: int)
    ensures LiveVoters([], id, height) == []
    ensures Tally([], id, voter, height) == ([Ballot(id, [voter], height)], 1)
  {
    assert Rebuild([], id, voter, height) == [];
    assert [] + [Ballot(id, [voter], height)] == [Ballot(id, [voter], height)];
  }

  lemma SecondVote(id: Bytes, first: Bytes, second: Bytes, height: int)
    requires first != second
    ensures LiveVoters([Ballot(id, [first], height)], id, height) == [first]
    ensures Tally([Ballot(id, [first], height)], id, second, height) == ([Ballot(id, [first, second], height)], 2)
  {
    var b := Ballot(id, [first], height);
    assert [b][..0] == [] && [b][0] == b;
    assert Rebuild([], id, second, height) == [];
    assert [first] + [second] == [first, second];
    assert Cast(b, id, second, height) == Ballot(id, [first, second], height);
    assert [] + [Cast(b, id, second, height)] == [Cast(b, id, second, height)];
    assert Rebuild([b], id, second, height) == [Ballot(id, [first, second], height)];
    assert Lookup(Rebuild([b], id, second, height), id).Some?;
  }

  lemma OnlyBallot(id: Bytes, voters: seq<Bytes>, height: int)
    ensures var bs := [Ballot(id, voters, height)]; Index(bs, id) == 0 && Without(bs, 0) == []
  {
    var bs := [Ballot(id, voters, height)];
    assert bs[..0] == [];
  }
}
