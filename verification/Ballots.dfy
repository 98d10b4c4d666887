/** The ballot list of decisions being voted on (common/vote.go). It is one stored list, which
    every vote rebuilds without its expired entries. */
module Ballots {
  import opened Storage
  import opened Varint

  type Bytes = seq<Byte>

  /** A ballot is dropped once the chain is more than this many blocks past its last vote. */
  const BLOCK_DIFF := 20

  datatype Ballot = Ballot(id: Bytes, voters: seq<Bytes>, height: int)

  ghost predicate Distinct<T>(s: seq<T>) {
    forall i, j :: 0 <= i < j < |s| ==> s[i] != s[j]
  }

  predicate Live(b: Ballot, height: int) {
    height - b.height <= BLOCK_DIFF
  }

  /** The stored ballot of a decision. */
  function Lookup(bs: seq<Ballot>, id: Bytes): (r: Option<Ballot>)
    ensures r.Some? ==> r.value in bs && r.value.id == id
  {
    if bs == [] then None
    else if bs[|bs| - 1].id == id then Some(bs[|bs| - 1])
    else Lookup(bs[..|bs| - 1], id)
  }

  /** What the list looks like in every reachable state: one ballot a decision, no voter twice. */
  ghost predicate Valid(bs: seq<Ballot>) {
    bs == [] ||
    var init, last := bs[..|bs| - 1], bs[|bs| - 1];
    Valid(init) && Lookup(init, last.id).None? && last.voters != [] && Distinct(last.voters)
  }

  function LiveBallot(bs: seq<Ballot>, id: Bytes, height: int): Option<Ballot> {
    var r := Lookup(bs, id);
    if r.Some? && !Live(r.value, height) then None else r
  }

  /** Those who currently count as voters of a decision. */
  function LiveVoters(bs: seq<Ballot>, id: Bytes, height: int): seq<Bytes> {
    var r := LiveBallot(bs, id, height);
    if r.Some? then r.value.voters else []
  }

  // ---- the effect of a vote on the list ----

  function Cast(b: Ballot, id: Bytes, from: Bytes, height: int): Ballot {
    if b.id == id then Ballot(id, b.voters + [from], height) else b
  }

  /** The live ballots, the one for `id` (if any) with one more voter. */
  function Rebuild(bs: seq<Ballot>, id: Bytes, from: Bytes, height: int): seq<Ballot> {
    if bs == [] then [] else
      var init, last := bs[..|bs| - 1], bs[|bs| - 1];
      Rebuild(init, id, from, height) + if Live(last, height) then [Cast(last, id, from, height)] else []
  }

  /** The list after a vote, and how many voters the decision has then. */
  function Tally(bs: seq<Ballot>, id: Bytes, from: Bytes, height: int): (r: (seq<Ballot>, nat))
    ensures r.0 != []
  {
    var voters := LiveVoters(bs, id, height);
    if from in voters then (bs, |voters|) else
      var kept := Rebuild(bs, id, from, height);
      (if Lookup(kept, id).Some? then kept else kept + [Ballot(id, [from], height)], |voters| + 1)
  }

  lemma LookupAppend(bs: seq<Ballot>, b: Ballot, k: Bytes)
    ensures Lookup(bs + [b], k) == if b.id == k then Some(b) else Lookup(bs, k)
  {
    assert (bs + [b])[..|bs|] == bs;
  }

  lemma {:induction false} LookupRebuild(bs: seq<Ballot>, id: Bytes, from: Bytes, height: int, k: Bytes)
    requires Valid(bs)
    ensures Lookup(Rebuild(bs, id, from, height), k) ==
      match LiveBallot(bs, k, height)
      case Some(b) => Some(Cast(b, id, from, height))
      case None => None
  {
    if bs != [] {
      var init, last := bs[..|bs| - 1], bs[|bs| - 1];
      LookupRebuild(init, id, from, height, k);
      var kept := Rebuild(init, id, from, height);
      LookupAppend(kept, Cast(last, id, from, height), k);
      assert kept + [] == kept;
    }
  }

  lemma {:induction false} RebuildValid(bs: seq<Ballot>, id: Bytes, from: Bytes, height: int)
    requires Valid(bs) && from !in LiveVoters(bs, id, height)
    ensures Valid(Rebuild(bs, id, from, height))
  {
    if bs != [] {
      var init, last := bs[..|bs| - 1], bs[|bs| - 1];
      RebuildValid(init, id, from, height);
      var kept := Rebuild(init, id, from, height);
      if Live(last, height) {
        LookupRebuild(init, id, from, height, last.id);
        assert (kept + [Cast(last, id, from, height)])[..|kept|] == kept;
      } else {
        assert kept + [] == kept;
      }
    }
  }

  lemma LookupVoters(bs: seq<Ballot>, id: Bytes)
    requires Valid(bs) && Lookup(bs, id).Some?
    ensures Lookup(bs, id).value.voters != [] && Distinct(Lookup(bs, id).value.voters)
  {
  }

  lemma {:induction false} DistinctCount<T>(s: seq<T>)
    requires Distinct(s)
    ensures |set x | x in s| == |s|
  {
    if s != [] {
      var init, last := s[..|s| - 1], s[|s| - 1];
      assert s == init + [last];
      DistinctCount(init);
      assert (set x | x in s) == (set x | x in init) + {last};
    }
  }

  /** A vote that counts leaves every other live ballot as it was, drops the expired ones and adds
      the voter to this decision's live voters; a repeated vote changes nothing. The number returned
      is that of the distinct voters whose votes for the decision are live. */
  lemma TallyMeaning(bs: seq<Ballot>, id: Bytes, from: Bytes, height: int)
    requires Valid(bs)
    ensures var (after, n) := Tally(bs, id, from, height);
            var voters := LiveVoters(bs, id, height);
      && Valid(after)
      && n == |set v | v in LiveVoters(after, id, height)|
      && (from in voters ==> after == bs)
      && (from !in voters ==>
            && Lookup(after, id) == Some(Ballot(id, voters + [from], height))
            && (forall k :: k != id ==> Lookup(after, k) == LiveBallot(bs, k, height)))
  {
    var (after, n) := Tally(bs, id, from, height);
    var voters := LiveVoters(bs, id, height);
    if from !in voters {
      var kept := Rebuild(bs, id, from, height);
      forall k
        ensures k != id ==> Lookup(after, k) == LiveBallot(bs, k, height)
      {
        LookupRebuild(bs, id, from, height, k);
        LookupAppend(kept, Ballot(id, [from], height), k);
      }
      LookupRebuild(bs, id, from, height, id);
      LookupAppend(kept, Ballot(id, [from], height), id);
      assert [] + [from] == [from];
      RebuildValid(bs, id, from, height);
      assert (kept + [Ballot(id, [from], height)])[..|kept|] == kept;
    }
    if Lookup(after, id).Some? {
      LookupVoters(after, id);
      DistinctCount(LiveVoters(after, id, height));
    }
  }

  // ---- the effect of a removal ----

  /** Where the decision's ballot is; the head of the list when it has none. */
  function Index(bs: seq<Ballot>, id: Bytes): (i: nat)
    ensures Lookup(bs, id).Some? ==> i < |bs| && bs[i].id == id
    ensures Lookup(bs, id).None? ==> i == 0
  {
    if bs == [] then 0 else
      var init := bs[..|bs| - 1];
      if Lookup(init, id).Some? then Index(init, id)
      else if bs[|bs| - 1].id == id then |bs| - 1
      else 0
  }

  function Without(bs: seq<Ballot>, i: nat): seq<Ballot>
    requires i < |bs|
  {
    bs[..i] + bs[i + 1..]
  }

  lemma {:induction false} LookupWithout(bs: seq<Ballot>, i: nat, k: Bytes)
    requires Valid(bs) && i < |bs|
    ensures Lookup(bs, bs[i].id) == Some(bs[i])
    ensures Lookup(Without(bs, i), k) == if k == bs[i].id then None else Lookup(bs, k)
  {
    var init, last := bs[..|bs| - 1], bs[|bs| - 1];
    if i == |bs| - 1 {
      assert Without(bs, i) == init;
    } else {
      LookupWithout(init, i, k);
      assert Without(bs, i) == Without(init, i) + [last];
      assert Without(bs, i)[..|bs| - 2] == Without(init, i);
    }
  }

  lemma {:induction false} WithoutValid(bs: seq<Ballot>, i: nat)
    requires Valid(bs) && i < |bs|
    ensures Valid(Without(bs, i))
  {
    var init, last := bs[..|bs| - 1], bs[|bs| - 1];
    if i == |bs| - 1 {
      assert Without(bs, i) == init;
    } else {
      WithoutValid(init, i);
      LookupWithout(init, i, last.id);
      assert Without(bs, i) == Without(init, i) + [last];
      assert Without(bs, i)[..|bs| - 2] == Without(init, i);
    }
  }

  /** Removal deletes the named decision's ballot and no other iff the decision is on the list: for
      any other name it is the head of the list that goes. */
  lemma RemovalIsExactIff(bs: seq<Ballot>, id: Bytes)
    requires Valid(bs) && bs != []
    ensures var after := Without(bs, Index(bs, id));
      && Valid(after)
      && ((forall k :: Lookup(after, k) == if k == id then None else Lookup(bs, k)) <==> Lookup(bs, id).Some?)
  {
    var i := Index(bs, id);
    WithoutValid(bs, i);
    forall k
      ensures Lookup(Without(bs, i), k) == if k == bs[i].id then None else Lookup(bs, k)
    {
      LookupWithout(bs, i, k);
    }
    LookupWithout(bs, i, id);
    if Lookup(bs, id).None? {
      assert Lookup(Without(bs, i), bs[i].id).None?;
    }
  }

  // ---- the stored list ----

  /** The loop's counter: 0 until the decision's live ballot is met, then its voters and one more. */
  function Found(bs: seq<Ballot>, id: Bytes, height: int): nat {
    if LiveBallot(bs, id, height).None? then 0 else |LiveVoters(bs, id, height)| + 1
  }

  lemma ScanStep(bs: seq<Ballot>, i: nat, id: Bytes, from: Bytes, height: int)
    requires Valid(bs) && i < |bs|
    ensures var hit := bs[i].id == id && Live(bs[i], height);
      && (hit ==> LiveVoters(bs, id, height) == bs[i].voters)
      && Found(bs[..i + 1], id, height) == (if hit then |bs[i].voters| + 1 else Found(bs[..i], id, height))
      && LiveVoters(bs[..i + 1], id, height) == if hit then bs[i].voters else LiveVoters(bs[..i], id, height)
    ensures Rebuild(bs[..i + 1], id, from, height)
         == Rebuild(bs[..i], id, from, height) + if Live(bs[i], height) then [Cast(bs[i], id, from, height)] else []
  {
    PrefixLookup(bs, i);
    assert bs[..i + 1][..i] == bs[..i];
  }

  /** What the scan of the whole list amounts to. */
  lemma ScanEnds(bs: seq<Ballot>, id: Bytes, from: Bytes, height: int)
    requires Valid(bs)
    ensures var voters, found, kept := LiveVoters(bs, id, height), Found(bs, id, height), Rebuild(bs, id, from, height);
      && Found([], id, height) == 0 && LiveVoters([], id, height) == [] && Rebuild([], id, from, height) == []
      && Tally(bs, id, from, height)
         == if from in voters then (bs, |voters|)
            else if found == 0 then (kept + [Ballot(id, [from], height)], 1)
            else (kept, found)
  {
    LookupRebuild(bs, id, from, height, id);
  }

  class BallotBox {
    var ballots: seq<Ballot>

    constructor ()
      ensures ballots == [] && Valid(ballots)
    {
      ballots := [];
    }

    /** Adds `from` to the voters of `id` and returns how many distinct live voters that makes. */
    method Vote(id: Bytes, from: Bytes, height: int) returns (n: nat)
      requires Valid(ballots)
      modifies this
      ensures Valid(ballots)
      ensures (ballots, n) == Tally(old(ballots), id, from, height)
    {
      TallyMeaning(ballots, id, from, height);
      ScanEnds(ballots, id, from, height);
      hide Valid, Lookup, LiveVoters, LiveBallot, Rebuild, Tally, Found;
      var candidates := ballots;
      var newCandidates: seq<Ballot> := [];
      var found: nat := 0;
      assert candidates[..|candidates|] == candidates;
      for i := 0 to |candidates|
        invariant ballots == candidates
        invariant newCandidates == Rebuild(candidates[..i], id, from, height)
        invariant from !in LiveVoters(candidates[..i], id, height)
        invariant found == Found(candidates[..i], id, height)
      {
        var cnd := candidates[i];
        ScanStep(candidates, i, id, from, height);
        if height - cnd.height > BLOCK_DIFF {
          continue;
        }
        if cnd.id == id {
          if from in cnd.voters {
            return |cnd.voters|;
          }
          cnd := Ballot(id, cnd.voters + [from], height);
          found := |cnd.voters|;
        }
        newCandidates := newCandidates + [cnd];
      }
      if found == 0 {
        newCandidates := newCandidates + [Ballot(id, [from], height)];
        found := 1;
      }
      ballots := newCandidates;
      n := found;
    }

    /** Deletes the ballot of an accepted decision. */
    method RemoveVotes(id: Bytes)
      requires Valid(ballots) && ballots != []
      modifies this
      ensures Valid(ballots)
      ensures ballots == Without(old(ballots), Index(old(ballots), id))
    {
      var index := 0;
      var i := 0;
      while i < |ballots|
        invariant 0 <= i <= |ballots| && index == 0
        invariant forall j :: 0 <= j < i ==> ballots[j].id != id
      {
        if ballots[i].id == id {
          index := i;
          break;
        }
        i := i + 1;
      }
      FirstIsIndex(ballots, id, index);
      WithoutValid(ballots, index);
      ballots := ballots[..index] + ballots[index + 1..];
    }
  }

  /** Every ballot of a valid list is the one its decision is looked up as. */
  lemma {:induction false} PrefixLookup(bs: seq<Ballot>, i: nat)
    requires Valid(bs) && i < |bs|
    ensures Valid(bs[..i + 1])
    ensures Lookup(bs, bs[i].id) == Some(bs[i])
  {
    var init := bs[..|bs| - 1];
    if i == |bs| - 1 {
      assert bs[..i + 1] == bs;
    } else {
      PrefixLookup(init, i);
      assert bs[..i + 1] == init[..i + 1];
    }
  }

  lemma {:induction false} FirstIsIndex(bs: seq<Ballot>, id: Bytes, i: nat)
    requires i < |bs|
    requires bs[i].id == id || (i == 0 && forall b :: b in bs ==> b.id != id)
    requires forall j :: 0 <= j < i ==> bs[j].id != id
    ensures Index(bs, id) == i
  {
    var init := bs[..|bs| - 1];
    if Lookup(init, id).Some? {
      FirstIsIndex(init, id, i);
    } else if i < |bs| - 1 {
      LookupFinds(init, i);
    }
  }

  lemma {:induction false} LookupFinds(bs: seq<Ballot>, i: nat)
    requires i < |bs|
    ensures Lookup(bs, bs[i].id).Some?
  {
    if i < |bs| - 1 {
      LookupFinds(bs[..|bs| - 1], i);
    }
  }
}
