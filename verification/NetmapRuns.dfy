/** What every run of the netmap contract keeps: the snapshots and their index answer questions about
    past epochs from the candidates as they were then. */
module NetmapRuns {
  import opened Storage
  import opened Netmap

  /** The contract's state with what it does not store in full: the version in force in each epoch so
      far, the candidates each version was taken from, and the oldest version still retained. */
  datatype World = World(state: State, inForce: seq<nat>, past: seq<Candidates>, low: nat)

  const INITIAL := World(DEPLOYED, [0], [map[]], 0)

  /** Snapshot v holds exactly the given candidates. */
  ghost predicate Faithful(m: Snapshots, v: nat, c: Candidates) {
    && (forall k :: (v, k) in m <==> k in c)
    && (forall k :: k in c ==> (v, k) in m && m[(v, k)] == Node(c[k].info, c[k].key, c[k].state))
  }

  /** The two candidate sets look the same in a snapshot. */
  ghost predicate SameNodes(a: Candidates, b: Candidates) {
    && a.Keys == b.Keys
    && forall k :: k in a ==> a[k].info == b[k].info && a[k].key == b[k].key && a[k].state == b[k].state
  }

  /** The index answers with the version in force in every epoch so far. */
  ghost predicate IndexTells(w: World) {
    var s := w.state;
    && |w.inForce| == s.epoch + 1
    && w.inForce[s.epoch] == s.version
    && (forall e :: 0 <= e <= s.epoch ==> w.inForce[e] <= s.version)
    && (forall e :: e in s.versions ==> e <= s.epoch)
    && (forall e :: 0 <= e <= s.epoch ==> VersionFor(s.versions, e) == w.inForce[e])
  }

  /** Retained snapshots are as taken, there are no others, and without changes the newest one is the
      candidate list. */
  ghost predicate SnapshotsTell(w: World) {
    var s := w.state;
    && |w.past| == s.version + 1 && w.low <= s.version
    && (forall v :: w.low <= v <= s.version ==> Faithful(s.snapshots, v, w.past[v]))
    && (forall at :: at in s.snapshots ==> w.low <= at.0 <= s.version)
    && (!s.changed ==> SameNodes(w.past[s.version], s.candidates))
  }

  ghost predicate Historic(w: World) {
    IndexTells(w) && SnapshotsTell(w)
  }

  function Max(a: int, b: int): int {
    if a < b then b else a
  }

  /** What happened to the history in a step from s to t. */
  ghost function Follow(w: World, t: State): World {
    var s := w.state;
    var low := Max(w.low, t.version - t.snapshotCount);
    if t.epoch <= s.epoch then World(t, w.inForce, w.past, low)
    else
      World(t, w.inForce + seq(t.epoch - s.epoch - 1, _ => s.version) + [t.version],
            if t.version == s.version then w.past else w.past + [t.candidates], low)
  }

  lemma {:induction false} VersionForAgrees(m: map<nat, nat>, n: map<nat, nat>, epoch: nat)
    requires forall e :: 0 <= e <= epoch ==> (e in m <==> e in n) && (e in m ==> m[e] == n[e])
    ensures VersionFor(m, epoch) == VersionFor(n, epoch)
    decreases epoch
  {
    if epoch !in m && epoch != 0 {
      VersionForAgrees(m, n, epoch - 1);
    }
  }

  /** Entering the epoch: the index names a new version for it, or keeps answering with the old one. */
  lemma IndexGrows(w: World, epoch: nat, v: nat)
    requires Historic(w) && w.state.epoch < epoch
    requires v == w.state.version || v == w.state.version + 1
    ensures var s := w.state;
            var versions := if v == s.version then s.versions else s.versions[epoch := v];
            var inForce := w.inForce + seq(epoch - s.epoch - 1, _ => s.version) + [v];
      && |inForce| == epoch + 1
      && (forall e :: 0 <= e <= epoch ==> inForce[e] <= v)
      && (forall e :: 0 <= e <= epoch ==> VersionFor(versions, e) == inForce[e])
  {
    var s := w.state;
    var versions := if v == s.version then s.versions else s.versions[epoch := v];
    var inForce := w.inForce + seq(epoch - s.epoch - 1, _ => s.version) + [v];
    forall e: nat | e <= epoch
      ensures VersionFor(versions, e) == inForce[e]
    {
      if e < epoch {
        VersionForAgrees(versions, s.versions, e);
      }
      if s.epoch < e {
        VersionForSkips(s.versions, s.epoch, e);
      }
    }
  }

  lemma SnapshotTaken(w: World, c: Candidates)
    requires Historic(w)
    ensures var s, v := w.state, w.state.version + 1;
      && Faithful(Copy(s.snapshots, v, c), v, c)
      && (forall u :: w.low <= u <= s.version ==> Faithful(Copy(s.snapshots, v, c), u, w.past[u]))
      && (forall at :: at in Copy(s.snapshots, v, c) ==> w.low <= at.0 <= v)
  {
    CopyHolds(w.state.snapshots, w.state.version + 1, c);
    assert forall at :: at in w.state.snapshots ==> at.0 != w.state.version + 1;
  }

  /** What a refresh amounts to for the index and the snapshots. */
  lemma RefreshIs(s: State, epoch: nat)
    ensures var t := Refresh(s, epoch);
      && !t.changed && t.epoch == s.epoch && t.snapshotCount == s.snapshotCount
      && (t.version == s.version || t.version == s.version + 1)
      && (t.version == s.version ==>
            !s.changed && t.snapshots == s.snapshots && t.versions == s.versions && t.candidates == s.candidates)
      && (t.version != s.version ==>
            t.snapshots == Copy(s.snapshots, s.version + 1, t.candidates) && t.versions == s.versions[epoch := s.version + 1])
  {
    hide Copy, IsStale;
    assert s.candidates - {} == s.candidates;
  }

  lemma RefreshKeepsIndex(w: World, epoch: nat)
    requires Historic(w) && w.state.epoch < epoch
    ensures var t := Refresh(w.state.(epoch := epoch), epoch); IndexTells(Follow(w, t).(low := w.low))
  {
    hide Refresh, SnapshotsTell, VersionFor;
    RefreshIs(w.state.(epoch := epoch), epoch);
    IndexGrows(w, epoch, Refresh(w.state.(epoch := epoch), epoch).version);
  }

  lemma RefreshKeepsSnapshots(w: World, epoch: nat)
    requires Historic(w) && w.state.epoch < epoch
    ensures var t := Refresh(w.state.(epoch := epoch), epoch); SnapshotsTell(Follow(w, t).(low := w.low))
  {
    hide Refresh, IndexTells, Copy, Faithful;
    var t := Refresh(w.state.(epoch := epoch), epoch);
    RefreshIs(w.state.(epoch := epoch), epoch);
    if t.version != w.state.version {
      SnapshotTaken(w, t.candidates);
    }
  }

  lemma RefreshKeepsHistory(w: World, epoch: nat)
    requires Historic(w) && w.state.epoch < epoch
    ensures var t := Refresh(w.state.(epoch := epoch), epoch);
            Historic(Follow(w, t).(low := w.low)) && !t.changed
  {
    hide Refresh, IndexTells, SnapshotsTell, Follow;
    RefreshKeepsIndex(w, epoch);
    RefreshKeepsSnapshots(w, epoch);
    RefreshIs(w.state.(epoch := epoch), epoch);
  }

  /** Dropping old versions keeps all from `version - count` on. */
  lemma PruneKeepsHistory(w: World)
    requires Historic(w)
    ensures Historic(World(Prune(w.state), w.inForce, w.past, Max(w.low, w.state.version - w.state.snapshotCount)))
  {
    var after, low := Prune(w.state), Max(w.low, w.state.version - w.state.snapshotCount);
    forall v | low <= v <= w.state.version
      ensures Faithful(after.snapshots, v, w.past[v])
    {
      assert Faithful(w.state.snapshots, v, w.past[v]);
    }
  }

  lemma StartKeepsHistory(w: World, e: Env, epoch: nat)
    requires Historic(w) && StartEpoch(w.state, e, epoch).Ok?
    ensures Historic(Follow(w, StartEpoch(w.state, e, epoch).value))
    ensures !StartEpoch(w.state, e, epoch).value.changed
  {
    hide Historic, Refresh, Outdated;
    RefreshKeepsHistory(w, epoch);
    RefreshIs(w.state.(epoch := epoch), epoch);
    var t := Refresh(w.state.(epoch := epoch), epoch);
    PruneKeepsHistory(Follow(w, t).(low := w.low));
    TicksDoNotMatter(World(Prune(t), Follow(w, t).inForce, Follow(w, t).past, Max(w.low, t.version - t.snapshotCount)),
                     w.state.ticks[epoch := Tick(e.height, e.time)]);
  }

  lemma CountDoesNotMatter(w: World, count: nat)
    requires Historic(w)
    ensures Historic(w.(state := w.state.(snapshotCount := count)))
  {
  }

  lemma TicksDoNotMatter(w: World, ticks: map<nat, Tick>)
    requires Historic(w)
    ensures Historic(w.(state := w.state.(ticks := ticks)))
  {
  }

  /** Candidates may change freely while the change flag is up; without it only in what is not copied. */
  lemma CandidatesKeepHistory(w: World, t: State)
    requires Historic(w)
    requires t == w.state.(candidates := t.candidates, changed := t.changed, threshold := t.threshold)
    requires !t.changed ==> !w.state.changed && SameNodes(w.state.candidates, t.candidates)
    ensures Historic(w.(state := t))
  {
  }

  /** Snapshots are pruned as soon as more than the configured number exists. */
  ghost predicate Pruned(w: World) {
    w.state.version - w.state.snapshotCount <= w.low
  }

  /** A new candidate raises the flag; while there are no containers it starts an epoch at once. */
  lemma EnterKeepsHistory(w: World, e: Env, node: Node)
    requires Historic(w) && Pruned(w) && Enter(w.state, e, node).Ok?
    ensures Historic(Follow(w, Enter(w.state, e, node).value)) && Pruned(Follow(w, Enter(w.state, e, node).value))
  {
    hide Historic, Prune, Refresh;
    var s := w.state;
    var entered := s.(candidates := s.candidates[node.key := Candidate(node.info, node.key, node.state, s.epoch)], changed := true);
    CandidatesKeepHistory(w, entered);
    if e.containers == 0 {
      StartKeepsHistory(w.(state := entered), e, s.epoch + 1);
    }
  }

  lemma ChangeKeepsHistory(w: World, key: Key, state: int)
    requires Historic(w) && Pruned(w) && ChangeState(w.state, key, state).Ok?
    ensures Historic(Follow(w, ChangeState(w.state, key, state).value)) && Pruned(Follow(w, ChangeState(w.state, key, state).value))
  {
    CandidatesKeepHistory(w, ChangeState(w.state, key, state).value);
    hide Historic;
  }

  lemma StepKeepsHistory(w: World, e: Env, op: Operation)
    requires Historic(w) && Pruned(w) && Apply(w.state, e, op).Ok?
    ensures Historic(Follow(w, Apply(w.state, e, op).value)) && Pruned(Follow(w, Apply(w.state, e, op).value))
  {
    hide Historic, Refresh, Outdated;
    match op
    case NewEpoch(epoch) => StartKeepsHistory(w, e, epoch);
    case UpdateSnapshotCount(count) =>
      CountDoesNotMatter(w, count);
      PruneKeepsHistory(w.(state := w.state.(snapshotCount := count)));
    case AddNode(node) => EnterKeepsHistory(w, e, node);
    case UpdateState(state, key) => ChangeKeepsHistory(w, key, state);
    case DeleteNode(key) => ChangeKeepsHistory(w, key, OFFLINE);
    case SetCleanupThreshold(val) => CandidatesKeepHistory(w, Apply(w.state, e, op).value);
  }

  datatype Call = Call(env: Env, op: Operation)

  ghost function Run(calls: seq<Call>): World {
    if calls == [] then INITIAL
    else
      var w, c := Run(calls[..|calls| - 1]), calls[|calls| - 1];
      match Apply(w.state, c.env, c.op)
      case Fault(_) => w
      case Ok(t) => Follow(w, t)
  }

  /** In every reachable state the index gives, for every epoch so far and also for skipped numbers, the
      version in force then; retained snapshots are as they were taken; and while nothing is flagged as
      changed the newest one is the candidate list. */
  lemma {:induction false} EveryRunIsHistoric(calls: seq<Call>)
    ensures Historic(Run(calls)) && Pruned(Run(calls))
  {
    if calls == [] {
      assert VersionFor(DEPLOYED.versions, 0) == 0;
    } else {
      var init, c := calls[..|calls| - 1], calls[|calls| - 1];
      EveryRunIsHistoric(init);
      if Apply(Run(init).state, c.env, c.op).Ok? {
        StepKeepsHistory(Run(init), c.env, c.op);
      }
    }
  }

  /** The node's status in a past set of candidates; a missing node counts as offline. */
  function StatusIn(c: Candidates, key: Key, status: int): bool {
    if key in c then c[key].state == status else status == OFFLINE
  }

  /** For an epoch whose version is retained the answer is that of the snapshot taken then. Once it has
      been dropped every node is reported offline, which is then right exactly for those that were. Of an
      epoch still to come nothing is reported. */
  lemma StatusIsFaithful(w: World, key: Key, epoch: nat, status: int)
    requires Historic(w)
    ensures w.state.epoch < epoch ==> !HasStatus(w.state, key, epoch, status)
    ensures epoch <= w.state.epoch ==> var v := w.inForce[epoch];
      && (w.low <= v ==> HasStatus(w.state, key, epoch, status) == StatusIn(w.past[v], key, status))
      && (v < w.low ==> HasStatus(w.state, key, epoch, status) == (status == OFFLINE))
      && ((HasStatus(w.state, key, epoch, status) == StatusIn(w.past[v], key, status))
          <==> (w.low <= v || StatusIn(w.past[v], key, status) == (status == OFFLINE)))
  {
    if epoch <= w.state.epoch {
      var v := w.inForce[epoch];
      assert VersionFor(w.state.versions, epoch) == v;
      if w.low <= v {
        assert Faithful(w.state.snapshots, v, w.past[v]);
      }
    }
  }

  /** An epoch change forgets exactly the candidates that have been silent for more than the threshold. */
  lemma EpochForgetsSilent(s: State, e: Env, epoch: nat)
    requires StartEpoch(s, e, epoch).Ok?
    ensures var t := StartEpoch(s, e, epoch).value;
      && (forall k :: k in t.candidates <==>
            k in s.candidates && (s.threshold == 0 || epoch - s.threshold <= s.candidates[k].lastActive))
      && (forall k :: k in t.candidates ==> t.candidates[k] == s.candidates[k])
  {
    hide Outdated, Copy;
  }

  /** After an epoch change the newest snapshot is the candidate list. */
  lemma EpochIsCoherent(w: World, e: Env, epoch: nat)
    requires Historic(w) && StartEpoch(w.state, e, epoch).Ok?
    ensures var t := StartEpoch(w.state, e, epoch).value; Faithful(t.snapshots, t.version, t.candidates)
  {
    StartKeepsHistory(w, e, epoch);
    hide StartEpoch, Follow;
    NewestIsCandidates(Follow(w, StartEpoch(w.state, e, epoch).value)) by { FollowsTo(w, StartEpoch(w.state, e, epoch).value); }
    FollowsTo(w, StartEpoch(w.state, e, epoch).value);
  }

  lemma FollowsTo(w: World, t: State)
    ensures Follow(w, t).state == t
  {
  }

  lemma NewestIsCandidates(w: World)
    requires Historic(w) && !w.state.changed
    ensures Faithful(w.state.snapshots, w.state.version, w.state.candidates)
  {
    assert Faithful(w.state.snapshots, w.state.version, w.past[w.state.version]);
    assert SameNodes(w.past[w.state.version], w.state.candidates);
  }

  /** The version counts changes: it goes up by one in an epoch that finds some, and else stays. */
  lemma VersionMovesIff(s: State, e: Env, epoch: nat)
    requires StartEpoch(s, e, epoch).Ok?
    ensures StartEpoch(s, e, epoch).value.version == s.version
       <==> !s.changed && forall k :: k in s.candidates && 0 < s.threshold ==> epoch - s.threshold <= s.candidates[k].lastActive
  {
    var stale := Stale(s.(epoch := epoch), epoch);
    if stale != {} {
      var k :| k in stale;
      assert IsStale(s.candidates[k], s.threshold, epoch);
    } else {
      forall k | k in s.candidates && 0 < s.threshold
        ensures epoch - s.threshold <= s.candidates[k].lastActive
      {
        assert k !in stale;
      }
    }
  }
}
