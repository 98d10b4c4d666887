/** The network map contract (contracts/netmap/contract.go): candidates that are copied into numbered
    snapshots when an epoch finds them changed, and the index from epochs to snapshots. */
module Netmap {
  import opened Storage
  import opened Varint

  type Key = seq<Byte>

  const PUBLIC_KEY_LEN := 33
  const ONLINE := 1
  const OFFLINE := 2
  const MAINTENANCE := 3
  const DEFAULT_SNAPSHOT_COUNT := 10
  const DEFAULT_CLEANUP_THRESHOLD := 3

  /** What is stored for a node of a network map; `info` stands for its addresses and attributes. */
  datatype Node = Node(info: seq<Byte>, key: Key, state: int)

  datatype Candidate = Candidate(info: seq<Byte>, key: Key, state: int, lastActive: int)
  {
    function ToNode(): Node { Node(info, key, state) }
  }

  type Candidates = map<Key, Candidate>
  type Snapshots = map<(nat, Key), Node>

  /** Block height and time at which an epoch came. */
  datatype Tick = Tick(height: int, time: int)

  datatype State = State(epoch: nat, version: nat, versions: map<nat, nat>, changed: bool, candidates: Candidates,
                         snapshots: Snapshots, snapshotCount: nat, threshold: nat, ticks: map<nat, Tick>)

  const DEPLOYED := State(0, 0, map[0 := 0], false, map[], map[], DEFAULT_SNAPSHOT_COUNT, DEFAULT_CLEANUP_THRESHOLD, map[])

  datatype Error = NotOnline | InvalidKey | NoNodeWitness | NoAlphabetWitness | UnsupportedState | PeerMissing
    | InvalidEpoch | InvalidCount | NegativeThreshold

  /** Witnesses of the node and the alphabet, block height and time, and how many containers there are. */
  datatype Env = Env(signed: bool, alphabet: bool, height: int, time: int, containers: nat)

  datatype Operation =
    | AddNode(node: Node)
    | UpdateState(state: int, key: Key)
    | DeleteNode(key: Key)
    | NewEpoch(epoch: nat)
    | UpdateSnapshotCount(count: int)
    | SetCleanupThreshold(val: int)

  // ---- the rules as functions of the state ----

  /** The stored snapshots with one more, numbered v, of the given candidates. */
  ghost function Copy(m: Snapshots, v: nat, c: Candidates): Snapshots
    decreases |c|
  {
    if c == map[] then m else
      var k :| k in c;
      Copy(m, v, c - {k})[(v, k) := c[k].ToNode()]
  }

  /** Candidates that have not shown up for more than the threshold. */
  function Stale(s: State, epoch: nat): set<Key> {
    set k | k in s.candidates && IsStale(s.candidates[k], s.threshold, epoch)
  }

  predicate IsStale(c: Candidate, threshold: nat, epoch: nat) {
    0 < threshold && c.lastActive < epoch - threshold
  }

  ghost function Refresh(s: State, epoch: nat): State {
    var stale := Stale(s, epoch);
    var t := s.(candidates := s.candidates - stale);
    if !s.changed && stale == {} then t
    else t.(version := s.version + 1, snapshots := Copy(s.snapshots, s.version + 1, t.candidates),
            versions := s.versions[epoch := s.version + 1], changed := false)
  }

  /** Snapshots older than the retained ones. */
  function Outdated(s: State): set<(nat, Key)> {
    set k | k in s.snapshots && k.0 < s.version - s.snapshotCount
  }

  function Prune(s: State): State {
    s.(snapshots := s.snapshots - Outdated(s))
  }

  ghost function StartEpoch(s: State, e: Env, epoch: nat): Result<State, Error> {
    if !e.alphabet then Fault(NoAlphabetWitness)
    else if epoch <= s.epoch then Fault(InvalidEpoch)
    else
      var t := Prune(Refresh(s.(epoch := epoch), epoch));
      Ok(t.(ticks := s.ticks[epoch := Tick(e.height, e.time)]))
  }

  ghost function Enter(s: State, e: Env, node: Node): Result<State, Error> {
    if node.state != ONLINE then Fault(NotOnline)
    else if |node.key| != PUBLIC_KEY_LEN then Fault(InvalidKey)
    else if !e.signed then Fault(NoNodeWitness)
    else if !e.alphabet then Fault(NoAlphabetWitness)
    else
      var t := s.(candidates := s.candidates[node.key := Candidate(node.info, node.key, node.state, s.epoch)], changed := true);
      if e.containers == 0 then StartEpoch(t, e, s.epoch + 1) else Ok(t)
  }

  function ChangeState(s: State, key: Key, state: int): Result<State, Error> {
    if state == OFFLINE then Ok(s.(candidates := s.candidates - {key}, changed := true))
    else if state != ONLINE && state != MAINTENANCE then Fault(UnsupportedState)
    else if key !in s.candidates then Fault(PeerMissing)
    else
      var c := s.candidates[key];
      Ok(s.(candidates := s.candidates[key := c.(state := state, lastActive := s.epoch)],
            changed := s.changed || c.state != state))
  }

  function ChangeCount(s: State, e: Env, count: int): Result<State, Error> {
    if !e.alphabet then Fault(NoAlphabetWitness)
    else if count < 0 || count == s.snapshotCount then Fault(InvalidCount)
    else Ok(Prune(s.(snapshotCount := count)))
  }

  ghost function Apply(s: State, e: Env, op: Operation): Result<State, Error> {
    match op
    case AddNode(node) => Enter(s, e, node)
    case UpdateState(state, key) =>
      if |key| != PUBLIC_KEY_LEN then Fault(InvalidKey)
      else if !e.signed then Fault(NoNodeWitness)
      else if !e.alphabet then Fault(NoAlphabetWitness)
      else ChangeState(s, key, state)
    case DeleteNode(key) =>
      if |key| != PUBLIC_KEY_LEN then Fault(InvalidKey)
      else if !e.alphabet then Fault(NoAlphabetWitness)
      else ChangeState(s, key, OFFLINE)
    case NewEpoch(epoch) => StartEpoch(s, e, epoch)
    case UpdateSnapshotCount(count) => ChangeCount(s, e, count)
    case SetCleanupThreshold(val) =>
      if val < 0 then Fault(NegativeThreshold)
      else if !e.alphabet then Fault(NoAlphabetWitness)
      else Ok(s.(threshold := val))
  }

  // ---- queries ----

  /** The version recorded for the latest epoch not after `epoch`. */
  function VersionFor(versions: map<nat, nat>, epoch: nat): nat {
    if epoch in versions then versions[epoch]
    else if epoch == 0 then 0
    else VersionFor(versions, epoch - 1)
  }

  function HasStatus(s: State, key: Key, epoch: nat, status: int): bool {
    var at := (VersionFor(s.versions, epoch), key);
    if s.epoch < epoch then false
    else if at in s.snapshots then s.snapshots[at].state == status
    else status == OFFLINE
  }

  // ---- what the copy holds ----

  lemma {:induction false} CopyHolds(m: Snapshots, v: nat, c: Candidates)
    ensures forall at :: at in Copy(m, v, c) <==> at in m || (at.0 == v && at.1 in c)
    ensures forall k :: k in c ==> Copy(m, v, c)[(v, k)] == c[k].ToNode()
    ensures forall at :: at in m && !(at.0 == v && at.1 in c) ==> Copy(m, v, c)[at] == m[at]
    decreases |c|
  {
    if c != map[] {
      var k :| k in c && Copy(m, v, c) == Copy(m, v, c - {k})[(v, k) := c[k].ToNode()];
      CopyHolds(m, v, c - {k});
    }
  }

  // ---- the contract ----

  /** What an iterator over keys in byte order yields: versions are stored big-endian, so they come in order. */
  ghost predicate InOrder(order: seq<(nat, Key)>, keys: set<(nat, Key)>) {
    && (forall at :: at in order <==> at in keys)
    && (forall i, j :: 0 <= i < j < |order| ==> order[i].0 <= order[j].0)
  }

  lemma MinusMinus<K, V>(m: map<K, V>, a: set<K>, k: K)
    ensures m - a - {k} == m - (a + {k})
  {
  }

  lemma LeastVersion(keys: set<(nat, Key)>, at: (nat, Key))
    requires at in keys
    ensures exists a :: a in keys && forall b :: b in keys ==> a.0 <= b.0
    decreases at.0
  {
    if exists b :: b in keys && b.0 < at.0 {
      var b :| b in keys && b.0 < at.0;
      LeastVersion(keys, b);
    }
  }

  method FindKeys(keys: set<(nat, Key)>) returns (order: seq<(nat, Key)>)
    ensures InOrder(order, keys)
  {
    order := [];
    var rest := keys;
    while rest != {}
      invariant rest <= keys && InOrder(order, keys - rest)
      invariant forall a, b :: a in order && b in rest ==> a.0 <= b.0
      decreases |rest|
    {
      ghost var some :| some in rest;
      LeastVersion(rest, some);
      var at :| at in rest && forall b :: b in rest ==> at.0 <= b.0;
      order := order + [at];
      rest := rest - {at};
    }
    assert keys - {} == keys;
  }

  lemma LargestEpoch(keys: set<nat>)
    requires keys != {}
    ensures exists e :: e in keys && forall b :: b in keys ==> b <= e
    decreases |keys|
  {
    var e :| e in keys;
    var more := set b | b in keys && e < b;
    assert forall b :: b in keys ==> b in more || b <= e;
    if more != {} {
      assert keys == more + (keys - more);
      assert e in keys - more;
      LargestEpoch(more);
      var last :| last in more && forall b :: b in more ==> b <= last;
      assert forall b :: b in keys ==> b <= last;
    }
  }

  lemma {:induction false} VersionForSkips(versions: map<nat, nat>, low: nat, epoch: nat)
    requires low <= epoch && forall e :: low < e <= epoch ==> e !in versions
    ensures VersionFor(versions, epoch) == VersionFor(versions, low)
    decreases epoch
  {
    if low < epoch {
      VersionForSkips(versions, low, epoch - 1);
    }
  }

  /** Stopping early misses nothing: what comes later in the order is not older. */
  lemma AllOutdated(s: State, order: seq<(nat, Key)>, i: nat, gone: set<(nat, Key)>)
    requires InOrder(order, s.snapshots.Keys) && i <= |order|
    requires i < |order| ==> s.version - s.snapshotCount <= order[i].0
    requires forall at :: at in gone ==> at in s.snapshots && at.0 < s.version - s.snapshotCount
    requires forall j :: 0 <= j < i ==> order[j] in gone
    ensures gone == Outdated(s)
  {
    forall at | at in Outdated(s)
      ensures at in gone
    {
      assert at in order;
      var j :| 0 <= j < |order| && order[j] == at;
      assert j < i;
    }
  }

  class Contract {
    var epoch: nat
    var version: nat
    var versions: map<nat, nat>
    var changed: bool
    var candidates: Candidates
    var snapshots: Snapshots
    var snapshotCount: nat
    var threshold: nat
    var ticks: map<nat, Tick>

    constructor ()
      ensures Now() == DEPLOYED
    {
      epoch, version, versions, changed := 0, 0, map[0 := 0], false;
      candidates, snapshots, ticks := map[], map[], map[];
      snapshotCount, threshold := DEFAULT_SNAPSHOT_COUNT, DEFAULT_CLEANUP_THRESHOLD;
    }

    function Now(): State
      reads this
    {
      State(epoch, version, versions, changed, candidates, snapshots, snapshotCount, threshold, ticks)
    }

    /** First loop of `updateNetmap`: forgets stale candidates. */
    method ForgetStale(epochNum: nat) returns (any: bool)
      modifies this`candidates, this`changed
      ensures candidates == old(candidates) - Stale(old(Now()), epochNum)
      ensures any == (Stale(old(Now()), epochNum) != {})
      ensures changed == (old(changed) || any)
    {
      any := false;
      var rest := candidates.Keys;
      ghost var all, gone: set<Key> := candidates, {};
      assert all - {} == all;
      while rest != {}
        invariant rest <= all.Keys
        invariant forall k :: k in gone <==> k in all && k !in rest && IsStale(all[k], threshold, epochNum)
        invariant candidates == all - gone
        invariant any == (gone != {}) && changed == (old(changed) || any)
        decreases |rest|
      {
        var k :| k in rest;
        var cand := candidates[k];
        if threshold > 0 && cand.lastActive < epochNum - threshold {
          MinusMinus(all, gone, k);
          candidates := candidates - {k};
          changed := true;
          any := true;
          gone := gone + {k};
        }
        rest := rest - {k};
      }
      assert gone == Stale(old(Now()), epochNum);
    }

    /** Second loop: copies the candidates into the snapshot of a new version. */
    method TakeSnapshot(v: nat)
      modifies this`snapshots
      ensures snapshots == Copy(old(snapshots), v, candidates)
    {
      var rest := candidates.Keys;
      ghost var before := snapshots;
      while rest != {}
        invariant rest <= candidates.Keys
        invariant forall at :: at in snapshots <==> at in before || (at.0 == v && at.1 in candidates.Keys - rest)
        invariant forall k :: k in candidates.Keys - rest ==> snapshots[(v, k)] == candidates[k].ToNode()
        invariant forall at :: at in before && !(at.0 == v && at.1 in candidates.Keys - rest) ==> snapshots[at] == before[at]
        decreases |rest|
      {
        var k :| k in rest;
        snapshots := snapshots[(v, k) := candidates[k].ToNode()];
        rest := rest - {k};
      }
      CopyHolds(before, v, candidates);
    }

    method UpdateNetmap(epochNum: nat)
      modifies this`candidates, this`changed, this`version, this`snapshots, this`versions
      ensures Now() == Refresh(old(Now()), epochNum)
    {
      var netmapChanged := changed;
      var any := ForgetStale(epochNum);
      if any {
        netmapChanged := true;
      }
      if !netmapChanged {
        return;
      }
      version := version + 1;
      TakeSnapshot(version);
      versions := versions[epochNum := version];
      changed := false;
    }

    /** Walks the snapshots in order of version and stops at the first one to keep. */
    method DropNetmaps()
      modifies this`snapshots
      ensures Now() == Prune(old(Now()))
    {
      var latestValidVersion := version - snapshotCount;
      ghost var before := snapshots;
      assert before - {} == before;
      if latestValidVersion <= 0 {
        assert Outdated(Now()) == {};
        return;
      }
      var order := FindKeys(snapshots.Keys);
      ghost var gone: set<(nat, Key)> := {};
      for i := 0 to |order|
        invariant snapshots == before - gone
        invariant forall at :: at in gone ==> at in before && at.0 < latestValidVersion
        invariant forall j :: 0 <= j < i ==> order[j] in gone
      {
        if order[i].0 >= latestValidVersion {
          AllOutdated(old(Now()), order, i, gone);
          return;
        }
        MinusMinus(before, gone, order[i]);
        snapshots := snapshots - {order[i]};
        gone := gone + {order[i]};
      }
      AllOutdated(old(Now()), order, |order|, gone);
    }

    method BeginEpoch(e: Env, epochNum: nat) returns (r: Result<(), Error>)
      modifies this
      ensures Obeys(old(Now()), e, NewEpoch(epochNum), Now(), r)
    {
      if !e.alphabet {
        return Fault(NoAlphabetWitness);
      }
      if epochNum <= epoch {
        return Fault(InvalidEpoch);
      }
      epoch := epochNum;
      UpdateNetmap(epochNum);
      DropNetmaps();
      ticks := ticks[epochNum := Tick(e.height, e.time)];
      return Ok(());
    }

    method AddCandidate(e: Env, n: Node) returns (r: Result<(), Error>)
      modifies this
      ensures Obeys(old(Now()), e, AddNode(n), Now(), r)
    {
      if n.state != ONLINE {
        return Fault(NotOnline);
      }
      if |n.key| != PUBLIC_KEY_LEN {
        return Fault(InvalidKey);
      }
      if !e.signed {
        return Fault(NoNodeWitness);
      }
      if !e.alphabet {
        return Fault(NoAlphabetWitness);
      }
      candidates := candidates[n.key := Candidate(n.info, n.key, n.state, epoch)];
      changed := true;
      r := Ok(());
      if e.containers == 0 {
        r := BeginEpoch(e, epoch + 1);
      }
    }

    method UpdateCandidateState(key: Key, state: int) returns (r: Result<(), Error>)
      modifies this`candidates, this`changed
      ensures match ChangeState(old(Now()), key, state)
              case Fault(error) => r == Fault(error) && Now() == old(Now())
              case Ok(s) => r == Ok(()) && Now() == s
    {
      if state == OFFLINE {
        candidates := candidates - {key};
        changed := true;
      } else if state == ONLINE || state == MAINTENANCE {
        if key !in candidates {
          return Fault(PeerMissing);
        }
        var cand := candidates[key];
        if cand.state != state {
          changed := true;
        }
        candidates := candidates[key := cand.(state := state, lastActive := epoch)];
      } else {
        return Fault(UnsupportedState);
      }
      return Ok(());
    }

    method ProposeState(e: Env, state: int, key: Key) returns (r: Result<(), Error>)
      modifies this
      ensures Obeys(old(Now()), e, UpdateState(state, key), Now(), r)
    {
      if |key| != PUBLIC_KEY_LEN {
        return Fault(InvalidKey);
      }
      if !e.signed {
        return Fault(NoNodeWitness);
      }
      if !e.alphabet {
        return Fault(NoAlphabetWitness);
      }
      r := UpdateCandidateState(key, state);
    }

    method RemoveNode(e: Env, key: Key) returns (r: Result<(), Error>)
      modifies this
      ensures Obeys(old(Now()), e, DeleteNode(key), Now(), r)
    {
      if |key| != PUBLIC_KEY_LEN {
        return Fault(InvalidKey);
      }
      if !e.alphabet {
        return Fault(NoAlphabetWitness);
      }
      r := UpdateCandidateState(key, OFFLINE);
    }

    method SetSnapshotCount(e: Env, count: int) returns (r: Result<(), Error>)
      modifies this
      ensures Obeys(old(Now()), e, UpdateSnapshotCount(count), Now(), r)
    {
      if !e.alphabet {
        return Fault(NoAlphabetWitness);
      }
      if count < 0 || snapshotCount == count {
        return Fault(InvalidCount);
      }
      snapshotCount := count;
      DropNetmaps();
      return Ok(());
    }

    method SetThreshold(e: Env, val: int) returns (r: Result<(), Error>)
      modifies this
      ensures Obeys(old(Now()), e, SetCleanupThreshold(val), Now(), r)
    {
      if val < 0 {
        return Fault(NegativeThreshold);
      }
      if !e.alphabet {
        return Fault(NoAlphabetWitness);
      }
      threshold := val;
      return Ok(());
    }

    /** Walks the recorded epochs backwards to the first one that is not later. */
    method NmVersionForEpoch(epochNum: nat) returns (v: nat)
      ensures v == VersionFor(versions, epochNum)
    {
      var rest := versions.Keys;
      while rest != {}
        invariant rest <= versions.Keys
        invariant forall e :: e in versions && e !in rest ==> epochNum < e && forall b :: b in rest ==> b < e
        decreases |rest|
      {
        LargestEpoch(rest);
        var e :| e in rest && forall b :: b in rest ==> b <= e;
        if e <= epochNum {
          VersionForSkips(versions, e, epochNum);
          return versions[e];
        }
        rest := rest - {e};
      }
      VersionForSkips(versions, 0, epochNum);
      return 0;
    }

    method IsStorageNodeStatus(key: Key, epochNum: nat, status: int) returns (r: bool)
      ensures r == HasStatus(Now(), key, epochNum, status)
    {
      if epochNum > epoch {
        return false;
      }
      var v := NmVersionForEpoch(epochNum);
      if (v, key) !in snapshots {
        return status == OFFLINE;
      }
      return snapshots[(v, key)].state == status;
    }
  }

  /** The call did what the rules say; a failed one left everything as it was. */
  ghost predicate Obeys(before: State, e: Env, op: Operation, after: State, outcome: Result<(), Error>) {
    match Apply(before, e, op)
    case Fault(error) => outcome == Fault(error) && after == before
    case Ok(s) => outcome == Ok(()) && after == s
  }
}
