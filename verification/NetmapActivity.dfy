/** What the netmap contract's record says about the calls made to it: who is a candidate, in which state and
    last active when, as told by the calls alone; and which calls are accepted (contracts/netmap/contract.go). */
module NetmapActivity {
  import opened Storage
  import opened Varint
  import opened Netmap
  import opened NetmapRuns

  ghost predicate Accepts(s: State, c: Call) {
    Apply(s, c.env, c.op).Ok?
  }

  /** Which calls go through: nodes enter online, with both witnesses and a proper key; a node's state is
      changed with both witnesses, to online or maintenance only while it is a candidate; the alphabet alone
      removes nodes, starts later epochs and sets counts and thresholds. */
  lemma AcceptsIff(s: State, c: Call)
    ensures Accepts(s, c) <==>
      match c.op
      case AddNode(node) => node.state == 1 && |node.key| == 33 && c.env.signed && c.env.alphabet
      case UpdateState(state, key) =>
        |key| == 33 && c.env.signed && c.env.alphabet && (state == 2 || (state in {1, 3} && key in s.candidates))
      case DeleteNode(key) => |key| == 33 && c.env.alphabet
      case NewEpoch(epoch) => c.env.alphabet && s.epoch < epoch
      case UpdateSnapshotCount(count) => c.env.alphabet && 0 <= count && count != s.snapshotCount
      case SetCleanupThreshold(val) => c.env.alphabet && 0 <= val
  {
    hide Refresh, Prune, IsStale;
  }

  // ---- what was asked for ----

  /** The latest accepted call about a node: in which epoch it came, the state it asked for (1 online,
      2 offline, 3 maintenance), and what the node last said of itself. */
  datatype Ask = Ask(epoch: nat, state: int, info: seq<Byte>)

  ghost function Asked(calls: seq<Call>, key: Key): Option<Ask> {
    if calls == [] then None else
      var init, c := calls[..|calls| - 1], calls[|calls| - 1];
      var s, before := Run(init).state, Asked(init, key);
      if !Accepts(s, c) then before
      else match c.op
        case AddNode(node) => if node.key == key then Some(Ask(s.epoch, 1, node.info)) else before
        case UpdateState(state, k) => if k == key then Some(Ask(s.epoch, state, if before.Some? then before.value.info else [])) else before
        case DeleteNode(k) => if k == key then Some(Ask(s.epoch, 2, if before.Some? then before.value.info else [])) else before
        case _ => before
  }

  predicate Names(op: Operation, key: Key) {
    match op
    case AddNode(node) => node.key == key
    case UpdateState(_, k) => k == key
    case DeleteNode(k) => k == key
    case _ => false
  }

  /** Asked to be on the network map, and not forgotten since by an epoch that came more than the threshold
      later. */
  ghost predicate Present(calls: seq<Call>, key: Key) {
    if calls == [] then false else
      var init, c := calls[..|calls| - 1], calls[|calls| - 1];
      var s, epoch := Run(init).state, Run(calls).state.epoch;
      if !Accepts(s, c) then Present(init, key)
      else if Names(c.op, key) then Asked(calls, key).Some? && Asked(calls, key).value.state != 2
      else
        Present(init, key)
        && (epoch == s.epoch || s.threshold == 0 || (Asked(init, key).Some? && epoch <= Asked(init, key).value.epoch + s.threshold))
  }

  /** The record of one node says what the calls said. */
  ghost predicate Tells(s: State, key: Key, present: bool, asked: Option<Ask>) {
    && (key in s.candidates <==> present)
    && (asked.Some? ==> asked.value.epoch <= s.epoch)
    && (present ==> asked.Some? && asked.value.state != 2
                    && s.candidates[key] == Candidate(asked.value.info, key, asked.value.state, asked.value.epoch))
  }

  /** An epoch begins: who stays is who was active within the threshold. */
  lemma EpochKeeps(s: State, e: Env, epoch: nat)
    requires StartEpoch(s, e, epoch).Ok?
    ensures var t := StartEpoch(s, e, epoch).value;
      && s.epoch < epoch == t.epoch && t.threshold == s.threshold && t.snapshotCount == s.snapshotCount
      && t.ticks == s.ticks[epoch := Tick(e.height, e.time)]
      && (forall k :: k in t.candidates <==> k in s.candidates && (s.threshold == 0 || epoch <= s.candidates[k].lastActive + s.threshold))
      && (forall k :: k in t.candidates ==> t.candidates[k] == s.candidates[k])
  {
    EpochForgetsSilent(s, e, epoch);
    hide Copy, Outdated, Stale;
  }

  /** What an accepted call does to the record of one node. */
  lemma StepTells(s: State, c: Call, key: Key, present: bool, asked: Option<Ask>)
    requires Tells(s, key, present, asked) && Accepts(s, c)
    ensures var t := Apply(s, c.env, c.op).value;
      var now := match c.op
        case AddNode(node) => if node.key == key then Some(Ask(s.epoch, 1, node.info)) else asked
        case UpdateState(state, k) => if k == key then Some(Ask(s.epoch, state, if asked.Some? then asked.value.info else [])) else asked
        case DeleteNode(k) => if k == key then Some(Ask(s.epoch, 2, if asked.Some? then asked.value.info else [])) else asked
        case _ => asked;
      Tells(t, key, if Names(c.op, key) then now.value.state != 2
                    else present && (t.epoch == s.epoch || s.threshold == 0 || t.epoch <= asked.value.epoch + s.threshold), now)
  {
    hide StartEpoch, Outdated;
    match c.op
    case AddNode(node) =>
      var t := s.(candidates := s.candidates[node.key := Candidate(node.info, node.key, node.state, s.epoch)], changed := true);
      if c.env.containers == 0 {
        EpochKeeps(t, c.env, s.epoch + 1);
      }
    case NewEpoch(epoch) => EpochKeeps(s, c.env, epoch);
    case _ =>
  }

  lemma RunStep(calls: seq<Call>)
    requires calls != []
    ensures var s, c := Run(calls[..|calls| - 1]).state, calls[|calls| - 1];
      Run(calls).state == if Accepts(s, c) then Apply(s, c.env, c.op).value else s
  {
  }

  /** In every run a node is a candidate exactly if the calls say so, with the information it last gave, the
      state last asked for and the epoch of that call as its last activity. */
  lemma {:induction false} RecordTellsCalls(calls: seq<Call>, key: Key)
    ensures Tells(Run(calls).state, key, Present(calls, key), Asked(calls, key))
  {
    hide Run, Apply, Tells;
    if calls == [] {
      NothingTold(key);
    } else {
      var init, c := calls[..|calls| - 1], calls[|calls| - 1];
      RecordTellsCalls(init, key);
      RunStep(calls);
      if Accepts(Run(init).state, c) {
        PresentWasAsked(Run(init).state, key, Present(init, key), Asked(init, key));
        StepTells(Run(init).state, c, key, Present(init, key), Asked(init, key));
      }
    }
  }

  lemma NothingTold(key: Key)
    ensures Tells(Run([]).state, key, false, None)
  {
  }

  lemma PresentWasAsked(s: State, key: Key, present: bool, asked: Option<Ask>)
    requires Tells(s, key, present, asked)
    ensures present ==> asked.Some?
  {
  }

  /** After any run, an accepted epoch change with a threshold forgets exactly the candidates that made no
      accepted call in the last epochs up to the threshold. */
  lemma EpochForgetsInactive(calls: seq<Call>, e: Env, epoch: nat, key: Key)
    requires StartEpoch(Run(calls).state, e, epoch).Ok? && key in Run(calls).state.candidates
    ensures Asked(calls, key).Some?
    ensures key in StartEpoch(Run(calls).state, e, epoch).value.candidates
       <==> Run(calls).state.threshold == 0 || epoch - Run(calls).state.threshold <= Asked(calls, key).value.epoch
  {
    RecordTellsCalls(calls, key);
    EpochKeeps(Run(calls).state, e, epoch);
    hide Run, StartEpoch;
  }

  // ---- settings ----

  /** Current epoch, cleanup threshold and number of snapshots, as last set by an accepted call. */
  datatype Settings = Settings(epoch: nat, threshold: nat, count: nat)

  ghost function LastSet(calls: seq<Call>): Settings {
    if calls == [] then Settings(0, 3, 10) else
      var init, c := calls[..|calls| - 1], calls[|calls| - 1];
      var before := LastSet(init);
      if !Accepts(Run(init).state, c) then before
      else match c.op
        case AddNode(_) => if c.env.containers == 0 then before.(epoch := before.epoch + 1) else before
        case NewEpoch(epoch) => before.(epoch := epoch)
        case UpdateSnapshotCount(count) => if 0 <= count then before.(count := count) else before
        case SetCleanupThreshold(val) => if 0 <= val then before.(threshold := val) else before
        case _ => before
  }

  /** Block height and time of the accepted call that began an epoch. */
  ghost function BeganAt(calls: seq<Call>, epoch: nat): Option<Tick> {
    if calls == [] then None else
      var init, c := calls[..|calls| - 1], calls[|calls| - 1];
      if LastSet(calls).epoch == epoch && LastSet(init).epoch != epoch then Some(Tick(c.env.height, c.env.time))
      else BeganAt(init, epoch)
  }

  ghost predicate Set(s: State, settings: Settings) {
    s.epoch == settings.epoch && s.threshold == settings.threshold && s.snapshotCount == settings.count
  }

  lemma StepSets(s: State, c: Call)
    requires Accepts(s, c)
    ensures var t := Apply(s, c.env, c.op).value;
      && t.epoch == (if c.op.NewEpoch? then c.op.epoch else if c.op.AddNode? && c.env.containers == 0 then s.epoch + 1 else s.epoch)
      && t.threshold == (if c.op.SetCleanupThreshold? then c.op.val else s.threshold)
      && t.snapshotCount == (if c.op.UpdateSnapshotCount? then c.op.count else s.snapshotCount)
      && t.ticks == (if t.epoch == s.epoch then s.ticks else s.ticks[t.epoch := Tick(c.env.height, c.env.time)])
  {
    hide Refresh, Outdated;
    match c.op
    case AddNode(node) =>
      var t := s.(candidates := s.candidates[node.key := Candidate(node.info, node.key, node.state, s.epoch)], changed := true);
      if c.env.containers == 0 {
        EpochKeeps(t, c.env, s.epoch + 1);
      }
    case NewEpoch(epoch) => EpochKeeps(s, c.env, epoch);
    case _ =>
  }

  /** In every run epoch, threshold and count are as last set, and each epoch's block is that of the call
      that began it. */
  lemma {:induction false} SettingsTellCalls(calls: seq<Call>)
    ensures Set(Run(calls).state, LastSet(calls))
    ensures forall e: nat :: e in Run(calls).state.ticks <==> BeganAt(calls, e).Some?
    ensures forall e: nat :: e in Run(calls).state.ticks ==> BeganAt(calls, e) == Some(Run(calls).state.ticks[e])
  {
    hide Run, Apply;
    if calls == [] {
      NothingTold([]);
      NoTicks();
    } else {
      var init, c := calls[..|calls| - 1], calls[|calls| - 1];
      SettingsTellCalls(init);
      RunStep(calls);
      if Accepts(Run(init).state, c) {
        AcceptsIff(Run(init).state, c);
        StepSets(Run(init).state, c);
      }
    }
  }

  lemma NoTicks()
    ensures Run([]).state.ticks == map[] && Set(Run([]).state, Settings(0, 3, 10))
  {
  }

  // ---- what an error says ----

  /** A call that fails says why: whatever the order of the checks, the reason given is true. */
  lemma ErrorsAreTrue(s: State, e: Env, op: Operation)
    requires Apply(s, e, op).Fault?
    ensures match Apply(s, e, op).error
      case NotOnline => op.AddNode? && op.node.state != 1
      case InvalidKey =>
        (op.AddNode? && |op.node.key| != 33) || ((op.UpdateState? || op.DeleteNode?) && |op.key| != 33)
      case NoNodeWitness => !e.signed && (op.AddNode? || op.UpdateState?)
      case NoAlphabetWitness => !e.alphabet
      case UnsupportedState => op.UpdateState? && op.state !in {1, 2, 3}
      case PeerMissing => op.UpdateState? && op.key !in s.candidates
      case InvalidEpoch => op.NewEpoch? && op.epoch <= s.epoch
      case InvalidCount => op.UpdateSnapshotCount? && (op.count < 0 || op.count == s.snapshotCount)
      case NegativeThreshold => op.SetCleanupThreshold? && op.val < 0
  {
    hide Refresh, Prune;
  }
}
