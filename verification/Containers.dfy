/** The container contract's storage and the rules of its entry points
    (contracts/container/contract.go): containers and their owner index, node lists, the ledger of
    storage reports with its three levels of sums, and the billing statistics. */
module Containers {
  import opened Storage
  import opened Varint
  import Billing

  type Bytes = seq<Byte>
  type Cid = Bytes
  type Owner = Bytes

  const HASH256_LEN := 32
  const HASH160_LEN := 20
  const PUBLIC_KEY_LEN := 33
  const MAX_NUM_OF_REPS := 255
  const MAX_REPORTS_PER_EPOCH := 3
  const OBJECT_BILLING_SIZE := 0x4000

  /** Script hash of a single-key account; hashes are taken not to collide. */
  datatype Account = StandardAccount(key: Bytes)

  /** A lock attribute, its decimal value read as seconds, or any other attribute. */
  datatype Attribute = LockUntil(seconds: int) | Other(key: Bytes, value: Bytes)

  datatype Container = Container(owner: Owner, revision: nat, attributes: seq<Attribute>)

  /** Key of a node-list entry: container, placement vector and node account. */
  datatype Slot = Slot(cid: Cid, vector: nat, account: Account)

  datatype NodeReport = NodeReport(key: Bytes, size: int, objects: int, number: int, epoch: int)

  datatype Summary = Summary(size: int, objects: int)

  type ReportKey = (Cid, Account)

  datatype State = State(
    containers: map<Cid, Container>, owned: set<(Owner, Cid)>, deleted: set<Cid>,
    nodes: map<Slot, Bytes>, staged: map<Slot, Bytes>, replicas: map<(Cid, nat), nat>,
    reports: map<ReportKey, NodeReport>, billing: map<ReportKey, Billing.Stat>,
    summaries: map<Cid, Summary>, taken: map<Owner, int>)

  const DEPLOYED := State(map[], {}, {}, map[], map[], map[], map[], map[], map[], map[])

  datatype Error =
    | NoAlphabetWitness | NoNodeWitness | InvalidContainerId | InvalidReceiver | NotFound | Deleted | Locked
    | InvalidLock | RequestExpired | TooManyNodes | VectorGap | InvalidPublicKey | NotMember
    | TooManyReports | DivisionByZero | NoSummary

  /** What the chain and the netmap contract supply: the alphabet's witness, block time, epoch, when the
      epoch began, and how many seconds epochs last. */
  datatype Env = Env(alphabet: bool, now: int, epoch: int, tick: int, duration: int)

  datatype Operation =
    | Create(id: Cid, owner: Owner, attributes: seq<Attribute>)
    | Remove(id: Cid)
    | Transfer(to: Owner, id: Cid, fromSigned: bool, toSigned: bool, decoded: int)
    | SetLock(id: Cid, seconds: int, validUntil: int)
    | RemoveLock(id: Cid, validUntil: int)
    | AddNextEpochNodes(cid: Cid, vector: nat, keys: seq<Bytes>)
    | Commit(cid: Cid, vectors: seq<nat>)
    | PutReport(cid: Cid, size: int, objects: int, key: Bytes, signed: bool)

  // ---- locks ----

  /** Position of the first lock attribute, or the number of attributes. */
  function LockIndex(attributes: seq<Attribute>): (i: nat)
    ensures i <= |attributes|
    ensures i < |attributes| ==> attributes[i].LockUntil?
    ensures forall j :: 0 <= j < i ==> !attributes[j].LockUntil?
  {
    if attributes == [] || attributes[0].LockUntil? then 0 else 1 + LockIndex(attributes[1..])
  }

  /** End of the effective lock in milliseconds. */
  function LockEnd(c: Container): Option<int> {
    var i := LockIndex(c.attributes);
    if i < |c.attributes| then Some(c.attributes[i].seconds * 1000) else None
  }

  predicate ValidLock(seconds: int, now: int) {
    0 < seconds && now < seconds * 1000
  }

  // ---- totals of an owner ----

  /** The owner's taken space after a change; totals that are not positive are not stored. */
  function Shift(taken: map<Owner, int>, owner: Owner, diff: int): map<Owner, int> {
    var total := Get(taken, owner) + diff;
    if diff == 0 then taken
    else if 0 < total then taken[owner := total]
    else taken - {owner}
  }

  // ---- lifecycle ----

  function CreateContainer(s: State, e: Env, id: Cid, owner: Owner, attributes: seq<Attribute>): Result<State, Error> {
    if !e.alphabet then Fault(NoAlphabetWitness)
    else if id in s.deleted then Fault(Deleted)
    else if exists a :: a in attributes && a.LockUntil? && !ValidLock(a.seconds, e.now) then Fault(InvalidLock)
    else Ok(s.(containers := s.containers[id := Container(owner, 1, attributes)], owned := s.owned + {(owner, id)}))
  }

  function SlotsOf(m: map<Slot, Bytes>, cid: Cid): set<Slot> {
    set k | k in m && k.cid == cid
  }

  /** Everything kept for a container goes; only the mark that it existed stays. */
  function Erase(s: State, id: Cid): State
    requires id in s.containers
  {
    var owner := s.containers[id].owner;
    State(
      s.containers - {id}, s.owned - {(owner, id)}, s.deleted + {id},
      s.nodes - SlotsOf(s.nodes, id), s.staged - SlotsOf(s.staged, id),
      s.replicas - (set k | k in s.replicas && k.0 == id),
      s.reports - (set k | k in s.reports && k.0 == id),
      s.billing - (set k | k in s.billing && k.0 == id),
      s.summaries - {id},
      if id in s.summaries then Shift(s.taken, owner, -s.summaries[id].size) else s.taken)
  }

  function RemoveContainer(s: State, e: Env, id: Cid): Result<State, Error> {
    if !e.alphabet then Fault(NoAlphabetWitness)
    else if |id| != HASH256_LEN then Fault(InvalidContainerId)
    else if id !in s.containers then Ok(s)
    else if LockEnd(s.containers[id]).Some? && e.now <= LockEnd(s.containers[id]).value then Fault(Locked)
    else Ok(Erase(s, id))
  }

  /** `decoded` is the integer the contract makes of the stored summary. The summary is a serialized
      structure, and the contract reads it here with a plain integer conversion. */
  function TransferContainer(s: State, to: Owner, id: Cid, fromSigned: bool, toSigned: bool, decoded: int): Result<State, Error> {
    if |to| != HASH160_LEN then Fault(InvalidReceiver)
    else if id !in s.containers then if id in s.deleted then Fault(Deleted) else Fault(NotFound)
    else if !fromSigned || !toSigned || s.containers[id].owner == to then Ok(s)
    else
      var c := s.containers[id];
      Ok(s.(containers := s.containers[id := c.(owner := to, revision := c.revision + 1)],
            owned := s.owned - {(c.owner, id)} + {(to, id)},
            taken := if id in s.summaries then Shift(Shift(s.taken, c.owner, -decoded), to, decoded) else s.taken))
  }

  function PutLock(s: State, e: Env, id: Cid, seconds: int, validUntil: int): Result<State, Error> {
    if !e.alphabet then Fault(NoAlphabetWitness)
    else if validUntil * 1000 < e.now then Fault(RequestExpired)
    else if id !in s.containers then Fault(NotFound)
    else
      var c := s.containers[id];
      var i := LockIndex(c.attributes);
      if !ValidLock(seconds, e.now) then Fault(InvalidLock)
      else if i < |c.attributes| && seconds <= c.attributes[i].seconds then Fault(InvalidLock)
      else
        var attributes := if i < |c.attributes| then c.attributes[i := LockUntil(seconds)] else c.attributes + [LockUntil(seconds)];
        Ok(s.(containers := s.containers[id := c.(attributes := attributes, revision := c.revision + 1)]))
  }

  function DropLock(s: State, e: Env, id: Cid, validUntil: int): Result<State, Error> {
    if !e.alphabet then Fault(NoAlphabetWitness)
    else if validUntil * 1000 < e.now then Fault(RequestExpired)
    else if id !in s.containers then Fault(NotFound)
    else
      var c := s.containers[id];
      var i := LockIndex(c.attributes);
      if i == |c.attributes| then Ok(s)
      else if e.now < c.attributes[i].seconds * 1000 then Fault(Locked)
      else
        var attributes := c.attributes[..i] + c.attributes[i + 1..];
        Ok(s.(containers := s.containers[id := c.(attributes := attributes, revision := c.revision + 1)]))
  }

  // ---- node lists ----

  /** The stage with all the given nodes entered for one placement vector. */
  function Stage(staged: map<Slot, Bytes>, cid: Cid, vector: nat, keys: seq<Bytes>): map<Slot, Bytes> {
    if keys == [] then staged
    else
      var last := keys[|keys| - 1];
      Stage(staged, cid, vector, keys[..|keys| - 1])[Slot(cid, vector, StandardAccount(last)) := last]
  }

  ghost predicate HasVector(m: map<Slot, Bytes>, cid: Cid, vector: nat) {
    exists a :: Slot(cid, vector, a) in m
  }

  ghost function StageNodes(s: State, e: Env, cid: Cid, vector: nat, keys: seq<Bytes>): Result<State, Error> {
    if |cid| != HASH256_LEN then Fault(InvalidContainerId)
    else if MAX_NUM_OF_REPS <= vector then Fault(TooManyNodes)
    else if vector != 0 && !HasVector(s.staged, cid, vector - 1) then Fault(VectorGap)
    else if !e.alphabet then Fault(NoAlphabetWitness)
    else if exists k :: k in keys && |k| != PUBLIC_KEY_LEN then Fault(InvalidPublicKey)
    else Ok(s.(staged := Stage(s.staged, cid, vector, keys)))
  }

  /** The node is staged for one of the first n placement vectors. */
  predicate Stays(staged: map<Slot, Bytes>, cid: Cid, a: Account, n: nat) {
    exists i :: 0 <= i < n && Slot(cid, i, a) in staged
  }

  /** Reports of nodes on the current list that are not staged for any of the first n vectors. */
  function Departed(s: State, cid: Cid, n: nat): set<ReportKey> {
    set k | k in s.nodes && k.cid == cid && !Stays(s.staged, cid, k.account, n) && (cid, k.account) in s.reports
      :: (cid, k.account)
  }

  function PutReplicas(m: map<(Cid, nat), nat>, cid: Cid, vectors: seq<nat>): map<(Cid, nat), nat> {
    if vectors == [] then m
    else PutReplicas(m, cid, vectors[..|vectors| - 1])[(cid, |vectors| - 1) := vectors[|vectors| - 1]]
  }

  function SizeIn(cid: Cid): (ReportKey, NodeReport) -> int {
    (k: ReportKey, r: NodeReport) => if k.0 == cid then r.size else 0
  }

  function ObjectsIn(cid: Cid): (ReportKey, NodeReport) -> int {
    (k: ReportKey, r: NodeReport) => if k.0 == cid then r.objects else 0
  }

  predicate ReplicasFit(vectors: seq<nat>) {
    forall v :: v in vectors ==> v <= MAX_NUM_OF_REPS
  }

  /** The staged list becomes the current one; what departed nodes had reported is taken off. */
  ghost function CommitList(s: State, e: Env, cid: Cid, vectors: seq<nat>): Result<State, Error> {
    if |cid| != HASH256_LEN then Fault(InvalidContainerId)
    else if !e.alphabet then Fault(NoAlphabetWitness)
    else if !ReplicasFit(vectors) then Fault(TooManyNodes)
    else
      var reports := s.reports - Departed(s, cid, |vectors|);
      var space := Sum(reports, SizeIn(cid)) - Sum(s.reports, SizeIn(cid));
      var objects := Sum(reports, ObjectsIn(cid)) - Sum(s.reports, ObjectsIn(cid));
      var after := s.(
        nodes := s.nodes - SlotsOf(s.nodes, cid) + (s.staged - (s.staged.Keys - SlotsOf(s.staged, cid))),
        staged := s.staged - SlotsOf(s.staged, cid),
        replicas := PutReplicas(s.replicas - (set k | k in s.replicas && k.0 == cid), cid, vectors),
        reports := reports);
      if space == 0 && objects == 0 then Ok(after)
      else if cid !in s.summaries || cid !in s.containers then Fault(NoSummary)
      else
        var summary := s.summaries[cid];
        Ok(after.(summaries := s.summaries[cid := Summary(summary.size + space, summary.objects + objects)],
                  taken := Shift(s.taken, s.containers[cid].owner, space)))
  }

  // ---- reports ----

  predicate IsMember(s: State, cid: Cid, key: Bytes) {
    exists k :: k in s.nodes && k.cid == cid && s.nodes[k] == key
  }

  function Billed(size: int, objects: int): int {
    size + objects * OBJECT_BILLING_SIZE
  }

  /** The report as the billing log records it. */
  function LogEntry(s: State, e: Env, cid: Cid, size: int, objects: int, key: Bytes): Billing.Report {
    Billing.Report(e.epoch, e.now, e.tick, e.duration * 1000, Billed(size, objects),
                   (cid, StandardAccount(key)) !in s.reports)
  }

  function SummaryOf(s: State, cid: Cid): Summary {
    if cid in s.summaries then s.summaries[cid] else Summary(0, 0)
  }

  function StatOf(s: State, k: ReportKey): Billing.Stat {
    if k in s.billing then s.billing[k] else Billing.Stat(0, 0, 0, 0, 0, 0, 0)
  }

  function SaveReport(s: State, e: Env, cid: Cid, size: int, objects: int, key: Bytes, signed: bool): Result<State, Error> {
    if !signed then Fault(NoNodeWitness)
    else if cid !in s.containers then Fault(NotFound)
    else if !IsMember(s, cid, key) then Fault(NotMember)
    else
      var k := (cid, StandardAccount(key));
      var owner, summary, entry := s.containers[cid].owner, SummaryOf(s, cid), LogEntry(s, e, cid, size, objects, key);
      if k !in s.reports then
        Ok(s.(reports := s.reports[k := NodeReport(key, size, objects, 1, e.epoch)],
              billing := s.billing[k := Billing.Opened(entry)],
              taken := Shift(s.taken, owner, size),
              summaries := s.summaries[cid := Summary(summary.size + size, summary.objects + objects)]))
      else
        var r := s.reports[k];
        if r.epoch == e.epoch && r.number == MAX_REPORTS_PER_EPOCH then Fault(TooManyReports)
        else if e.duration == 0 then Fault(DivisionByZero)
        else
          Ok(s.(reports := s.reports[k := NodeReport(r.key, size, objects, if r.epoch == e.epoch then r.number + 1 else 1, e.epoch)],
                billing := s.billing[k := Billing.Updated(StatOf(s, k), Billed(r.size, r.objects), r.epoch == e.epoch, entry)],
                taken := Shift(s.taken, owner, size - r.size),
                summaries := s.summaries[cid := Summary(summary.size - r.size + size, summary.objects - r.objects + objects)]))
  }

  ghost function Apply(s: State, e: Env, op: Operation): Result<State, Error> {
    match op
    case Create(id, owner, attributes) => CreateContainer(s, e, id, owner, attributes)
    case Remove(id) => RemoveContainer(s, e, id)
    case Transfer(to, id, fromSigned, toSigned, decoded) => TransferContainer(s, to, id, fromSigned, toSigned, decoded)
    case SetLock(id, seconds, validUntil) => PutLock(s, e, id, seconds, validUntil)
    case RemoveLock(id, validUntil) => DropLock(s, e, id, validUntil)
    case AddNextEpochNodes(cid, vector, keys) => StageNodes(s, e, cid, vector, keys)
    case Commit(cid, vectors) => CommitList(s, e, cid, vectors)
    case PutReport(cid, size, objects, key, signed) => SaveReport(s, e, cid, size, objects, key, signed)
  }
}
