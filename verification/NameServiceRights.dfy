/** Who may do what in the name service (contracts/nns/contract.go), what the record of a name says about the
    calls made for it, and that what is written is what is read. */
module NameServiceRights {
  import opened Storage
  import opened Labels
  import opened NameService
  import opened NameServiceLaws

  /** The committee for names without an owner; otherwise the owner or the admin. */
  predicate Entitled(names: Names, token: string, e: Env) {
    token in names &&
    if names[token].owner == [] then e.committee
    else names[token].owner in e.signers || (names[token].admin.Some? && names[token].admin.value in e.signers)
  }

  /** All names above are registered and unexpired. */
  predicate ParentsLive(names: Names, name: string, now: int) {
    forall i :: 1 <= i < |Split(name)| ==> Live(names, Suffix(name, i), now)
  }

  /** Records of a name can be written by whoever is entitled to the domain that holds them, if it stands. */
  ghost predicate MayWrite(s: State, e: Env, name: string) {
    var token := TokenID(s.names, name, e.now);
    && token.Ok? && 1 < |Split(token.value)| && Live(s.names, token.value, e.now) && ParentsLive(s.names, token.value, e.now)
    && Entitled(s.names, token.value, e)
    && RecordKey(token.value, token.value, 6, 0) in s.records && e.renewed.Some?
  }

  lemma ParentsLiveIff(names: Names, name: string, now: int)
    ensures ParentsLive(names, name, now) <==> !ParentExpired(names, Split(name), 1, now)
  {
    hide Split, Join, Live;
    var labels := Split(name);
    assert forall i :: 1 <= i < |labels| ==> Suffix(name, i) == Join(labels[i..]);
    if ParentExpired(names, labels, 1, now) {
      var i :| 1 <= i < |labels| && !Live(names, Join(labels[i..]), now);
      assert !Live(names, Suffix(name, i), now);
    } else {
      forall i | 1 <= i < |labels|
        ensures Live(names, Suffix(name, i), now)
      {
        assert labels[i..] == labels[i..] && Live(names, Join(labels[i..]), now);
      }
    }
  }

  /** Which calls that register, hand over, prolong or entrust a name go through. */
  lemma RegistryAcceptsIff(s: State, e: Env, op: Operation)
    ensures match op
      case Register(name, owner, expire, soa) =>
        Apply(s, e, op).Ok? <==>
          && WellFormed(name) && 2 <= |Split(name)| && Split(name)[|Split(name)| - 1] in s.roots && ParentsLive(s.names, name, e.now)
          && (2 < |Split(name)| ==> Entitled(s.names, Suffix(name, 1), e))
          && (forall k :: k in s.records && k.token == Suffix(name, 1) && |name| < |k.name| ==> k.name[|k.name| - |name|..] != name)
          && |owner| == 20 && owner in e.signers
      case RegisterTLD(name, expire, soa) =>
        Apply(s, e, op).Ok? <==> e.committee && WellFormed(name) && |Split(name)| == 1 && (name in s.roots ==> !Live(s.names, name, e.now))
      case Transfer(to, name) => Apply(s, e, op).Ok? <==> |to| == 20 && 2 <= |Split(name)| && Live(s.names, name, e.now)
      case Renew(name, years) =>
        Apply(s, e, op).Ok? <==>
          && 1 <= years <= 10 && Live(s.names, name, e.now) && ParentsLive(s.names, name, e.now) && Entitled(s.names, name, e)
          && WellFormed(name)
          && (2 <= |Split(name)| ==> s.names[name].expiration + 31_536_000_000 * years <= e.now + 315_360_000_000)
      case SetAdmin(name, admin) =>
        Apply(s, e, op).Ok? <==>
          && |name| <= 255 && 2 <= |Split(name)| && Live(s.names, name, e.now) && ParentsLive(s.names, name, e.now)
          && s.names[name].owner in e.signers && (admin.Some? ==> admin.value in e.signers)
      case UpdateSOA(name, soa) =>
        Apply(s, e, op).Ok? <==>
          WellFormed(name) && Live(s.names, name, e.now) && ParentsLive(s.names, name, e.now) && Entitled(s.names, name, e)
      case _ => true
  {
    hide WellFormed, Split, Join, RegisterName, RegisterRoot, ParentsLive, ParentExpired, TokenFrom;
    match op
    case Register(name, owner, expire, soa) => RegisterAcceptsIff(s, e, name, owner, expire, soa);
    case RegisterTLD(name, expire, soa) => RootAcceptsIff(s, e, name, expire, soa);
    case Renew(name, _) => ParentsLiveIff(s.names, name, e.now); ShortNames(name);
    case SetAdmin(name, _) => ParentsLiveIff(s.names, name, e.now);
    case UpdateSOA(name, _) => ParentsLiveIff(s.names, name, e.now); ShortNames(name);
    case _ =>
  }

  lemma ShortNames(name: string)
    ensures WellFormed(name) ==> |name| <= 255
  {
    hide CheckFragment, Split;
  }

  lemma RootAcceptsIff(s: State, e: Env, name: string, expire: int, soa: string)
    ensures RegisterRoot(s, e, name, expire, soa).Ok?
       <==> e.committee && WellFormed(name) && |Split(name)| == 1 && (name in s.roots ==> !Live(s.names, name, e.now))
  {
    JoinSplit(name);
    assert Split(name)[0..] == Split(name);
    hide WellFormed, Live, Split, Join;
  }

  lemma RegisterAcceptsIff(s: State, e: Env, name: string, owner: Owner, expire: int, soa: string)
    ensures RegisterName(s, e, name, owner, expire, soa).Ok? <==>
      && WellFormed(name) && 2 <= |Split(name)| && Split(name)[|Split(name)| - 1] in s.roots && ParentsLive(s.names, name, e.now)
      && (2 < |Split(name)| ==> Entitled(s.names, Suffix(name, 1), e))
      && (forall k :: k in s.records && k.token == Suffix(name, 1) && |name| < |k.name| ==> k.name[|k.name| - |name|..] != name)
      && |owner| == 20 && owner in e.signers
  {
    ParentsLiveIff(s.names, name, e.now);
    hide WellFormed, ParentExpired, Split, Join;
    if 2 <= |Split(name)| && ParentsLive(s.names, name, e.now) {
      assert Live(s.names, Suffix(name, 1), e.now);
    }
  }

  // ---- what the record of a name says ----

  /** What an accepted call makes of the record of a name. */
  ghost function Written(s: State, e: Env, op: Operation, name: string, before: Option<NameState>): Option<NameState> {
    match op
    case Register(n, owner, expire, _) =>
      if n == name && !Live(s.names, n, e.now) then Some(NameState(owner, e.now + 1000 * expire, None)) else before
    case RegisterTLD(n, expire, _) => if n == name then Some(NameState([], e.now + 1000 * expire, None)) else before
    case Transfer(to, n) =>
      if n == name && before.Some? && before.value.owner in e.signers && before.value.owner != to
      then Some(NameState(to, before.value.expiration, None)) else before
    case Renew(n, years) =>
      if n == name && before.Some? then Some(before.value.(expiration := before.value.expiration + 31_536_000_000 * years)) else before
    case SetAdmin(n, admin) => if n == name && before.Some? then Some(before.value.(admin := admin)) else before
    case _ => before
  }

  /** The record of a name, told by the accepted calls: for whom, until when and with which admin it was last
      registered, handed over, prolonged and entrusted. */
  ghost function ToldBy(calls: seq<(Env, Operation)>, name: string): Option<NameState> {
    if calls == [] then None else
      var init, (e, op) := calls[..|calls| - 1], calls[|calls| - 1];
      var s := Run(DEPLOYED, init);
      if Apply(s, e, op).Fault? then ToldBy(init, name) else Written(s, e, op, name, ToldBy(init, name))
  }

  function At(names: Names, name: string): Option<NameState> {
    if name in names then Some(names[name]) else None
  }

  lemma StepWrites(s: State, e: Env, op: Operation, name: string)
    requires Apply(s, e, op).Ok?
    ensures At(Step(s, e, op).names, name) == Written(s, e, op, name, At(s.names, name))
  {
    hide WellFormed, ParentExpired, Conflicts, IsAdmin, TokenID, RenewSOA, CheckRecord, Group, Standing, Authorized, IsTLD;
    match op
    case UpdateSOA(_, _) => RecordsSpareNames(s, e, op);
    case AddRecord(_, _, _) => RecordsSpareNames(s, e, op);
    case SetRecord(_, _, _, _) => RecordsSpareNames(s, e, op);
    case DeleteRecords(_, _) => RecordsSpareNames(s, e, op);
    case Register(n, owner, expire, soa) =>
      if RegisterName(s, e, n, owner, expire, soa).value.1 {
        RegisterForm(s, e, n, owner, expire, soa);
      }
    case _ =>
  }

  lemma {:induction false} RunSplits(s: State, calls: seq<(Env, Operation)>)
    requires calls != []
    ensures Run(s, calls) == Step(Run(s, calls[..|calls| - 1]), calls[|calls| - 1].0, calls[|calls| - 1].1)
    decreases |calls|
  {
    hide Step;
    var t := Step(s, calls[0].0, calls[0].1);
    if 1 < |calls| {
      RunSplits(t, calls[1..]);
      assert calls[1..][..|calls| - 2] == calls[..|calls| - 1][1..];
    } else {
      assert calls[..0] == [] && calls[1..] == [];
    }
  }

  /** In every run the record of each name is what the calls made it. */
  lemma {:induction false} NamesTellCalls(calls: seq<(Env, Operation)>, name: string)
    ensures At(Run(DEPLOYED, calls).names, name) == ToldBy(calls, name)
  {
    hide Run, Apply, Written, Step;
    if calls == [] {
      NoNames(name);
    } else {
      var init, c := calls[..|calls| - 1], calls[|calls| - 1];
      NamesTellCalls(init, name);
      RunSplits(DEPLOYED, calls);
      if Apply(Run(DEPLOYED, init), c.0, c.1).Ok? {
        StepWrites(Run(DEPLOYED, init), c.0, c.1, name);
      } else {
        FailedStep(Run(DEPLOYED, init), c.0, c.1);
      }
    }
  }

  lemma NoNames(name: string)
    ensures At(Run(DEPLOYED, []).names, name) == None
  {
  }

  lemma FailedStep(s: State, e: Env, op: Operation)
    requires Apply(s, e, op).Fault?
    ensures Step(s, e, op) == s
  {
    hide Apply;
  }

  // ---- records ----

  /** What data of a type has to be: a name for an alias, a short text, an address. */
  predicate Acceptable(e: Env, typ: nat, data: string) {
    match typ
    case 1 => e.addressOk
    case 28 => e.addressOk
    case 5 => WellFormed(data)
    case 16 => |data| <= 255
    case _ => false
  }

  lemma MayWriteIff(s: State, e: Env, name: string)
    ensures MayWrite(s, e, name) <==>
      var token := TokenID(s.names, name, e.now);
      token.Ok? && Authorized(s, e, token.value).Ok? && RecordKey(token.value, token.value, SOA, 0) in s.records && e.renewed.Some?
    ensures var token := TokenID(s.names, name, e.now);
      token.Ok? && Authorized(s, e, token.value).Ok? ==> Authorized(s, e, token.value) == token
  {
    var token := TokenID(s.names, name, e.now);
    if token.Ok? {
      ParentsLiveIff(s.names, token.value, e.now);
    }
    hide TokenID, ParentExpired, ParentsLive, Split;
  }

  /** Which calls that write records go through: those of somebody entitled to the domain that holds them, on
      types that are known and with data that fits; at most sixteen records of a type, none twice, one alias;
      a record that is replaced has to be there; the SOA record cannot be deleted. */
  lemma RecordsAcceptIff(s: State, e: Env, op: Operation)
    ensures match op
      case AddRecord(name, typ, data) =>
        Apply(s, e, op).Ok? <==>
          MayWrite(s, e, name) && Acceptable(e, typ, data) &&
          var group := Group(s.records, TokenID(s.names, name, e.now).value, name, typ);
          |group| <= 15 && (typ == 5 ==> |group| == 0) && forall k :: k in group ==> s.records[k] != data
      case SetRecord(name, typ, id, data) =>
        Apply(s, e, op).Ok? <==>
          MayWrite(s, e, name) && Acceptable(e, typ, data) && RecordKey(TokenID(s.names, name, e.now).value, name, typ, id) in s.records
      case DeleteRecords(name, typ) => Apply(s, e, op).Ok? <==> MayWrite(s, e, name) && typ != 6
      case _ => true
  {
    hide TokenID, Authorized, MayWrite, WellFormed;
    if op.AddRecord? || op.SetRecord? || op.DeleteRecords? {
      MayWriteIff(s, e, op.name);
    }
  }

  /** The call writes a name's own SOA record, as it registers the name or on behalf of who is entitled to it. */
  predicate WritesSOA(op: Operation, k: RecordKey) {
    (op.Register? || op.RegisterTLD? || op.UpdateSOA?) && k.name == op.name && k.typ == 6 && k.id == 0
  }

  /** The record is there in one state and not in the other, or has different data. */
  ghost predicate Differs(records: Records, after: Records, k: RecordKey) {
    (k in records) != (k in after) || (k in records && records[k] != after[k])
  }

  /** A record appears, changes or goes only by a call that writes records of the domain it is kept under, made
      by somebody entitled to that domain; or it is the SOA record of a name that is registered or has it replaced. */
  lemma RecordChangesOnly(s: State, e: Env, op: Operation, k: RecordKey)
    requires Differs(s.records, Step(s, e, op).records, k)
    ensures WritesSOA(op, k)
      || ((op.AddRecord? || op.SetRecord? || op.DeleteRecords?) && MayWrite(s, e, op.name)
          && TokenID(s.names, op.name, e.now) == Ok(k.token)
          && (k.name == op.name || (k.name == k.token && k.typ == 6)) && Entitled(s.names, k.token, e))
  {
    hide TokenID, Authorized, WellFormed, Registrable, Group, ParentExpired, ParentsLive, Split;
    if op.AddRecord? || op.SetRecord? || op.DeleteRecords? {
      MayWriteIff(s, e, op.name);
      RecordsAcceptIff(s, e, op);
      GroupIs(s.records);
    }
  }

  lemma GroupIs(records: Records)
    ensures forall k, token, name, typ :: k in Group(records, token, name, typ) <==>
      k in records && k.token == token && k.name == name && k.typ == typ
  {
  }

  /** Groups of equal size and content have the same data. */
  lemma SameData(records: Records, after: Records, token: string, name: string, typ: nat)
    requires Dense(records) && Dense(after)
    requires |Group(records, token, name, typ)| == |Group(after, token, name, typ)|
    requires forall id: nat :: RecordKey(token, name, typ, id) in records && RecordKey(token, name, typ, id) in after ==>
      records[RecordKey(token, name, typ, id)] == after[RecordKey(token, name, typ, id)]
    ensures Data(records, token, name, typ) == Data(after, token, name, typ)
  {
    var n := |Group(records, token, name, typ)|;
    DataUpToLists(records, token, name, typ, n);
    DataUpToLists(after, token, name, typ, n);
    hide Dense, Group, DataUpTo;
  }

  lemma GroupsOfKeys(records: Records, after: Records, token: string, name: string, typ: nat)
    requires forall k: RecordKey :: k.token == token && k.name == name && k.typ == typ ==> (k in records <==> k in after)
    ensures Group(records, token, name, typ) == Group(after, token, name, typ)
  {
  }

  /** What the call leaves alone: data of every other name and type, the renewed SOA record aside. */
  ghost predicate OtherDataKept(records: Records, after: Records, token: string, name: string, typ: nat) {
    forall t, n, y: nat :: (t != token || n != name || y != typ) && (t != token || n != token || y != 6) ==>
      Data(after, t, n, y) == Data(records, t, n, y)
  }

  lemma OthersKeepData(records: Records, after: Records, token: string, name: string, typ: nat)
    requires Dense(records) && Dense(after)
    requires forall k :: Differs(records, after, k) ==>
      k.token == token && ((k.name == name && k.typ == typ) || (k.name == token && k.typ == 6))
    ensures OtherDataKept(records, after, token, name, typ)
  {
    forall t, n, y: nat | (t != token || n != name || y != typ) && (t != token || n != token || y != 6)
      ensures Data(after, t, n, y) == Data(records, t, n, y)
    {
      assert forall k: RecordKey :: k.token == t && k.name == n && k.typ == y ==> !Differs(records, after, k);
      GroupsOfKeys(records, after, t, n, y);
      SameData(records, after, t, n, y);
    }
  }

  /** What an accepted call writes, key by key. */
  lemma WrittenRecords(s: State, e: Env, op: Operation)
    requires (op.AddRecord? || op.SetRecord? || op.DeleteRecords?) && Apply(s, e, op).Ok?
    ensures TokenID(s.names, op.name, e.now).Ok? && e.renewed.Some?
    ensures var token, t := TokenID(s.names, op.name, e.now).value, Step(s, e, op);
      var soa := RecordKey(token, token, 6, 0);
      && soa in s.records
      && t.names == s.names
      && match op
         case AddRecord(name, typ, data) =>
           typ != 6 && t.records == s.records[RecordKey(token, name, typ, |Group(s.records, token, name, typ)|) := data][soa := e.renewed.value]
         case SetRecord(name, typ, id, data) =>
           typ != 6 && RecordKey(token, name, typ, id) in s.records
           && t.records == s.records[RecordKey(token, name, typ, id) := data][soa := e.renewed.value]
         case DeleteRecords(name, typ) => typ != 6 && t.records == (s.records - Group(s.records, token, name, typ))[soa := e.renewed.value]
         case _ => false
  {
    hide TokenID, Authorized, WellFormed, Group;
    MayWriteIff(s, e, op.name);
    RecordsAcceptIff(s, e, op);
  }

  /** A record that is added is read after all those of its kind, and everything else is read as before. */
  lemma AddIsRead(s: State, e: Env, name: string, typ: nat, data: string)
    requires Dense(s.records) && Apply(s, e, AddRecord(name, typ, data)).Ok?
    ensures TokenID(s.names, name, e.now).Ok?
    ensures var token, t := TokenID(s.names, name, e.now).value, Step(s, e, AddRecord(name, typ, data));
      && t.names == s.names
      && Data(t.records, token, name, typ) == Data(s.records, token, name, typ) + [data]
      && OtherDataKept(s.records, t.records, token, name, typ)
  {
    hide Apply, TokenID, Group, Dense, WellFormed, Step, OtherDataKept;
    var op := AddRecord(name, typ, data);
    WrittenRecords(s, e, op);
    StepKeepsDense(s, e, op);
    var token, t := TokenID(s.names, name, e.now).value, Step(s, e, op);
    OthersKeepData(s.records, t.records, token, name, typ);
    AppendReads(s.records, t.records, token, name, typ, data);
  }

  lemma AppendReads(records: Records, after: Records, token: string, name: string, typ: nat, data: string)
    requires Dense(records) && Dense(after) && typ != 6
    requires RecordKey(token, token, 6, 0) in records && RecordKey(token, token, 6, 0) in after
    requires var k := RecordKey(token, name, typ, |Group(records, token, name, typ)|);
      after == records[k := data][RecordKey(token, token, 6, 0) := after[RecordKey(token, token, 6, 0)]]
    ensures Data(after, token, name, typ) == Data(records, token, name, typ) + [data]
  {
    var n := |Group(records, token, name, typ)|;
    var k := RecordKey(token, name, typ, n);
    assert k !in records;
    AppendedGroups(records, k, data, token, name, typ);
    GroupsOfKeys(records[k := data], after, token, name, typ);
    DataUpToLists(records, token, name, typ, n);
    DataUpToLists(after, token, name, typ, n + 1);
    hide Dense, Group, DataUpTo;
  }

  /** A record that is replaced is read in its place. */
  lemma SetIsRead(s: State, e: Env, name: string, typ: nat, id: nat, data: string)
    requires Dense(s.records) && Apply(s, e, SetRecord(name, typ, id, data)).Ok?
    ensures TokenID(s.names, name, e.now).Ok?
    ensures var token, t := TokenID(s.names, name, e.now).value, Step(s, e, SetRecord(name, typ, id, data));
      && t.names == s.names && id < |Data(s.records, token, name, typ)|
      && Data(t.records, token, name, typ) == Data(s.records, token, name, typ)[id := data]
      && OtherDataKept(s.records, t.records, token, name, typ)
  {
    hide Apply, TokenID, Group, Dense, WellFormed, Step, OtherDataKept;
    var op := SetRecord(name, typ, id, data);
    WrittenRecords(s, e, op);
    StepKeepsDense(s, e, op);
    var token, t := TokenID(s.names, name, e.now).value, Step(s, e, op);
    OthersKeepData(s.records, t.records, token, name, typ);
    ReplaceReads(s.records, t.records, token, name, typ, id, data);
  }

  lemma ReplaceReads(records: Records, after: Records, token: string, name: string, typ: nat, id: nat, data: string)
    requires Dense(records) && Dense(after) && typ != 6 && RecordKey(token, name, typ, id) in records
    requires RecordKey(token, token, 6, 0) in records && RecordKey(token, token, 6, 0) in after
    requires after == records[RecordKey(token, name, typ, id) := data][RecordKey(token, token, 6, 0) := after[RecordKey(token, token, 6, 0)]]
    ensures id < |Data(records, token, name, typ)|
    ensures Data(after, token, name, typ) == Data(records, token, name, typ)[id := data]
  {
    var n := |Group(records, token, name, typ)|;
    assert id < n;
    GroupsOfKeys(records, after, token, name, typ);
    DataUpToLists(records, token, name, typ, n);
    DataUpToLists(after, token, name, typ, n);
    hide Dense, Group, DataUpTo;
  }

  /** Records that are deleted are no longer read. */
  lemma DeletedAreGone(s: State, e: Env, name: string, typ: nat)
    requires Dense(s.records) && Apply(s, e, DeleteRecords(name, typ)).Ok?
    ensures TokenID(s.names, name, e.now).Ok?
    ensures var token, t := TokenID(s.names, name, e.now).value, Step(s, e, DeleteRecords(name, typ));
      && t.names == s.names && Data(t.records, token, name, typ) == []
      && OtherDataKept(s.records, t.records, token, name, typ)
  {
    hide Apply, TokenID, Group, Dense, WellFormed, Step, OtherDataKept;
    var op := DeleteRecords(name, typ);
    WrittenRecords(s, e, op);
    StepKeepsDense(s, e, op);
    var token, t := TokenID(s.names, name, e.now).value, Step(s, e, op);
    GroupIs(s.records);
    OthersKeepData(s.records, t.records, token, name, typ);
    RemovalReads(s.records, t.records, token, name, typ);
  }

  lemma RemovalReads(records: Records, after: Records, token: string, name: string, typ: nat)
    requires typ != 6 && RecordKey(token, token, 6, 0) in after
    requires after == (records - Group(records, token, name, typ))[RecordKey(token, token, 6, 0) := after[RecordKey(token, token, 6, 0)]]
    ensures Data(after, token, name, typ) == []
  {
    assert Group(after, token, name, typ) == {};
  }

  // ---- what an error says ----

  /** The reason given is true. */
  ghost predicate IsTrue(s: State, e: Env, op: Operation, error: Error) {
    var token := TokenID(s.names, op.name, e.now);
    var writes := op.AddRecord? || op.SetRecord? || op.DeleteRecords?;
    match error
    case InvalidName => !WellFormed(op.name) || 255 < |op.name|
    case NotTLD => op.RegisterTLD? && 2 <= |Split(op.name)|
    case TLDDenied => op.Register? && |Split(op.name)| == 1
    case TLDNotFound => op.Register? && Split(op.name)[|Split(op.name)| - 1] !in s.roots
    case TLDExists => op.RegisterTLD? && op.name in s.roots
    case ParentMissing => op.Register? && !ParentsLive(s.names, op.name, e.now)
    case NotAdmin =>
      if writes then token.Ok? && !Entitled(s.names, token.value, e)
      else if op.Register? then 2 < |Split(op.name)| && (Live(s.names, Suffix(op.name, 1), e.now) ==> !Entitled(s.names, Suffix(op.name, 1), e))
      else if op.SetAdmin? then op.admin.Some? && op.admin.value !in e.signers
      else !Entitled(s.names, op.name, e)
    case NotCommittee => op.RegisterTLD? && !e.committee
    case Conflict =>
      op.Register? && exists k :: k in s.records && k.name != op.name && EndsWith(k.name, op.name) && 1 < |Split(op.name)| && k.token == Suffix(op.name, 1)
    case InvalidOwner => (op.Register? && |op.owner| != 20) || (op.Transfer? && |op.to| != 20)
    case NotSigned => (op.Register? && op.owner !in e.signers) || (op.SetAdmin? && op.name in s.names && s.names[op.name].owner !in e.signers)
    case NotFound =>
      if writes then token.Ok? && (token.value !in s.names || |Split(token.value)| == 1)
      else op.name !in s.names || |Split(op.name)| == 1
    case Expired =>
      if writes then token.Ok? && token.value in s.names && !(Live(s.names, token.value, e.now) && ParentsLive(s.names, token.value, e.now))
      else op.name in s.names && !(Live(s.names, op.name, e.now) && ParentsLive(s.names, op.name, e.now))
    case InvalidData => (op.AddRecord? || op.SetRecord?) && !Acceptable(e, op.typ, op.data)
    case UnsupportedType => (op.AddRecord? || op.SetRecord?) && op.typ !in {1, 5, 16, 28}
    case RecordExists =>
      op.AddRecord? && token.Ok? && exists k :: k in Group(s.records, token.value, op.name, op.typ) && s.records[k] == op.data
    case TooManyRecords => op.AddRecord? && token.Ok? && 15 < |Group(s.records, token.value, op.name, op.typ)|
    case SecondCNAME => op.AddRecord? && op.typ == 5 && token.Ok? && |Group(s.records, token.value, op.name, 5)| != 0
    case InvalidId => op.SetRecord? && token.Ok? && RecordKey(token.value, op.name, op.typ, op.id) !in s.records
    case NoSOA => writes && token.Ok? && (RecordKey(token.value, token.value, 6, 0) !in s.records || e.renewed.None?)
    case SOAProtected => op.DeleteRecords? && op.typ == 6
    case InvalidRedirect => false
    case InvalidYears => op.Renew? && (op.years < 1 || 10 < op.years)
    case TooFar =>
      op.Renew? && 2 <= |Split(op.name)| && op.name in s.names
      && e.now + 315_360_000_000 < s.names[op.name].expiration + 31_536_000_000 * op.years
  }

  lemma RegisterErrors(s: State, e: Env, op: Operation)
    requires op.Register? && Apply(s, e, op).Fault?
    ensures IsTrue(s, e, op, Apply(s, e, op).error)
  {
    ParentsLiveIff(s.names, op.name, e.now);
    hide Split, Join, ParentExpired, TokenFrom, WellFormed;
    if 2 <= |Split(op.name)| && ParentsLive(s.names, op.name, e.now) {
      assert Live(s.names, Suffix(op.name, 1), e.now);
    }
  }

  lemma RegistryErrors(s: State, e: Env, op: Operation)
    requires (op.RegisterTLD? || op.Transfer? || op.Renew? || op.SetAdmin? || op.UpdateSOA?) && Apply(s, e, op).Fault?
    ensures IsTrue(s, e, op, Apply(s, e, op).error)
  {
    ParentsLiveIff(s.names, op.name, e.now);
    hide Split, Join, ParentExpired, ParentsLive, TokenFrom, WellFormed;
  }

  lemma AuthorizedErrors(s: State, e: Env, token: string)
    ensures match Authorized(s, e, token)
      case Ok(t) => t == token
      case Fault(error) =>
        match error
        case NotFound => token !in s.names || |Split(token)| == 1
        case Expired => token in s.names && !(Live(s.names, token, e.now) && ParentsLive(s.names, token, e.now))
        case NotAdmin => !Entitled(s.names, token, e)
        case _ => false
  {
    ParentsLiveIff(s.names, token, e.now);
    hide Split, Join, ParentExpired, ParentsLive;
  }

  lemma TokenErrors(names: Names, name: string, now: int)
    ensures TokenID(names, name, now).Fault? ==> TokenID(names, name, now).error == InvalidName && !WellFormed(name)
  {
    hide TokenFrom, WellFormed;
  }

  lemma RecordErrors(s: State, e: Env, op: Operation)
    requires (op.AddRecord? || op.SetRecord? || op.DeleteRecords?) && Apply(s, e, op).Fault?
    ensures IsTrue(s, e, op, Apply(s, e, op).error)
  {
    hide Split, Join, Group, ParentsLive, WellFormed, Authorized, TokenID, Entitled, Live;
    TokenErrors(s.names, op.name, e.now);
    var token := TokenID(s.names, op.name, e.now);
    if token.Ok? {
      AuthorizedErrors(s, e, token.value);
    }
    if op.AddRecord? {
      hide ReplaceRecord, RemoveRecords;
    } else if op.SetRecord? {
      hide InsertRecord, RemoveRecords;
    } else {
      GroupIs(s.records);
      hide InsertRecord, ReplaceRecord;
    }
  }

  /** A call that fails says why: whatever the order of the checks, the reason given is true. */
  lemma ErrorsAreTrue(s: State, e: Env, op: Operation)
    requires Apply(s, e, op).Fault?
    ensures IsTrue(s, e, op, Apply(s, e, op).error)
  {
    hide Apply, IsTrue;
    if op.Register? {
      RegisterErrors(s, e, op);
    } else if op.AddRecord? || op.SetRecord? || op.DeleteRecords? {
      RecordErrors(s, e, op);
    } else {
      RegistryErrors(s, e, op);
    }
  }

  /** Names that are too long are told so, before anything is looked up. */
  lemma LongNamesAreInvalid(s: State, e: Env, op: Operation)
    requires 255 < |op.name| && (op.SetAdmin? || op.UpdateSOA? || (op.Renew? && 1 <= op.years <= 10))
    ensures Apply(s, e, op) == Fault(InvalidName)
  {
    hide WellFormed, ParentExpired, IsTLD, Standing, StoreSOA;
  }

  /** What an accepted call answers: a registration whether the name was free, a handover whether the owner signed. */
  lemma ResultsTell(s: State, e: Env, op: Operation)
    requires Apply(s, e, op).Ok?
    ensures Apply(s, e, op).value.1 <==>
      match op
      case Register(name, _, _, _) => !Live(s.names, name, e.now)
      case Transfer(_, name) => name in s.names && s.names[name].owner in e.signers
      case _ => true
  {
    hide WellFormed, ParentExpired, Conflicts, IsAdmin, TokenID, RenewSOA, CheckRecord, Group, Standing, Authorized, IsTLD;
  }

  // ---- reading ----

  /** Reading that fails says why. */
  lemma ReadErrorsAreTrue(s: State, now: int, name: string, typ: nat)
    ensures ReadableToken(s, now, name).Fault? ==>
      var token := TokenID(s.names, name, now);
      match ReadableToken(s, now, name).error
      case InvalidName => !WellFormed(name)
      case NotFound => token.Ok? && token.value !in s.names
      case Expired => token.Ok? && token.value in s.names && !(Live(s.names, token.value, now) && ParentsLive(s.names, token.value, now))
      case _ => false
    ensures GetRecords(s, now, name, typ).Fault? ==>
      var token := TokenID(s.names, name, now);
      match GetRecords(s, now, name, typ).error
      case InvalidName => !WellFormed(name)
      case UnsupportedType => typ == 100
      case NotFound => |Split(name)| == 1 || (token.Ok? && token.value !in s.names)
      case Expired => token.Ok? && token.value in s.names && !(Live(s.names, token.value, now) && ParentsLive(s.names, name, now))
      case _ => false
  {
    var token := TokenID(s.names, name, now);
    if token.Ok? {
      ParentsLiveIff(s.names, token.value, now);
    }
    ParentsLiveIff(s.names, name, now);
    hide Split, ParentExpired, ParentsLive, TokenFrom, WellFormed, Data;
  }

  /** A trailing dot makes no difference to resolving a name, except that it lets a top-level name through, which
      is refused without it. */
  lemma TrailingDot(s: State, now: int, name: string, typ: nat)
    requires name != "" && name[|name| - 1] != '.' && typ != 100
    ensures 2 <= |Split(name)| ==> ResolveName(s, now, name + ".", typ) == ResolveName(s, now, name, typ)
    ensures |Split(name)| == 1 ==> ResolveName(s, now, name, typ).Fault?
    ensures |Split(name)| == 1 && ReadableToken(s, now, name).Ok? && Alias(s.records, ReadableToken(s, now, name).value, name) == "" ==>
      ResolveName(s, now, name + ".", typ) == Ok(Data(s.records, ReadableToken(s, now, name).value, name, typ))
  {
    DotSplits(name);
    assert (name + ".")[..|name|] == name && Trim(name + ".") == name == Trim(name);
    hide ReadableToken, Data, Alias, Split;
    assert Resolve(s, now, [], name + ".", typ, 2) == Resolve(s, now, [], name, typ, 2);
    if ReadableToken(s, now, name).Ok? {
      var data := Data(s.records, ReadableToken(s, now, name).value, name, typ);
      assert [] + data == data;
    }
  }

  lemma DotSplits(name: string)
    ensures 2 <= |Split(name + ".")|
    decreases |name|
  {
    if name == "" {
      assert Split("")  == [""] && (".")[1..] == "" && name + "." == ".";
    } else {
      DotSplits(name[1..]);
      assert (name + ".")[1..] == name[1..] + ".";
    }
  }
}
