/** What the name service keeps in every state it can reach: its index, balances and supply agree with the
    registered names, record ids are dense, and owners keep their live names. */
module NameServiceLaws {
  import opened Storage
  import opened Labels
  import opened NameService

  // ---- longest live suffix ----

  /** The token is the longest registered, unexpired, non-TLD suffix of the name, or the name itself when
      there is none. */
  ghost predicate IsTokenOf(names: Names, name: string, now: int, token: string) {
    var last := |Split(name)| - 1;
    && (forall i :: 0 <= i < last && Live(names, Suffix(name, i), now) ==> |Suffix(name, i)| <= |token|)
    && ((exists i :: 0 <= i < last && Live(names, Suffix(name, i), now) && Suffix(name, i) == token)
        || (token == name && forall i :: 0 <= i < last ==> !Live(names, Suffix(name, i), now)))
  }

  lemma {:induction false} TokenFromIs(names: Names, name: string, i: nat, now: int)
    requires i < |Split(name)|
    requires forall j :: 0 <= j < i ==> !Live(names, Suffix(name, j), now)
    ensures IsTokenOf(names, name, now, TokenFrom(names, name, i, now))
    decreases |Split(name)| - i
  {
    var last := |Split(name)| - 1;
    if i < last {
      if Live(names, Suffix(name, i), now) {
        forall j | 0 <= j < last && Live(names, Suffix(name, j), now)
          ensures |Suffix(name, j)| <= |Suffix(name, i)|
        {
          if i < j {
            SuffixShrinks(name, i, j);
          }
        }
      } else {
        TokenFromIs(names, name, i + 1, now);
      }
    }
  }

  lemma SuffixesDiffer(name: string, i: nat, j: nat)
    requires i < |Split(name)| && j < |Split(name)| && |Suffix(name, i)| == |Suffix(name, j)|
    ensures i == j
  {
    if i < j {
      SuffixShrinks(name, i, j);
    } else if j < i {
      SuffixShrinks(name, j, i);
    }
  }

  lemma TokenIsLongestLive(names: Names, name: string, now: int, token: string)
    ensures TokenID(names, name, now) == Ok(token) <==> WellFormed(name) && IsTokenOf(names, name, now, token)
  {
    if WellFormed(name) {
      TokenFromIs(names, name, 0, now);
      var found := TokenFrom(names, name, 0, now);
      if IsTokenOf(names, name, now, token) && token != found {
        var last := |Split(name)| - 1;
        var i :| 0 <= i < last && Live(names, Suffix(name, i), now) && Suffix(name, i) == token;
        var j :| 0 <= j < last && Live(names, Suffix(name, j), now) && Suffix(name, j) == found;
        SuffixesDiffer(name, i, j);
        assert false;
      }
    }
  }

  // ---- registry ----

  function TokensOf(tokens: set<(Owner, string)>, owner: Owner): set<(Owner, string)> {
    set p | p in tokens && p.0 == owner
  }

  function Registered(names: Names): set<string> {
    set n | n in names && !IsTLD(n)
  }

  function Amount(): (Owner, int) -> int {
    (o, n) => n
  }

  /** The token index holds exactly the pairs of owner and non-TLD name; balances count it, account by
      account and in total; roots are the TLDs. */
  ghost predicate Indexed(s: State) {
    && (forall o, n :: (o, n) in s.tokens <==> n in s.names && !IsTLD(n) && s.names[n].owner == o)
    && (forall n :: n in s.roots <==> n in s.names && IsTLD(n))
  }

  ghost predicate Counted(s: State) {
    && (forall o :: Get(s.balances, o) == |TokensOf(s.tokens, o)|)
    && (forall o :: o in s.balances ==> 0 < s.balances[o])
    && s.supply == |Registered(s.names)|
    && s.supply == Sum(s.balances, Amount())
  }

  ghost predicate OwnersFit(names: Names) {
    forall n :: n in names ==>
      && WellFormed(n)
      && (if IsTLD(n) then names[n].owner == [] && names[n].admin.None? else |names[n].owner| == HASH160_LEN)
  }

  ghost predicate Agrees(s: State) {
    Indexed(s) && Counted(s) && OwnersFit(s.names)
  }

  /** Balances count an index that is changed together with them. */
  ghost predicate CountsTokens(s: State) {
    && (forall o :: Get(s.balances, o) == |TokensOf(s.tokens, o)|)
    && (forall o :: o in s.balances ==> 0 < s.balances[o])
  }

  lemma IndexShifts(tokens: set<(Owner, string)>, p: (Owner, string))
    ensures p !in tokens ==> |TokensOf(tokens + {p}, p.0)| == |TokensOf(tokens, p.0)| + 1
    ensures p in tokens ==> |TokensOf(tokens - {p}, p.0)| == |TokensOf(tokens, p.0)| - 1
    ensures forall o :: o != p.0 ==> TokensOf(tokens + {p}, o) == TokensOf(tokens, o) == TokensOf(tokens - {p}, o)
  {
    assert TokensOf(tokens - {p}, p.0) == TokensOf(tokens, p.0) - {p};
    assert TokensOf(tokens + {p}, p.0) == TokensOf(tokens, p.0) + {p};
    if p in tokens {
      assert p in TokensOf(tokens, p.0);
    }
  }

  lemma ShiftCounts(s: State, name: string, acc: Owner, diff: int)
    requires CountsTokens(s)
    requires diff == 1 || diff == -1
    requires (acc, name) in s.tokens <==> diff == -1
    ensures CountsTokens(Shift(s, name, acc, diff))
    ensures Sum(Shift(s, name, acc, diff).balances, Amount()) == Sum(s.balances, Amount()) + diff
  {
    var t := Shift(s, name, acc, diff);
    IndexShifts(s.tokens, (acc, name));
    var balance := Get(s.balances, acc) + diff;
    SumPut(s.balances, acc, balance, Amount());
    SumDelete(s.balances, acc, Amount());
    assert Get(s.balances, acc) == |TokensOf(s.tokens, acc)|;
    hide TokensOf;
    forall o
      ensures Get(t.balances, o) == |TokensOf(t.tokens, o)|
    {
      assert Get(s.balances, o) == |TokensOf(s.tokens, o)|;
    }
  }

  function Granted(s: State, name: string, ns: NameState): State {
    Shift(s.(names := s.names[name := ns]), name, ns.owner, 1)
  }

  lemma IndexGrant(s: State, name: string, ns: NameState)
    requires Indexed(s.(names := s.names - {name})) && !IsTLD(name)
    ensures Indexed(Granted(s, name, ns))
    ensures (ns.owner, name) !in s.tokens
  {
    var before := s.(names := s.names - {name});
    assert (ns.owner, name) in before.tokens ==> name in before.names;
    hide IsTLD;
    assert forall n :: n in s.roots <==> n in before.names && IsTLD(n);
    assert forall o, n :: (o, n) in before.tokens <==> n in before.names && !IsTLD(n) && before.names[n].owner == o;
  }

  lemma CountGrant(s: State, name: string, ns: NameState)
    requires CountsTokens(s) && s.supply == Sum(s.balances, Amount()) + 1
    requires s.supply == |Registered(s.names) + {name}|
    requires !IsTLD(name) && (ns.owner, name) !in s.tokens
    ensures Counted(Granted(s, name, ns))
  {
    var t := s.(names := s.names[name := ns]);
    ShiftCounts(t, name, ns.owner, 1);
    assert Registered(t.names) == Registered(s.names) + {name};
    hide TokensOf, Registered, Sum, IsTLD;
  }

  /** A name that is not held is given to an owner. */
  lemma GrantAgrees(s: State, name: string, ns: NameState)
    requires Indexed(s.(names := s.names - {name}))
    requires CountsTokens(s) && OwnersFit(s.names) && s.supply == Sum(s.balances, Amount()) + 1
    requires s.supply == |Registered(s.names) + {name}|
    requires WellFormed(name) && !IsTLD(name) && |ns.owner| == HASH160_LEN
    ensures Agrees(Granted(s, name, ns))
  {
    hide Indexed, Counted, CountsTokens, WellFormed, IsTLD, Registered;
    IndexGrant(s, name, ns);
    CountGrant(s, name, ns);
  }

  lemma FreeForGrant(s: State, name: string)
    requires Agrees(s) && !IsTLD(name)
    ensures var freed := Freed(s, name);
      && Indexed(freed.(names := freed.names - {name}))
      && CountsTokens(freed) && freed.supply == Sum(freed.balances, Amount()) + 1
      && freed.supply == |Registered(freed.names) + {name}|
      && freed.names == s.names && freed.records == s.records
  {
    if name in s.names {
      ShiftCounts(s, name, s.names[name].owner, -1);
      assert Registered(s.names) + {name} == Registered(s.names);
    }
  }

  function Freed(s: State, name: string): State {
    if name in s.names then Shift(s, name, s.names[name].owner, -1) else s.(supply := s.supply + 1)
  }

  /** A registration that goes through releases the name, stores it and grants it; records aside. */
  lemma RegisterForm(s: State, e: Env, name: string, owner: Owner, expire: int, soa: string)
    requires RegisterName(s, e, name, owner, expire, soa).Ok?
    requires RegisterName(s, e, name, owner, expire, soa).value.1
    ensures WellFormed(name) && !IsTLD(name) && |owner| == HASH160_LEN
    ensures var t := RegisterName(s, e, name, owner, expire, soa).value.0;
      var ns := NameState(owner, e.now + expire * MILLISECONDS, None);
      t == Granted(Freed(s, name), name, ns).(records := t.records)
  {
    hide WellFormed, ParentExpired, Conflicts, IsAdmin;
  }

  lemma RegisterAgrees(s: State, e: Env, name: string, owner: Owner, expire: int, soa: string)
    requires Agrees(s)
    ensures RegisterName(s, e, name, owner, expire, soa).Ok?
      ==> Agrees(RegisterName(s, e, name, owner, expire, soa).value.0)
  {
    var r := RegisterName(s, e, name, owner, expire, soa);
    if r.Ok? && r.value.1 {
      RegisterForm(s, e, name, owner, expire, soa);
      FreeForGrant(s, name);
      GrantAgrees(Freed(s, name), name, NameState(owner, e.now + expire * MILLISECONDS, None));
      hide *;
      RecordsDoNotMatter(Granted(Freed(s, name), name, NameState(owner, e.now + expire * MILLISECONDS, None)), r.value.0.records);
    } else {
      hide WellFormed, ParentExpired, Conflicts, IsAdmin, Agrees, SaveDomain, Shift;
    }
  }

  lemma RecordsDoNotMatter(s: State, records: Records)
    ensures Agrees(s) ==> Agrees(s.(records := records))
  {
  }

  lemma RegisterRootAgrees(s: State, e: Env, name: string, expire: int, soa: string)
    requires Agrees(s)
    ensures RegisterRoot(s, e, name, expire, soa).Ok? ==> Agrees(RegisterRoot(s, e, name, expire, soa).value)
  {
    var r := RegisterRoot(s, e, name, expire, soa);
    if r.Ok? {
      assert Registered(r.value.names) == Registered(s.names);
    }
  }

  lemma TransferAgrees(s: State, e: Env, to: Owner, name: string)
    requires Agrees(s)
    ensures TransferName(s, e, to, name).Ok? ==> Agrees(TransferName(s, e, to, name).value.0)
  {
    var r := TransferName(s, e, to, name);
    if r.Ok? && r.value.0 != s {
      var ns := s.names[name];
      var t := s.(names := s.names[name := ns.(owner := to, admin := None)]);
      ShiftCounts(t, name, ns.owner, -1);
      ShiftCounts(Shift(t, name, ns.owner, -1), name, to, 1);
      assert Registered(r.value.0.names) == Registered(s.names);
    }
  }

  /** An entry replaced by one with the same owner. */
  lemma SameOwnerAgrees(s: State, name: string, ns: NameState)
    requires Agrees(s) && name in s.names && ns.owner == s.names[name].owner
    requires IsTLD(name) ==> ns.admin.None?
    ensures Agrees(s.(names := s.names[name := ns]))
  {
    assert Registered(s.names[name := ns]) == Registered(s.names);
  }

  lemma StepAgrees(s: State, e: Env, op: Operation)
    requires Agrees(s)
    ensures Agrees(Step(s, e, op))
  {
    var r := Apply(s, e, op);
    if r.Ok? {
      match op
      case Register(name, owner, expire, soa) => RegisterAgrees(s, e, name, owner, expire, soa);
      case RegisterTLD(name, expire, soa) => RegisterRootAgrees(s, e, name, expire, soa);
      case Transfer(to, name) => TransferAgrees(s, e, to, name);
      case Renew(name, years) => SameOwnerAgrees(s, name, r.value.0.names[name]);
      case SetAdmin(name, admin) => SameOwnerAgrees(s, name, r.value.0.names[name]);
      case _ =>
    }
  }

  // ---- records ----

  /** Ids of a name's records of one type are exactly 0 to n - 1, n at most sixteen, and one for aliases. */
  ghost predicate Dense(records: Records) {
    && (forall token, name, typ, id: nat :: RecordKey(token, name, typ, id) in records <==> id < |Group(records, token, name, typ)|)
    && (forall token, name, typ :: |Group(records, token, name, typ)| <= (if typ in {CNAME, SOA} then 1 else MAX_RECORD_ID + 1))
    && (forall k :: k in records && k.typ == CNAME ==> WellFormed(records[k]))
  }

  predicate DataFits(typ: nat, data: string) {
    typ == CNAME ==> WellFormed(data)
  }

  lemma OverwriteKeepsDense(records: Records, k: RecordKey, data: string)
    requires Dense(records) && k in records && DataFits(k.typ, data)
    ensures Dense(records[k := data])
  {
    forall token, name, typ
      ensures Group(records[k := data], token, name, typ) == Group(records, token, name, typ)
    {
    }
  }

  /** A record added to its group is in no other. */
  lemma AppendedGroups(records: Records, k: RecordKey, data: string, token: string, name: string, typ: nat)
    requires k !in records
    ensures |Group(records[k := data], token, name, typ)|
      == |Group(records, token, name, typ)| + if token == k.token && name == k.name && typ == k.typ then 1 else 0
  {
    var after := Group(records[k := data], token, name, typ);
    if token == k.token && name == k.name && typ == k.typ {
      assert after == Group(records, token, name, typ) + {k};
    } else {
      assert after == Group(records, token, name, typ);
    }
  }

  lemma AppendKeepsDense(records: Records, token: string, name: string, typ: nat, data: string)
    requires Dense(records) && DataFits(typ, data)
    requires |Group(records, token, name, typ)| < (if typ in {CNAME, SOA} then 1 else MAX_RECORD_ID + 1)
    ensures Dense(records[RecordKey(token, name, typ, |Group(records, token, name, typ)|) := data])
  {
    hide Group, WellFormed;
    var k := RecordKey(token, name, typ, |Group(records, token, name, typ)|);
    assert k !in records;
    var after := records[k := data];
    forall t, m, y: nat
      ensures |Group(after, t, m, y)| <= (if y in {CNAME, SOA} then 1 else MAX_RECORD_ID + 1)
      ensures forall id: nat :: RecordKey(t, m, y, id) in after <==> id < |Group(after, t, m, y)|
    {
      AppendedGroups(records, k, data, t, m, y);
      assert |Group(records, t, m, y)| <= (if y in {CNAME, SOA} then 1 else MAX_RECORD_ID + 1);
    }
  }

  lemma RemovalKeepsDense(records: Records, token: string, name: string, typ: nat)
    requires Dense(records)
    ensures Dense(records - Group(records, token, name, typ))
  {
    var after := records - Group(records, token, name, typ);
    assert Group(after, token, name, typ) == {};
    forall t, m, y: nat | t != token || m != name || y != typ
      ensures Group(after, t, m, y) == Group(records, t, m, y)
    {
      forall k | k in Group(records, t, m, y)
        ensures k in Group(after, t, m, y)
      {
      }
    }
  }

  lemma StoreSOAKeepsDense(s: State, e: Env, name: string, soa: string)
    requires Dense(s.records)
    ensures StoreSOA(s, e, name, soa).Ok? ==> Dense(StoreSOA(s, e, name, soa).value.records)
  {
    var t := TokenID(s.names, name, e.now);
    if t.Ok? {
      var k := RecordKey(t.value, name, SOA, 0);
      if k in s.records {
        OverwriteKeepsDense(s.records, k, soa);
      } else {
        AppendKeepsDense(s.records, t.value, name, SOA, soa);
      }
    }
  }

  lemma RenewSOAKeepsDense(s: State, e: Env, token: string)
    requires Dense(s.records)
    ensures RenewSOA(s, e, token).Ok? ==> Dense(RenewSOA(s, e, token).value.records)
  {
    if RenewSOA(s, e, token).Ok? {
      OverwriteKeepsDense(s.records, RecordKey(token, token, SOA, 0), e.renewed.value);
    }
  }

  lemma CheckedDataFits(s: State, e: Env, name: string, typ: nat, data: string)
    requires CheckRecord(s, e, name, typ, data).Ok?
    ensures DataFits(typ, data) && typ != SOA
  {
  }

  lemma RecordsStepKeepsDense(s: State, e: Env, op: Operation)
    requires Dense(s.records)
    requires op.AddRecord? || op.SetRecord? || op.DeleteRecords?
    ensures Dense(Step(s, e, op).records)
  {
    hide Dense, CheckRecord, TokenID, RenewSOA, Standing, IsAdmin;
    if Apply(s, e, op).Ok? {
      match op
      case AddRecord(name, typ, data) =>
        var token := CheckRecord(s, e, name, typ, data).value;
        var k := RecordKey(token, name, typ, |Group(s.records, token, name, typ)|);
        CheckedDataFits(s, e, name, typ, data);
        AppendKeepsDense(s.records, token, name, typ, data);
        RenewSOAKeepsDense(s.(records := s.records[k := data]), e, token);
      case SetRecord(name, typ, id, data) =>
        var token := CheckRecord(s, e, name, typ, data).value;
        var k := RecordKey(token, name, typ, id);
        CheckedDataFits(s, e, name, typ, data);
        OverwriteKeepsDense(s.records, k, data);
        RenewSOAKeepsDense(s.(records := s.records[k := data]), e, token);
      case DeleteRecords(name, typ) =>
        var token := TokenID(s.names, name, e.now).value;
        RemovalKeepsDense(s.records, token, name, typ);
        RenewSOAKeepsDense(s.(records := s.records - Group(s.records, token, name, typ)), e, token);
    }
  }

  /** Registration writes the SOA record in between changes of the registry, or nothing. */
  lemma RegisterStoresSOA(s: State, e: Env, name: string, owner: Owner, expire: int, soa: string)
    requires RegisterName(s, e, name, owner, expire, soa).Ok?
    ensures var t := RegisterName(s, e, name, owner, expire, soa).value.0;
      var ns := NameState(owner, e.now + expire * MILLISECONDS, None);
      var stored := StoreSOA(Freed(s, name).(names := Freed(s, name).names[name := ns]), e, name, soa);
      t == s || (stored.Ok? && t.records == stored.value.records)
  {
    hide WellFormed, ParentExpired, Conflicts, IsAdmin, StoreSOA;
  }

  lemma RegisterKeepsDense(s: State, e: Env, name: string, owner: Owner, expire: int, soa: string)
    requires Dense(s.records)
    ensures RegisterName(s, e, name, owner, expire, soa).Ok?
      ==> Dense(RegisterName(s, e, name, owner, expire, soa).value.0.records)
  {
    if RegisterName(s, e, name, owner, expire, soa).Ok? {
      RegisterStoresSOA(s, e, name, owner, expire, soa);
      var freed := Freed(s, name);
      var ns := NameState(owner, e.now + expire * MILLISECONDS, None);
      StoreSOAKeepsDense(freed.(names := freed.names[name := ns]), e, name, soa);
    }
    hide *;
  }

  lemma StepKeepsDense(s: State, e: Env, op: Operation)
    requires Dense(s.records)
    ensures Dense(Step(s, e, op).records)
  {
    hide Dense, StoreSOA, RegisterName, WellFormed, ParentExpired;
    if Apply(s, e, op).Ok? {
      match op
      case Register(name, owner, expire, soa) => RegisterKeepsDense(s, e, name, owner, expire, soa);
      case RegisterTLD(name, expire, soa) =>
        var saved := s.names[name := NameState([], e.now + expire * MILLISECONDS, None)];
        StoreSOAKeepsDense(s.(roots := s.roots + {name}, names := saved), e, name, soa);
      case UpdateSOA(name, soa) => StoreSOAKeepsDense(s, e, name, soa);
      case AddRecord(_, _, _) => RecordsStepKeepsDense(s, e, op);
      case SetRecord(_, _, _, _) => RecordsStepKeepsDense(s, e, op);
      case DeleteRecords(_, _) => RecordsStepKeepsDense(s, e, op);
      case _ =>
    }
  }

  /** Data of a type lists the records id by id, so an alias exists exactly when it has record 0. */
  lemma {:induction false} DataUpToLists(records: Records, token: string, name: string, typ: nat, n: nat)
    requires Dense(records) && n <= |Group(records, token, name, typ)|
    ensures |DataUpTo(records, token, name, typ, n)| == n
    ensures forall id: nat :: id < n ==>
      (RecordKey(token, name, typ, id) in records
       && DataUpTo(records, token, name, typ, n)[id] == records[RecordKey(token, name, typ, id)])
  {
    if 0 < n {
      DataUpToLists(records, token, name, typ, n - 1);
    }
  }

  lemma AliasIff(records: Records, token: string, name: string)
    requires Dense(records)
    ensures Alias(records, token, name) != "" <==> RecordKey(token, name, CNAME, 0) in records
    ensures RecordKey(token, name, CNAME, 0) in records ==> Alias(records, token, name) == records[RecordKey(token, name, CNAME, 0)]
  {
    DataUpToLists(records, token, name, CNAME, |Group(records, token, name, CNAME)|);
  }

  // ---- runs ----

  ghost function Step(s: State, e: Env, op: Operation): State {
    match Apply(s, e, op)
    case Fault(_) => s
    case Ok(r) => r.0
  }

  ghost function Run(s: State, calls: seq<(Env, Operation)>): State
    decreases |calls|
  {
    if calls == [] then s else Run(Step(s, calls[0].0, calls[0].1), calls[1..])
  }

  lemma {:induction false} RunKeeps(s: State, calls: seq<(Env, Operation)>)
    requires Agrees(s) && Dense(s.records)
    ensures Agrees(Run(s, calls)) && Dense(Run(s, calls).records)
    decreases |calls|
  {
    if calls != [] {
      StepAgrees(s, calls[0].0, calls[0].1);
      StepKeepsDense(s, calls[0].0, calls[0].1);
      RunKeeps(Step(s, calls[0].0, calls[0].1), calls[1..]);
    }
  }

  lemma EveryRunAgrees(calls: seq<(Env, Operation)>)
    ensures Agrees(Run(DEPLOYED, calls)) && Dense(Run(DEPLOYED, calls).records)
  {
    assert forall o :: TokensOf(DEPLOYED.tokens, o) == {};
    assert Registered(DEPLOYED.names) == {};
    assert forall t, n, y :: Group(DEPLOYED.records, t, n, y) == {};
    RunKeeps(DEPLOYED, calls);
  }

  /** Registering writes no live name. */
  lemma RegisterSparesLive(s: State, e: Env, name: string, owner: Owner, expire: int, soa: string)
    requires RegisterName(s, e, name, owner, expire, soa).Ok?
    ensures var names := RegisterName(s, e, name, owner, expire, soa).value.0.names;
      names == s.names
      || (names == s.names[name := NameState(owner, e.now + expire * MILLISECONDS, None)] && !Live(s.names, name, e.now))
  {
    hide WellFormed, ParentExpired, Conflicts, IsAdmin;
  }

  lemma RegisterRootSparesLive(s: State, e: Env, name: string, expire: int, soa: string)
    requires Indexed(s) && RegisterRoot(s, e, name, expire, soa).Ok?
    ensures RegisterRoot(s, e, name, expire, soa).value.names == s.names[name := NameState([], e.now + expire * MILLISECONDS, None)]
    ensures !Live(s.names, name, e.now)
  {
    JoinSplit(name);
    assert Split(name)[0..] == Split(name);
    hide WellFormed;
  }

  /** A live name keeps its owner and admin, and loses no time. */
  predicate Kept(names: Names, after: Names, name: string)
    requires name in names
  {
    && name in after
    && after[name].owner == names[name].owner
    && after[name].admin == names[name].admin
    && names[name].expiration <= after[name].expiration
  }

  /** Somebody other than the owner cannot take a live name, its admin or its remaining time. */
  lemma LiveNameIsKept(s: State, e: Env, op: Operation, name: string)
    requires Indexed(s) && Live(s.names, name, e.now) && s.names[name].owner !in e.signers
    ensures Kept(s.names, Step(s, e, op).names, name)
  {
    hide RegisterName, RegisterRoot, StoreSOA, WellFormed, RenewSOA, Indexed, ParentExpired, CheckRecord, Authorized;
    if Apply(s, e, op).Ok? {
      match op
      case Register(n, owner, expire, soa) => RegisterSparesLive(s, e, n, owner, expire, soa);
      case RegisterTLD(n, expire, soa) => RegisterRootSparesLive(s, e, n, expire, soa);
      case UpdateSOA(n, soa) => RecordsSpareNames(s, e, op);
      case AddRecord(_, _, _) => RecordsSpareNames(s, e, op);
      case SetRecord(_, _, _, _) => RecordsSpareNames(s, e, op);
      case DeleteRecords(_, _) => RecordsSpareNames(s, e, op);
      case _ =>
    }
  }

  lemma RecordsSpareNames(s: State, e: Env, op: Operation)
    requires op.UpdateSOA? || op.AddRecord? || op.SetRecord? || op.DeleteRecords?
    ensures Step(s, e, op) == s.(records := Step(s, e, op).records)
  {
    hide WellFormed, CheckRecord, Authorized, TokenID, Group, Standing, IsAdmin;
  }

  /** Through any run before its expiry in which the owner signs nothing, a name stays with its owner. */
  lemma {:induction false} OwnerKeepsNameUntilExpiry(s: State, calls: seq<(Env, Operation)>, name: string)
    requires Agrees(s) && name in s.names
    requires forall c :: c in calls ==> c.0.now < s.names[name].expiration && s.names[name].owner !in c.0.signers
    ensures name in Run(s, calls).names && Run(s, calls).names[name].owner == s.names[name].owner
    decreases |calls|
  {
    if calls != [] {
      assert calls[0] in calls;
      assert forall c :: c in calls[1..] ==> c in calls;
      StepAgrees(s, calls[0].0, calls[0].1);
      LiveNameIsKept(s, calls[0].0, calls[0].1, name);
      OwnerKeepsNameUntilExpiry(Step(s, calls[0].0, calls[0].1), calls[1..], name);
    }
  }

  // ---- resolving ----

  /** Names followed from the first: each has a standing token, and each but the last is an alias for the
      next one; the last has none, or aliases are what is asked for. */
  predicate IsChain(s: State, now: int, chain: seq<string>, typ: nat) {
    && chain != []
    && chain[0] != ""
    && ReadableToken(s, now, Trim(chain[0])).Ok?
    && var alias := Alias(s.records, ReadableToken(s, now, Trim(chain[0])).value, Trim(chain[0]));
      if |chain| == 1 then alias == "" || typ == CNAME
      else alias == chain[1] && alias != "" && typ != CNAME && IsChain(s, now, chain[1..], typ)
  }

  function Collected(s: State, now: int, chain: seq<string>, typ: nat): seq<string>
    requires IsChain(s, now, chain, typ)
  {
    Data(s.records, ReadableToken(s, now, Trim(chain[0])).value, Trim(chain[0]), typ)
      + if |chain| == 1 then [] else Collected(s, now, chain[1..], typ)
  }

  lemma {:induction false} ChainsAreUnique(s: State, now: int, a: seq<string>, b: seq<string>, typ: nat)
    requires IsChain(s, now, a, typ) && IsChain(s, now, b, typ) && a[0] == b[0]
    ensures a == b
  {
    if 1 < |a| && 1 < |b| {
      ChainsAreUnique(s, now, a[1..], b[1..], typ);
      assert a == [a[0]] + a[1..] && b == [b[0]] + b[1..];
    }
  }

  lemma {:induction false} ResolveFollows(s: State, now: int, res: seq<string>, chain: seq<string>, typ: nat, redirect: int)
    requires IsChain(s, now, chain, typ)
    ensures Resolve(s, now, res, chain[0], typ, redirect)
      == if |chain| <= redirect + 1 then Ok(res + Collected(s, now, chain, typ))
         else Resolve(s, now, res, chain[0], typ, redirect)
    ensures |chain| <= redirect + 1 <==> Resolve(s, now, res, chain[0], typ, redirect).Ok?
    decreases |chain|
  {
    if 0 <= redirect && 1 < |chain| {
      var token := ReadableToken(s, now, Trim(chain[0])).value;
      var found := res + Data(s.records, token, Trim(chain[0]), typ);
      ResolveFollows(s, now, found, chain[1..], typ, redirect - 1);
      assert found + Collected(s, now, chain[1..], typ)
        == res + (Data(s.records, token, Trim(chain[0]), typ) + Collected(s, now, chain[1..], typ));
    } else if |chain| == 1 {
      assert Collected(s, now, chain, typ)
        == Data(s.records, ReadableToken(s, now, Trim(chain[0])).value, Trim(chain[0]), typ);
    }
  }

  lemma {:induction false} ResolvedHasChain(s: State, now: int, res: seq<string>, name: string, typ: nat, redirect: int)
    returns (chain: seq<string>)
    requires Resolve(s, now, res, name, typ, redirect).Ok?
    ensures IsChain(s, now, chain, typ) && chain[0] == name && |chain| <= redirect + 1
    decreases redirect + 1
  {
    var token := ReadableToken(s, now, Trim(name)).value;
    var alias := Alias(s.records, token, Trim(name));
    if alias == "" || typ == CNAME {
      chain := [name];
    } else {
      var found := res + Data(s.records, token, Trim(name), typ);
      var rest := ResolvedHasChain(s, now, found, alias, typ, redirect - 1);
      chain := [name] + rest;
      assert chain[1..] == rest;
    }
  }

  /** Resolving yields exactly what is collected along the chain of at most three names that starts at the
      name, and fails without one. */
  lemma ResolveIff(s: State, now: int, name: string, typ: nat, r: seq<string>)
    ensures ResolveName(s, now, name, typ) == Ok(r) <==>
      && 2 <= |Split(name)| && typ != 100
      && (exists chain :: IsChain(s, now, chain, typ) && chain[0] == name && |chain| <= 3
                          && r == Collected(s, now, chain, typ))
  {
    if !IsTLD(name) && typ != NEO {
      if Resolve(s, now, [], name, typ, REDIRECTS).Ok? {
        var chain := ResolvedHasChain(s, now, [], name, typ, REDIRECTS);
        ResolveFollows(s, now, [], chain, typ, REDIRECTS);
        assert [] + Collected(s, now, chain, typ) == Collected(s, now, chain, typ);
      }
      forall chain | IsChain(s, now, chain, typ) && chain[0] == name && |chain| <= REDIRECTS + 1
        ensures ResolveName(s, now, name, typ) == Ok(Collected(s, now, chain, typ))
      {
        ResolveFollows(s, now, [], chain, typ, REDIRECTS);
        assert [] + Collected(s, now, chain, typ) == Collected(s, now, chain, typ);
      }
    }
  }

  /** Direct reading finds a name's token but then demands that every parent of the name itself is registered,
      so it succeeds only for the token and names one label below it; resolving has no such limit. */
  lemma GetRecordsIff(s: State, now: int, name: string, typ: nat, r: seq<string>)
    ensures GetRecords(s, now, name, typ) == Ok(r) <==>
      && 2 <= |Split(name)| && typ != 100
      && ReadableToken(s, now, name).Ok?
      && (ReadableToken(s, now, name).value == name || (1 < |Split(name)| && ReadableToken(s, now, name).value == Suffix(name, 1)))
      && r == Data(s.records, ReadableToken(s, now, name).value, name, typ)
  {
    if 2 <= |Split(name)| && typ != NEO {
      GetRecordsBelow(s, now, name, typ, r);
    }
    hide Split, ReadableToken, Data, TokenID, Standing;
  }

  lemma GetRecordsBelow(s: State, now: int, name: string, typ: nat, r: seq<string>)
    requires !IsTLD(name) && typ != NEO
    ensures GetRecords(s, now, name, typ) == Ok(r) <==>
      && ReadableToken(s, now, name).Ok?
      && (ReadableToken(s, now, name).value == name || ReadableToken(s, now, name).value == Suffix(name, 1))
      && r == Data(s.records, ReadableToken(s, now, name).value, name, typ)
  {
    var labels := Split(name);
    var last := |labels| - 1;
    var id := TokenID(s.names, name, now);
    if id.Ok? {
      var token := id.value;
      TokenIsLongestLive(s.names, name, now, token);
      JoinSplit(name);
      assert Suffix(name, 0) == name by { assert labels[0..] == labels; }
      if Live(s.names, token, now) {
        var i :| 0 <= i < last && Suffix(name, i) == token && Live(s.names, Suffix(name, i), now);
        SuffixSplits(name, i);
        if i == 0 {
          assert Split(token) == labels;
        } else if i == 1 {
          assert Split(token) == labels[1..];
          ParentsBelow(s.names, labels, now);
        } else {
          SuffixShrinks(name, 0, i);
          SuffixShrinks(name, 1, i);
          assert !Live(s.names, Suffix(name, 1), now) by {
            assert |Suffix(name, i)| < |Suffix(name, 1)|;
          }
          assert ParentExpired(s.names, labels, 1, now);
        }
      }
    }
  }

  lemma ParentsBelow(names: Names, labels: seq<string>, now: int)
    requires 1 < |labels| && Live(names, Join(labels[1..]), now)
    ensures ParentExpired(names, labels, 1, now) <==> ParentExpired(names, labels[1..], 1, now)
  {
    var rest := labels[1..];
    assert forall i :: 1 <= i < |rest| ==> rest[i..] == labels[i + 1..];
    if ParentExpired(names, labels, 1, now) {
      var i :| 1 <= i < |labels| && !Live(names, Join(labels[i..]), now);
      assert rest[i - 1..] == labels[i..];
      assert 1 < i;
    }
    if ParentExpired(names, rest, 1, now) {
      var i :| 1 <= i < |rest| && !Live(names, Join(rest[i..]), now);
      assert rest[i..] == labels[i + 1..];
    }
  }

  // ---- a name two labels below its domain ----

  const DEEP := "x.y.dom.com"
  const DOMAIN := "dom.com"
  const KEPT := RecordKey(DOMAIN, DEEP, A, 0)
  const STANDING := State(map["com" := NameState([], 100, None), DOMAIN := NameState([], 100, None)], {"com"}, map[], {}, 1,
                          map[KEPT := "192.0.2.7"])

  lemma DeepSplits()
    ensures Split(DEEP) == ["x", "y", "dom", "com"] && Split(DOMAIN) == ["dom", "com"]
    ensures Suffix(DEEP, 0) == DEEP && Suffix(DEEP, 1) == "y.dom.com" && Suffix(DEEP, 2) == DOMAIN
    ensures Join(["com"]) == "com"
  {
    assert Join(["dom", "com"]) == DOMAIN by { assert ["dom", "com"][1..] == ["com"]; }
    assert Join(["y", "dom", "com"]) == "y.dom.com" by { assert ["y", "dom", "com"][1..] == ["dom", "com"]; }
    var labels := ["x", "y", "dom", "com"];
    assert Join(labels) == DEEP by { assert labels[1..] == ["y", "dom", "com"]; }
    SplitJoin(labels);
    SplitJoin(["dom", "com"]);
    assert labels[0..] == labels && labels[1..] == ["y", "dom", "com"] && labels[2..] == ["dom", "com"];
  }

  lemma DeepToken()
    ensures ReadableToken(STANDING, 50, DEEP) == Ok(DOMAIN) && !IsTLD(DEEP)
  {
    DeepSplits();
    var labels := Split(DEEP);
    hide Split, Suffix, Join;
    assert WellFormed(DEEP);
    assert DEEP !in STANDING.names && "y.dom.com" !in STANDING.names;
    assert TokenFrom(STANDING.names, DEEP, 2, 50) == DOMAIN;
    assert TokenFrom(STANDING.names, DEEP, 1, 50) == DOMAIN;
    assert TokenFrom(STANDING.names, DEEP, 0, 50) == DOMAIN;
    assert Split(DOMAIN)[1..] == ["com"];
    assert Standing(STANDING.names, DOMAIN, Split(DOMAIN), 50);
  }

  lemma DeepData()
    ensures Data(STANDING.records, DOMAIN, DEEP, A) == ["192.0.2.7"]
    ensures Alias(STANDING.records, DOMAIN, DEEP) == ""
  {
    assert Group(STANDING.records, DOMAIN, DEEP, A) == {KEPT};
    assert Group(STANDING.records, DOMAIN, DEEP, CNAME) == {};
    assert DataUpTo(STANDING.records, DOMAIN, DEEP, A, 0) == [];
  }

  lemma DeepResolves()
    ensures ResolveName(STANDING, 50, DEEP, A) == Ok(["192.0.2.7"])
  {
    hide Split, Suffix, ReadableToken, Data, Alias, Join;
    DeepToken();
    DeepData();
    assert Trim(DEEP) == DEEP;
    assert [] + ["192.0.2.7"] == ["192.0.2.7"];
  }

  /** A record for a name two labels below its domain: resolving the name finds it, reading it directly is
      refused. */
  lemma DeepNameIsRefused()
    ensures ResolveName(STANDING, 50, DEEP, A) == Ok(["192.0.2.7"])
    ensures GetRecords(STANDING, 50, DEEP, A).Fault?
  {
    hide Split, Suffix, ReadableToken, Data, Alias, Join, GetRecords, ResolveName;
    DeepResolves();
    DeepToken();
    DeepSplits();
    var r := GetRecords(STANDING, 50, DEEP, A);
    if r.Ok? {
      GetRecordsIff(STANDING, 50, DEEP, A, r.value);
      assert false;
    }
  }
}
