/** Records and subdomains: records that a domain keeps for a subdomain or for names below it are hidden once
    the subdomain is registered. Registration refuses while there are such records for names below, but not
    for the subdomain's own name; from then on records for those names belong to the subdomain. */
module NameServiceShadows {
  import opened Storage
  import opened Labels
  import opened NameService
  import opened NameServiceLaws

  /** No domain keeps records that a live direct subdomain of it hides: with `from` 0, records for the
      subdomain's own name and for names below it, with 1 only the latter. */
  ghost predicate Unshadowed(names: Names, records: Records, now: int, from: nat) {
    forall k, i: nat :: k in records && from <= i < |Split(k.name)| - 1 && Live(names, Suffix(k.name, i), now)
      ==> k.token != Suffix(k.name, i + 1)
  }

  /** The parent domain keeps a record for the very name. */
  ghost predicate Held(records: Records, name: string) {
    1 < |Split(name)| && exists k :: k in records && k.name == name && k.token == Suffix(name, 1)
  }

  /** A record stored where `TokenID` says is not hidden. */
  lemma TokenIsUnshadowed(names: Names, name: string, now: int, i: nat)
    requires TokenID(names, name, now).Ok?
    requires i < |Split(name)| - 1 && Live(names, Suffix(name, i), now)
    ensures TokenID(names, name, now).value != Suffix(name, i + 1)
  {
    TokenIsLongestLive(names, name, now, TokenID(names, name, now).value);
    SuffixShrinks(name, i, i + 1);
  }

  /** What the conflict check finds: whatever is below a name label by label also ends with it. */
  lemma BelowConflicts(records: Records, k: RecordKey, i: nat)
    requires k in records && 0 < i < |Split(k.name)| - 1 && k.token == Suffix(k.name, i + 1)
    ensures 1 < |Split(Suffix(k.name, i))| && Conflicts(records, Suffix(k.name, i), Split(Suffix(k.name, i)))
  {
    SuffixSplits(k.name, i);
    assert Split(k.name)[i..][1..] == Split(k.name)[i + 1..];
    SuffixIsCut(k.name, i);
    OffsetGrows(Split(k.name), 0, i);
    assert EndsWith(k.name, Suffix(k.name, i));
  }

  lemma PutKeepsUnshadowed(names: Names, records: Records, now: int, from: nat, name: string, typ: nat, id: nat, data: string)
    requires Unshadowed(names, records, now, from) && TokenID(names, name, now).Ok?
    ensures Unshadowed(names, records[RecordKey(TokenID(names, name, now).value, name, typ, id) := data], now, from)
  {
    var at := RecordKey(TokenID(names, name, now).value, name, typ, id);
    forall k, i: nat | k in records[at := data] && from <= i < |Split(k.name)| - 1 && Live(names, Suffix(k.name, i), now)
      ensures k.token != Suffix(k.name, i + 1)
    {
      if k == at {
        TokenIsUnshadowed(names, name, now, i);
      }
    }
  }

  /** Records that only change their data, or go, hide nothing new. */
  lemma FewerKeepUnshadowed(names: Names, records: Records, fewer: Records, now: int, from: nat)
    requires Unshadowed(names, records, now, from) && fewer.Keys <= records.Keys
    ensures Unshadowed(names, fewer, now, from)
  {
  }

  lemma WholeName(name: string)
    ensures Suffix(name, 0) == name
  {
    JoinSplit(name);
    assert Split(name)[0..] == Split(name);
  }

  /** A name that is written without conflicting records above it hides nothing below it, and nothing at all
      unless it becomes live while its parent keeps records for it. */
  lemma NameKeepsUnshadowed(names: Names, records: Records, now: int, from: nat, name: string, ns: NameState)
    requires Unshadowed(names, records, now, from)
    requires 1 < |Split(name)| ==> Live(names, name, now) || !Conflicts(records, name, Split(name))
    requires 0 < from || Live(names, name, now) || ns.expiration <= now || !Held(records, name)
    ensures Unshadowed(names[name := ns], records, now, from)
  {
    forall k, i: nat | k in records && from <= i < |Split(k.name)| - 1 && Live(names[name := ns], Suffix(k.name, i), now)
      ensures k.token != Suffix(k.name, i + 1)
    {
      if Suffix(k.name, i) == name && k.token == Suffix(k.name, i + 1) {
        if i == 0 {
          WholeName(k.name);
        } else {
          BelowConflicts(records, k, i);
        }
      }
    }
  }

  /** A live name hides what its parent keeps for it. */
  lemma HeldIsShadowed(names: Names, records: Records, now: int, name: string)
    requires Live(names, name, now) && Held(records, name)
    ensures !Unshadowed(names, records, now, 0)
  {
    var k :| k in records && k.name == name && k.token == Suffix(name, 1);
    WholeName(name);
    assert Live(names, Suffix(k.name, 0), now);
  }

  lemma StoreSOAKeepsUnshadowed(s: State, e: Env, name: string, soa: string, from: nat)
    requires Unshadowed(s.names, s.records, e.now, from)
    ensures StoreSOA(s, e, name, soa).Ok? ==>
      (StoreSOA(s, e, name, soa).value.names == s.names && Unshadowed(s.names, StoreSOA(s, e, name, soa).value.records, e.now, from))
  {
    if StoreSOA(s, e, name, soa).Ok? {
      PutKeepsUnshadowed(s.names, s.records, e.now, from, name, SOA, 0, soa);
    }
  }

  lemma RegistrationFindsNoConflict(s: State, e: Env, name: string, owner: Owner, expire: int, soa: string)
    requires RegisterName(s, e, name, owner, expire, soa).Ok?
    ensures 1 < |Split(name)| && !Conflicts(s.records, name, Split(name))
    ensures Freed(s, name).names == s.names && Freed(s, name).records == s.records
  {
    hide WellFormed, ParentExpired, Conflicts, IsAdmin;
  }

  /** An accepted registration does not make a name live that its parent keeps records for. */
  ghost predicate Clear(s: State, e: Env, op: Operation) {
    op.Register? && Apply(s, e, op).Ok? && 0 < op.expire && !Live(s.names, op.name, e.now) ==> !Held(s.records, op.name)
  }

  lemma RegisterKeepsUnshadowed(s: State, e: Env, name: string, owner: Owner, expire: int, soa: string, from: nat)
    requires Unshadowed(s.names, s.records, e.now, from) && RegisterName(s, e, name, owner, expire, soa).Ok?
    requires 0 < from || Clear(s, e, Register(name, owner, expire, soa))
    ensures var t := RegisterName(s, e, name, owner, expire, soa).value.0; Unshadowed(t.names, t.records, e.now, from)
  {
    var ns := NameState(owner, e.now + expire * MILLISECONDS, None);
    RegistrationFindsNoConflict(s, e, name, owner, expire, soa);
    NameKeepsUnshadowed(s.names, s.records, e.now, from, name, ns);
    StoreSOAKeepsUnshadowed(Freed(s, name).(names := s.names[name := ns]), e, name, soa, from);
    RegisterStoresSOA(s, e, name, owner, expire, soa);
    RegisterWrites(s, e, name, owner, expire, soa);
    hide *;
  }

  lemma RegisterWrites(s: State, e: Env, name: string, owner: Owner, expire: int, soa: string)
    requires RegisterName(s, e, name, owner, expire, soa).Ok?
    ensures var t := RegisterName(s, e, name, owner, expire, soa).value.0;
      t == s || t.names == s.names[name := NameState(owner, e.now + expire * MILLISECONDS, None)]
  {
    hide Registrable;
  }

  lemma RegisterRootKeepsUnshadowed(s: State, e: Env, name: string, expire: int, soa: string, from: nat)
    requires Unshadowed(s.names, s.records, e.now, from) && RegisterRoot(s, e, name, expire, soa).Ok?
    ensures var t := RegisterRoot(s, e, name, expire, soa).value; Unshadowed(t.names, t.records, e.now, from)
  {
    var ns := NameState([], e.now + expire * MILLISECONDS, None);
    NameKeepsUnshadowed(s.names, s.records, e.now, from, name, ns);
    hide WellFormed, ParentExpired, Unshadowed;
    StoreSOAKeepsUnshadowed(s.(roots := s.roots + {name}, names := s.names[name := ns]), e, name, soa, from);
  }

  lemma RecordsKeepUnshadowed(s: State, e: Env, op: Operation, from: nat)
    requires Unshadowed(s.names, s.records, e.now, from) && Apply(s, e, op).Ok?
    requires op.AddRecord? || op.SetRecord? || op.DeleteRecords?
    ensures Unshadowed(s.names, Step(s, e, op).records, e.now, from)
  {
    hide WellFormed, TokenID, Standing, IsAdmin, Unshadowed;
    match op
    case AddRecord(name, typ, data) =>
      var token := CheckRecord(s, e, name, typ, data).value;
      CheckedToken(s, e, name, typ, data);
      var k := RecordKey(token, name, typ, |Group(s.records, token, name, typ)|);
      PutKeepsUnshadowed(s.names, s.records, e.now, from, name, typ, k.id, data);
      FewerKeepUnshadowed(s.names, s.records[k := data], Step(s, e, op).records, e.now, from);
    case SetRecord(name, typ, id, data) =>
      FewerKeepUnshadowed(s.names, s.records, Step(s, e, op).records, e.now, from);
    case DeleteRecords(name, typ) =>
      FewerKeepUnshadowed(s.names, s.records, Step(s, e, op).records, e.now, from);
  }

  lemma CheckedToken(s: State, e: Env, name: string, typ: nat, data: string)
    requires CheckRecord(s, e, name, typ, data).Ok?
    ensures TokenID(s.names, name, e.now) == CheckRecord(s, e, name, typ, data)
  {
  }

  /** A name whose entry is rewritten was live before, in the calls that do not register. */
  lemma RewritesKeepUnshadowed(s: State, e: Env, op: Operation, from: nat)
    requires Unshadowed(s.names, s.records, e.now, from) && Apply(s, e, op).Ok?
    requires op.Transfer? || op.Renew? || op.SetAdmin?
    ensures Unshadowed(Step(s, e, op).names, Step(s, e, op).records, e.now, from)
  {
    var t := Step(s, e, op);
    hide WellFormed, ParentExpired, IsAdmin, Unshadowed, IsTLD;
    if t.names != s.names {
      NameKeepsUnshadowed(s.names, s.records, e.now, from, op.name, t.names[op.name]);
    }
  }

  lemma StepKeepsUnshadowed(s: State, e: Env, op: Operation, from: nat)
    requires Unshadowed(s.names, s.records, e.now, from)
    requires 0 < from || Clear(s, e, op)
    ensures Unshadowed(Step(s, e, op).names, Step(s, e, op).records, e.now, from)
  {
    hide Unshadowed, StoreSOA, RegisterName, RegisterRoot, WellFormed;
    if Apply(s, e, op).Ok? {
      match op
      case Register(name, owner, expire, soa) => RegisterKeepsUnshadowed(s, e, name, owner, expire, soa, from);
      case RegisterTLD(name, expire, soa) => RegisterRootKeepsUnshadowed(s, e, name, expire, soa, from);
      case UpdateSOA(name, soa) => StoreSOAKeepsUnshadowed(s, e, name, soa, from);
      case Transfer(_, _) => RewritesKeepUnshadowed(s, e, op, from);
      case Renew(_, _) => RewritesKeepUnshadowed(s, e, op, from);
      case SetAdmin(_, _) => RewritesKeepUnshadowed(s, e, op, from);
      case AddRecord(_, _, _) => RecordsSpareNames(s, e, op); RecordsKeepUnshadowed(s, e, op, from);
      case SetRecord(_, _, _, _) => RecordsSpareNames(s, e, op); RecordsKeepUnshadowed(s, e, op, from);
      case DeleteRecords(_, _) => RecordsSpareNames(s, e, op); RecordsKeepUnshadowed(s, e, op, from);
    }
  }

  /** What registration hides: a record that the parent keeps for the name stays stored and out of reach. */
  lemma RegistrationHides(s: State, e: Env, name: string, owner: Owner, expire: int, soa: string, k: RecordKey, now: int)
    requires RegisterName(s, e, name, owner, expire, soa).Ok? && RegisterName(s, e, name, owner, expire, soa).value.1
    requires e.now <= now < e.now + expire * MILLISECONDS
    requires k in s.records && k.name == name && k.token == Suffix(name, 1)
    ensures var t := RegisterName(s, e, name, owner, expire, soa).value.0;
      && k in t.records && Live(t.names, name, now)
      && TokenID(t.names, name, now) == Ok(name) && k.token != name
  {
    RegistrationFindsNoConflict(s, e, name, owner, expire, soa);
    RegisterGrants(s, e, name, owner, expire, soa);
    WholeName(name);
    SuffixShrinks(name, 0, 1);
    hide Conflicts, RegisterName, WellFormed;
  }

  lemma RegisterGrants(s: State, e: Env, name: string, owner: Owner, expire: int, soa: string)
    requires RegisterName(s, e, name, owner, expire, soa).Ok? && RegisterName(s, e, name, owner, expire, soa).value.1
    ensures var t := RegisterName(s, e, name, owner, expire, soa).value.0;
      && WellFormed(name) && !Live(s.names, name, e.now)
      && t.names == s.names[name := NameState(owner, e.now + expire * MILLISECONDS, None)]
      && s.records.Keys <= t.records.Keys
  {
    hide WellFormed, ParentExpired, Conflicts, IsAdmin;
  }

  /** A call leaves nothing hidden exactly if it is no accepted registration of a name that its parent keeps
      records for. */
  lemma StepHidesIff(s: State, e: Env, op: Operation)
    requires Unshadowed(s.names, s.records, e.now, 0)
    ensures Unshadowed(Step(s, e, op).names, Step(s, e, op).records, e.now, 0) <==> Clear(s, e, op)
  {
    if Clear(s, e, op) {
      StepKeepsUnshadowed(s, e, op, 0);
    } else {
      HeldNameIsHidden(s, e, op.name, op.owner, op.expire, op.soa);
    }
  }

  lemma HeldNameIsHidden(s: State, e: Env, name: string, owner: Owner, expire: int, soa: string)
    requires RegisterName(s, e, name, owner, expire, soa).Ok? && 0 < expire
    requires !Live(s.names, name, e.now) && Held(s.records, name)
    ensures var t := RegisterName(s, e, name, owner, expire, soa).value.0; !Unshadowed(t.names, t.records, e.now, 0)
  {
    RegisterIsNew(s, e, name, owner, expire, soa);
    RegisterGrants(s, e, name, owner, expire, soa);
    hide RegisterName, WellFormed, Unshadowed;
    var t := RegisterName(s, e, name, owner, expire, soa).value.0;
    var k :| k in s.records && k.name == name && k.token == Suffix(name, 1);
    assert k in t.records;
    HeldIsShadowed(t.names, t.records, e.now, name);
  }

  lemma RegisterIsNew(s: State, e: Env, name: string, owner: Owner, expire: int, soa: string)
    requires RegisterName(s, e, name, owner, expire, soa).Ok? && !Live(s.names, name, e.now)
    ensures RegisterName(s, e, name, owner, expire, soa).value.1
  {
    hide WellFormed, ParentExpired, Conflicts, IsAdmin;
  }

  /** Block times do not decrease and begin no earlier than the given one. */
  ghost predicate Timely(calls: seq<(Env, Operation)>, start: int) {
    && (forall i :: 0 <= i < |calls| ==> start <= calls[i].0.now)
    && (forall i, j :: 0 <= i < j < |calls| ==> calls[i].0.now <= calls[j].0.now)
  }

  /** Every registration of the run is clear where it is made. */
  ghost predicate AllClear(s: State, calls: seq<(Env, Operation)>)
    decreases |calls|
  {
    calls == [] || (Clear(s, calls[0].0, calls[0].1) && AllClear(Step(s, calls[0].0, calls[0].1), calls[1..]))
  }

  /** After no call of the run is anything hidden. */
  ghost predicate NeverHides(s: State, calls: seq<(Env, Operation)>)
    decreases |calls|
  {
    calls == [] ||
    var t := Step(s, calls[0].0, calls[0].1);
    Unshadowed(t.names, t.records, calls[0].0.now, 0) && NeverHides(t, calls[1..])
  }

  lemma LaterUnshadowed(names: Names, records: Records, now: int, later: int, from: nat)
    requires Unshadowed(names, records, now, from) && now <= later
    ensures Unshadowed(names, records, later, from)
  {
  }

  lemma TimelyRest(calls: seq<(Env, Operation)>, start: int)
    requires Timely(calls, start) && calls != []
    ensures start <= calls[0].0.now && Timely(calls[1..], calls[0].0.now)
  {
  }

  lemma {:induction false} NeverHidesIffClear(s: State, calls: seq<(Env, Operation)>, start: int)
    requires Unshadowed(s.names, s.records, start, 0) && Timely(calls, start)
    ensures NeverHides(s, calls) <==> AllClear(s, calls)
    decreases |calls|
  {
    hide Unshadowed, Clear, Step, Timely;
    if calls != [] {
      TimelyRest(calls, start);
      LaterUnshadowed(s.names, s.records, start, calls[0].0.now, 0);
      StepHidesIff(s, calls[0].0, calls[0].1);
      if Clear(s, calls[0].0, calls[0].1) {
        NeverHidesIffClear(Step(s, calls[0].0, calls[0].1), calls[1..], calls[0].0.now);
      }
    }
  }

  /** A run hides no record from the names it is for, exactly if no accepted registration makes a name live
      that its parent keeps records for. */
  lemma RunNeverHidesIff(calls: seq<(Env, Operation)>, start: int)
    requires Timely(calls, start)
    ensures NeverHides(DEPLOYED, calls) <==> AllClear(DEPLOYED, calls)
  {
    NeverHidesIffClear(DEPLOYED, calls, start);
  }

  lemma {:induction false} RunKeepsUnshadowed(s: State, calls: seq<(Env, Operation)>, start: int, now: int, from: nat)
    requires Unshadowed(s.names, s.records, start, from) && Timely(calls, start)
    requires 0 < from || AllClear(s, calls)
    requires start <= now && forall i :: 0 <= i < |calls| ==> calls[i].0.now <= now
    ensures Unshadowed(Run(s, calls).names, Run(s, calls).records, now, from)
    decreases |calls|
  {
    hide Unshadowed, Clear, Step, Timely;
    if calls != [] {
      TimelyRest(calls, start);
      LaterUnshadowed(s.names, s.records, start, calls[0].0.now, from);
      StepKeepsUnshadowed(s, calls[0].0, calls[0].1, from);
      RunKeepsUnshadowed(Step(s, calls[0].0, calls[0].1), calls[1..], calls[0].0.now, now, from);
    } else {
      LaterUnshadowed(s.names, s.records, start, now, from);
    }
  }

  /** In every run: where a subdomain stands, no domain above it keeps records for names below it, so
      whatever is stored for such a name is found in the subdomain; and the same holds for the subdomain's
      own name if the run's registrations are clear. */
  lemma NothingIsHidden(calls: seq<(Env, Operation)>, start: int, now: int, k: RecordKey, i: nat, j: nat)
    requires Timely(calls, start) && start <= now && forall c :: c in calls ==> c.0.now <= now
    requires k in Run(DEPLOYED, calls).records && i < j < |Split(k.name)|
    requires 0 < i || AllClear(DEPLOYED, calls)
    requires Standing(Run(DEPLOYED, calls).names, Suffix(k.name, i), Split(Suffix(k.name, i)), now)
    ensures k.token != Suffix(k.name, j)
  {
    RunKeepsUnshadowed(DEPLOYED, calls, start, now, if i == 0 then 0 else 1);
    var names := Run(DEPLOYED, calls).names;
    hide Run, AllClear;
    assert Live(names, Suffix(k.name, j - 1), now) by {
      if i < j - 1 {
        SuffixSplits(k.name, i);
        assert Split(k.name)[i..][j - 1 - i..] == Split(k.name)[j - 1..];
        assert Live(names, Join(Split(Suffix(k.name, i))[j - 1 - i..]), now);
      }
    }
  }

  // ---- a record that registration hides ----

  const SUB := "sub.dom.com"
  const SOADATA := "dom.com ops 1 2 3 4 5"
  const OF_SUB := RecordKey(DOMAIN, SUB, A, 0)

  /** One block, in which the committee and the account sign. */
  function Block(a: Owner): Env {
    Env(0, {a}, true, true, Some(SOADATA))
  }

  /** The account registers a domain and keeps a record for a name below it. */
  function Keeping(a: Owner): seq<(Env, Operation)> {
    [(Block(a), RegisterTLD("com", 10, SOADATA)), (Block(a), Register(DOMAIN, a, 10, SOADATA)),
     (Block(a), AddRecord(SUB, A, "192.0.2.7"))]
  }

  /** Then it registers that name. */
  function Hiding(a: Owner): (Env, Operation) {
    (Block(a), Register(SUB, a, 10, SOADATA))
  }

  function Soa(name: string): RecordKey {
    RecordKey(name, name, SOA, 0)
  }

  function RootState(): State {
    State(map["com" := NameState([], 10000, None)], {"com"}, map[], {}, 0, map[Soa("com") := SOADATA])
  }

  /** The state with a new name of the account's. */
  function Named(s: State, a: Owner, name: string): State {
    State(s.names[name := NameState(a, 10000, None)], s.roots, s.balances[a := Get(s.balances, a) + 1],
          s.tokens + {(a, name)}, s.supply + 1, s.records[Soa(name) := SOADATA])
  }

  function DomainState(a: Owner): State {
    Named(RootState(), a, DOMAIN)
  }

  function KeepingState(a: Owner): State {
    DomainState(a).(records := DomainState(a).records[OF_SUB := "192.0.2.7"])
  }

  function HidingState(a: Owner): State {
    Named(KeepingState(a), a, SUB)
  }

  lemma SubJoins()
    ensures Join(["com"]) == "com" && Join(["dom", "com"]) == DOMAIN && Join(["sub", "dom", "com"]) == SUB
  {
    assert ["dom", "com"][1..] == ["com"];
    assert ["sub", "dom", "com"][1..] == ["dom", "com"];
  }

  lemma SubSplits()
    ensures Split("com") == ["com"] && Split(DOMAIN) == ["dom", "com"] && Split(SUB) == ["sub", "dom", "com"]
  {
    SubJoins();
    assert NoDots("sub") && NoDots("dom") && NoDots("com");
    hide Join, Split;
    SplitJoin(["com"]);
    SplitJoin(["dom", "com"]);
    SplitJoin(["sub", "dom", "com"]);
  }

  lemma SubSuffixes()
    ensures Suffix(DOMAIN, 0) == DOMAIN && Suffix(SUB, 0) == SUB
    ensures 1 < |Split(SUB)| && Suffix(SUB, 1) == DOMAIN
  {
    SubSplits();
    SubJoins();
    hide Join, Split;
    WholeName(DOMAIN);
    WholeName(SUB);
    assert ["sub", "dom", "com"][1..] == ["dom", "com"];
  }

  lemma SubWellFormed()
    ensures WellFormed("com") && WellFormed(DOMAIN) && WellFormed(SUB)
  {
    SubSplits();
    hide Split;
    assert CheckFragment("com", true) && CheckFragment("dom", false) && CheckFragment("sub", false);
    hide CheckFragment;
  }

  lemma RootStep(a: Owner)
    ensures Step(DEPLOYED, Block(a), RegisterTLD("com", 10, SOADATA)) == RootState()
  {
    SubSplits();
    SubJoins();
    SubSuffixes();
    SubWellFormed();
    hide Split, Suffix, Join, WellFormed;
  }

  lemma ParentsStand(names: Names, name: string, now: int)
    requires name in {DOMAIN, SUB} && Live(names, "com", now) && (name == SUB ==> Live(names, DOMAIN, now))
    ensures !ParentExpired(names, Split(name), 1, now)
  {
    SubSplits();
    SubJoins();
    SubSuffixes();
    SubWellFormed();
    hide Split, Suffix, Join, WellFormed;
    forall i | 1 <= i < |Split(name)|
      ensures Live(names, Join(Split(name)[i..]), now)
    {
      assert Split(name)[i..] == if i == |Split(name)| - 1 then ["com"] else ["dom", "com"];
    }
  }

  lemma NewNameStep(s: State, a: Owner, name: string)
    requires Registrable(s, Block(a), name, a) == Ok(true) && name !in s.names
    requires TokenID(Named(s, a, name).names, name, 0) == Ok(name) && 0 <= Get(s.balances, a)
    ensures Step(s, Block(a), Register(name, a, 10, SOADATA)) == Named(s, a, name)
  {
    hide Registrable, TokenID;
  }

  lemma LiveNamesToken(names: Names, name: string)
    requires name in {DOMAIN, SUB} && Live(names, name, 0)
    ensures TokenID(names, name, 0) == Ok(name)
  {
    SubSplits();
    SubSuffixes();
    SubWellFormed();
    hide Split, Suffix, WellFormed;
  }

  lemma ParentSigns(a: Owner, names: Names)
    requires DOMAIN in names && names[DOMAIN].owner == a
    ensures 2 < |Split(SUB)| && IsAdmin(ParentState(names, Split(SUB)), Block(a))
  {
    SubSplits();
    SubJoins();
    hide Split, Join;
    assert ["sub", "dom", "com"][1..] == ["dom", "com"];
  }

  lemma MayRegister(a: Owner, s: State, name: string)
    requires name in {DOMAIN, SUB} && |a| == HASH160_LEN && "com" in s.roots
    requires Live(s.names, "com", 0)
    requires name == SUB ==> Live(s.names, DOMAIN, 0) && s.names[DOMAIN].owner == a
    requires forall k :: k in s.records ==> |k.name| <= |name|
    ensures Registrable(s, Block(a), name, a) == Ok(true)
  {
    hide Split, Join, WellFormed, ParentExpired, IsAdmin, ParentState;
    SubSplits();
    SubWellFormed();
    ParentsStand(s.names, name, 0);
    if name == SUB {
      ParentSigns(a, s.names);
    }
    var labels := Split(name);
    assert 1 < |labels| && labels[|labels| - 1] == "com";
    assert !Conflicts(s.records, name, labels);
    hide Conflicts, Live;
    hide DOMAIN, SUB;
  }

  lemma RootNames()
    ensures var s := RootState();
      && Live(s.names, "com", 0) && "com" in s.roots && DOMAIN !in s.names && s.balances == map[]
      && forall k :: k in s.records ==> |k.name| <= |DOMAIN|
  {
  }

  lemma DomainStep(a: Owner)
    requires |a| == HASH160_LEN
    ensures Step(RootState(), Block(a), Register(DOMAIN, a, 10, SOADATA)) == DomainState(a)
  {
    RootNames();
    hide Registrable, TokenID, Step, RootState;
    MayRegister(a, RootState(), DOMAIN);
    LiveNamesToken(DomainState(a).names, DOMAIN);
    NewNameStep(RootState(), a, DOMAIN);
  }

  lemma KeptNames(a: Owner)
    ensures var s := KeepingState(a);
      && Live(s.names, "com", 0) && Live(s.names, DOMAIN, 0) && s.names[DOMAIN].owner == a && SUB !in s.names
      && "com" in s.roots && Get(s.balances, a) == 1 && forall k :: k in s.records ==> |k.name| <= |SUB|
    ensures var t := HidingState(a); Live(t.names, "com", 0) && Live(t.names, DOMAIN, 0) && Live(t.names, SUB, 0)
  {
  }

  lemma SubStep(a: Owner)
    requires |a| == HASH160_LEN
    ensures Step(KeepingState(a), Block(a), Hiding(a).1) == HidingState(a)
  {
    KeptNames(a);
    hide Registrable, TokenID, Step, KeepingState;
    MayRegister(a, KeepingState(a), SUB);
    LiveNamesToken(HidingState(a).names, SUB);
    NewNameStep(KeepingState(a), a, SUB);
  }

  lemma SubToken(a: Owner)
    ensures TokenID(KeepingState(a).names, SUB, 0) == Ok(DOMAIN)
    ensures Standing(KeepingState(a).names, DOMAIN, Split(DOMAIN), 0)
  {
    KeptNames(a);
    SubSplits();
    SubSuffixes();
    SubWellFormed();
    var names := KeepingState(a).names;
    ParentsStand(names, DOMAIN, 0);
    hide Split, Suffix, WellFormed, ParentExpired, KeepingState;
    assert TokenFrom(names, SUB, 1, 0) == DOMAIN;
    assert TokenFrom(names, SUB, 0, 0) == DOMAIN;
  }

  lemma KeepingStep(a: Owner)
    ensures Step(DomainState(a), Block(a), AddRecord(SUB, A, "192.0.2.7")) == KeepingState(a)
  {
    SubToken(a);
    SubSplits();
    hide TokenID, Split, ParentExpired;
    var s := DomainState(a);
    assert Group(s.records, DOMAIN, SUB, A) == {};
    assert CheckRecord(s, Block(a), SUB, A, "192.0.2.7") == Ok(DOMAIN);
    hide CheckRecord;
    assert KeepingState(a).records[Soa(DOMAIN) := SOADATA] == KeepingState(a).records;
  }

  lemma KeptData(a: Owner)
    ensures Data(KeepingState(a).records, DOMAIN, SUB, A) == ["192.0.2.7"] && Alias(KeepingState(a).records, DOMAIN, SUB) == ""
    ensures Data(HidingState(a).records, SUB, SUB, A) == [] && Alias(HidingState(a).records, SUB, SUB) == ""
  {
    var kept, now := KeepingState(a).records, HidingState(a).records;
    assert Group(kept, DOMAIN, SUB, A) == {OF_SUB} && Group(kept, DOMAIN, SUB, CNAME) == {};
    assert DataUpTo(kept, DOMAIN, SUB, A, 0) == [];
    assert Group(now, SUB, SUB, A) == {} && Group(now, SUB, SUB, CNAME) == {};
  }

  lemma SubStands(a: Owner)
    ensures ReadableToken(KeepingState(a), 0, SUB) == Ok(DOMAIN) && ReadableToken(HidingState(a), 0, SUB) == Ok(SUB)
  {
    KeptNames(a);
    SubToken(a);
    hide TokenID, Split, ParentExpired, KeepingState, HidingState;
    LiveNamesToken(HidingState(a).names, SUB);
    ParentsStand(HidingState(a).names, SUB, 0);
  }

  lemma OneLookup(s: State, name: string, token: string, data: seq<string>)
    requires name != "" && Trim(name) == name && !IsTLD(name) && ReadableToken(s, 0, name) == Ok(token)
    requires Data(s.records, token, name, A) == data && Alias(s.records, token, name) == ""
    ensures ResolveName(s, 0, name, A) == Ok(data)
  {
    hide ReadableToken, Data, Alias, IsTLD;
    assert [] + data == data;
  }

  lemma RunOfThree(s: State, c: seq<(Env, Operation)>)
    requires |c| == 3
    ensures Run(s, c) == Step(Step(Step(s, c[0].0, c[0].1), c[1].0, c[1].1), c[2].0, c[2].1)
  {
    hide Step;
    var t := Step(s, c[0].0, c[0].1);
    assert Run(s, c) == Run(t, c[1..]);
    var u := Step(t, c[1].0, c[1].1);
    assert Run(t, c[1..]) == Run(u, c[1..][1..]) && c[1..][0] == c[1];
    assert c[1..][1..] == [c[2]];
    assert Run(u, [c[2]]) == Run(Step(u, c[2].0, c[2].1), [c[2]][1..]);
  }

  lemma KeepingRun(a: Owner)
    requires |a| == HASH160_LEN
    ensures Run(DEPLOYED, Keeping(a)) == KeepingState(a)
  {
    RootStep(a);
    DomainStep(a);
    KeepingStep(a);
    hide Step, Run, RootState, DomainState, KeepingState;
    RunOfThree(DEPLOYED, Keeping(a));
  }

  lemma BothKeep(a: Owner)
    ensures OF_SUB in KeepingState(a).records && OF_SUB in HidingState(a).records && Trim(SUB) == SUB
    ensures Hiding(a).0 == Block(a)
  {
  }

  /** A domain's record for a name below it resolves until that name is registered, and then does not. */
  lemma RegisteringHidesRecord(a: Owner)
    requires |a| == HASH160_LEN
    ensures var s := Run(DEPLOYED, Keeping(a)); var t := Step(s, Hiding(a).0, Hiding(a).1);
      && OF_SUB in s.records && ResolveName(s, 0, SUB, A) == Ok(["192.0.2.7"])
      && OF_SUB in t.records && ResolveName(t, 0, SUB, A) == Ok([])
  {
    KeepingRun(a);
    SubStep(a);
    BothKeep(a);
    SubStands(a);
    KeptData(a);
    SubSplits();
    hide Step, Run, ResolveName, ReadableToken, Data, Alias, Split;
    hide Keeping, KeepingState, HidingState, Hiding;
    OneLookup(KeepingState(a), SUB, DOMAIN, ["192.0.2.7"]);
    OneLookup(HidingState(a), SUB, SUB, []);
  }
}
