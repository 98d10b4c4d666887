/** The name service as it runs: lookups that walk a name label by label, and entry points that update the
    stored maps in place, each proved to do what its specification says. */
module NameServiceContract {
  import opened Storage
  import opened Labels
  import opened NameService
  import opened NameServiceLaws

  ghost predicate Obeys(before: State, e: Env, op: Operation, after: State, outcome: Result<bool, Error>) {
    match Apply(before, e, op)
    case Fault(error) => outcome == Fault(error) && after == before
    case Ok((s, done)) => outcome == Ok(done) && after == s
  }

  // ---- iteration over the records of a name ----

  predicate Before(a: RecordKey, b: RecordKey) {
    a.typ < b.typ || (a.typ == b.typ && a.id < b.id)
  }

  /** Keys of one name's records in storage order: by type, then by id. */
  ghost predicate InOrder(order: seq<RecordKey>, keys: set<RecordKey>) {
    && (forall k :: k in order <==> k in keys)
    && forall i, j :: 0 <= i < j < |order| ==> Before(order[i], order[j])
  }

  function AllOf(records: Records, token: string, name: string): set<RecordKey> {
    set k | k in records && k.token == token && k.name == name
  }

  lemma {:induction false} FirstExists(keys: set<RecordKey>, at: RecordKey)
    requires at in keys
    ensures exists a :: a in keys && forall b :: b in keys ==> !Before(b, a)
    decreases at.typ, at.id
  {
    if exists b :: b in keys && Before(b, at) {
      var b :| b in keys && Before(b, at);
      FirstExists(keys, b);
    }
  }

  method FindKeys(records: Records, token: string, name: string) returns (order: seq<RecordKey>)
    ensures InOrder(order, AllOf(records, token, name))
  {
    order := [];
    var keys := AllOf(records, token, name);
    var rest := keys;
    while rest != {}
      invariant rest <= keys && InOrder(order, keys - rest)
      invariant forall a, b :: a in order && b in rest ==> Before(a, b)
      decreases |rest|
    {
      ghost var some :| some in rest;
      FirstExists(rest, some);
      var at :| at in rest && forall b :: b in rest ==> !Before(b, at);
      order := order + [at];
      rest := rest - {at};
    }
    assert keys - {} == keys;
  }

  /** The first n records of a type are the ones already passed. */
  ghost predicate Passed(records: Records, token: string, name: string, typ: nat, order: seq<RecordKey>, i: nat, n: nat)
    requires i <= |order|
  {
    && n <= |Group(records, token, name, typ)|
    && forall id: nat :: RecordKey(token, name, typ, id) in order[..i] <==> id < n
  }

  /** In order and with dense ids, the next record of a type is the one with the next id. */
  lemma PassedGrows(records: Records, token: string, name: string, typ: nat, order: seq<RecordKey>, i: nat, n: nat)
    requires Dense(records) && InOrder(order, AllOf(records, token, name)) && i < |order|
    requires Passed(records, token, name, typ, order, i, n)
    ensures Passed(records, token, name, typ, order, i + 1, if order[i].typ == typ then n + 1 else n)
    ensures order[i].typ == typ ==> order[i] == RecordKey(token, name, typ, n)
  {
    assert order[i] in order;
    assert order[..i + 1] == order[..i] + [order[i]];
    NotYet(order, i, AllOf(records, token, name), order[i]);
    if order[i].typ == typ {
      assert order[i] == RecordKey(token, name, typ, order[i].id);
      var k := RecordKey(token, name, typ, n);
      assert k in records && k !in order[..i];
      NotYet(order, i, AllOf(records, token, name), k);
    }
  }

  /** A key is among those before position i exactly when it comes before the key there. */
  lemma NotYet(order: seq<RecordKey>, i: nat, keys: set<RecordKey>, k: RecordKey)
    requires InOrder(order, keys) && i < |order| && k in keys
    ensures k in order[..i] <==> Before(k, order[i])
    ensures k == order[i] || Before(k, order[i]) || Before(order[i], k)
  {
    assert k in order;
    var j :| 0 <= j < |order| && order[j] == k;
    if j < i {
      assert order[..i][j] == k;
    } else {
      assert forall m :: 0 <= m < i ==> Before(order[..i][m], order[i]);
    }
  }

  lemma PassedAll(records: Records, token: string, name: string, typ: nat, order: seq<RecordKey>, n: nat)
    requires Dense(records) && InOrder(order, AllOf(records, token, name))
    requires Passed(records, token, name, typ, order, |order|, n)
    ensures n == |Group(records, token, name, typ)|
  {
    assert order[..|order|] == order;
    assert RecordKey(token, name, typ, n) !in order;
    assert RecordKey(token, name, typ, n) !in AllOf(records, token, name);
  }

  lemma StartsEmpty(records: Records, token: string, name: string, typ: nat, order: seq<RecordKey>)
    ensures Passed(records, token, name, typ, order, 0, 0)
    ensures DataUpTo(records, token, name, typ, 0) == []
  {
  }

  lemma InStore(records: Records, token: string, name: string, order: seq<RecordKey>, i: nat)
    requires InOrder(order, AllOf(records, token, name)) && i < |order|
    ensures order[i] in records
  {
    assert order[i] in order;
  }

  lemma DataUpToGrows(records: Records, token: string, name: string, typ: nat, n: nat)
    requires RecordKey(token, name, typ, n) in records
    ensures DataUpTo(records, token, name, typ, n + 1)
         == DataUpTo(records, token, name, typ, n) + [records[RecordKey(token, name, typ, n)]]
  {
  }

  lemma DataIs(records: Records, token: string, name: string, typ: nat)
    ensures Data(records, token, name, typ) == DataUpTo(records, token, name, typ, |Group(records, token, name, typ)|)
  {
  }

  /** Alias after the first c alias records. */
  function Latest(records: Records, token: string, name: string, c: nat): string {
    if c == 0 || RecordKey(token, name, CNAME, c - 1) !in records then "" else records[RecordKey(token, name, CNAME, c - 1)]
  }

  lemma LatestIsAlias(records: Records, token: string, name: string)
    requires Dense(records)
    ensures Latest(records, token, name, |Group(records, token, name, CNAME)|) == Alias(records, token, name)
  {
    DataUpToLists(records, token, name, CNAME, |Group(records, token, name, CNAME)|);
  }

  class Contract {
    var names: Names
    var roots: set<string>
    var balances: map<Owner, int>
    var tokens: set<(Owner, string)>
    var supply: int
    var records: Records

    constructor ()
      ensures Now() == DEPLOYED
    {
      names, roots, balances, tokens, supply, records := map[], {}, map[], {}, 0, map[];
    }

    function Now(): State
      reads this
    {
      State(names, roots, balances, tokens, supply, records)
    }

    /** Rebuilds the parents' names from the root down. */
    method HasParentExpired(first: nat, fragments: seq<string>, now: int) returns (expired: bool)
      requires fragments != []
      ensures expired == ParentExpired(names, fragments, first, now)
    {
      var last := |fragments| - 1;
      var name := fragments[last];
      var i: int := last;
      while i >= first
        invariant -1 <= i <= last
        invariant name == Join(fragments[if i == last then last else i + 1..])
        invariant forall j :: i < j <= last ==> Live(names, Join(fragments[j..]), now)
      {
        if i != last {
          assert fragments[i..][1..] == fragments[i + 1..];
          name := fragments[i] + "." + name;
        }
        assert name == Join(fragments[i..]);
        if name !in names || now >= names[name].expiration {
          return true;
        }
        i := i - 1;
      }
      return false;
    }

    method TokenIDFromName(name: string, now: int) returns (r: Result<string, Error>)
      ensures r == TokenID(names, name, now)
    {
      var split := SafeSplitAndCheck(name);
      if split.None? {
        return Fault(InvalidName);
      }
      var fragments := split.value;
      var sum := 0;
      var l := |fragments| - 1;
      for i := 0 to l
        invariant sum == Offset(fragments, i)
        invariant TokenFrom(names, name, 0, now) == TokenFrom(names, name, i, now)
      {
        SuffixIsCut(name, i);
        if name[sum..] in names && now < names[name[sum..]].expiration {
          return Ok(name[sum..]);
        }
        sum := sum + |fragments[i]| + 1;
      }
      return Ok(name);
    }

    method GetNameState(token: string, fragments: seq<string>, now: int) returns (r: Result<NameState, Error>)
      requires fragments != []
      ensures r == if token !in names then Fault(NotFound)
                   else if !Standing(names, token, fragments, now) then Fault(Expired)
                   else Ok(names[token])
    {
      if token !in names {
        return Fault(NotFound);
      }
      if now >= names[token].expiration {
        return Fault(Expired);
      }
      var expired := HasParentExpired(1, fragments, now);
      return if expired then Fault(Expired) else Ok(names[token]);
    }

    /** Looks through the parent's records for one below the name. */
    method HasConflict(name: string, fragments: seq<string>) returns (found: bool)
      requires fragments == Split(name) && 1 < |fragments|
      ensures found == Conflicts(records, name, fragments)
    {
      SuffixIsCut(name, 1);
      assert Offset(fragments, 1) == |fragments[0]| + 1 by { assert Offset(fragments, 0) == 0; }
      var parent := name[|fragments[0]| + 1..];
      var rest := set k | k in records && k.token == parent;
      while rest != {}
        invariant rest <= set k | k in records && k.token == parent
        invariant forall k :: k in records && k.token == parent && k !in rest ==> !EndsWith(k.name, name)
        decreases |rest|
      {
        var k :| k in rest;
        if EndsWith(k.name, name) {
          return true;
        }
        rest := rest - {k};
      }
      return false;
    }

    method UpdateBalance(tokenId: string, acc: Owner, diff: int)
      modifies this`balances, this`tokens
      ensures Now() == Shift(old(Now()), tokenId, acc, diff)
    {
      var balance := Get(balances, acc);
      balance := balance + diff;
      if balance == 0 {
        balances := balances - {acc};
      } else {
        balances := balances[acc := balance];
      }
      if diff < 0 {
        tokens := tokens - {(acc, tokenId)};
      } else {
        tokens := tokens + {(acc, tokenId)};
      }
    }

    method PutSoaRecord(e: Env, name: string, soa: string) returns (r: Result<bool, Error>)
      modifies this`records
      ensures match StoreSOA(old(Now()), e, name, soa)
              case Fault(error) => r == Fault(error) && Now() == old(Now())
              case Ok(s) => r == Ok(true) && Now() == s
    {
      var token := TokenIDFromName(name, e.now);
      if token.Fault? {
        return Fault(token.error);
      }
      records := records[RecordKey(token.value, name, SOA, 0) := soa];
      return Ok(true);
    }

    /** Last step of every change of records; when it fails the records are back as they were at the start
        of the call. */
    method UpdateSoaSerial(e: Env, token: string, atStart: Records) returns (r: Result<bool, Error>)
      modifies this`records
      ensures match RenewSOA(old(Now()), e, token)
              case Fault(error) => r == Fault(error) && Now() == old(Now()).(records := atStart)
              case Ok(s) => r == Ok(true) && Now() == s
    {
      var k := RecordKey(token, token, SOA, 0);
      if k !in records || e.renewed.None? {
        records := atStart;
        return Fault(NoSOA);
      }
      records := records[k := e.renewed.value];
      return Ok(true);
    }

    method SaveName(e: Env, name: string, owner: Owner, expire: int, soa: string)
      requires WellFormed(name)
      modifies this`names, this`records
      ensures SaveDomain(old(Now()), e, name, owner, expire, soa) == Ok(Now())
    {
      names := names[name := NameState(owner, e.now + expire * MILLISECONDS, None)];
      var _ := PutSoaRecord(e, name, soa);
    }

    method CheckRegistration(e: Env, name: string, owner: Owner) returns (r: Result<bool, Error>)
      ensures r == Registrable(Now(), e, name, owner)
    {
      var split := SafeSplitAndCheck(name);
      if split.None? {
        return Fault(InvalidName);
      }
      var fragments := split.value;
      var l := |fragments|;
      if l == 1 {
        return Fault(TLDDenied);
      }
      if fragments[l - 1] !in roots {
        return Fault(TLDNotFound);
      }
      var expired := HasParentExpired(1, fragments, e.now);
      if expired {
        return Fault(ParentMissing);
      }
      if l > 2 {
        SuffixIsCut(name, 1);
        assert Offset(fragments, 1) == |fragments[0]| + 1 by { assert Offset(fragments, 0) == 0; }
        var parent := name[|fragments[0]| + 1..];
        assert Live(names, parent, e.now);
        if !IsAdmin(names[parent], e) {
          return Fault(NotAdmin);
        }
      }
      var conflict := HasConflict(name, fragments);
      if conflict {
        return Fault(Conflict);
      }
      if |owner| != HASH160_LEN {
        return Fault(InvalidOwner);
      }
      return if owner in e.signers then Ok(true) else Fault(NotSigned);
    }

    method Register(e: Env, name: string, owner: Owner, expire: int, soa: string) returns (r: Result<bool, Error>)
      modifies this
      ensures Obeys(old(Now()), e, Operation.Register(name, owner, expire, soa), Now(), r)
    {
      hide ParentExpired, Conflicts, IsAdmin, Shift, StoreSOA;
      r := CheckRegistration(e, name, owner);
      if r.Fault? {
        return;
      }
      if name in names {
        if e.now < names[name].expiration {
          return Ok(false);
        }
        UpdateBalance(name, names[name].owner, -1);
      } else {
        supply := supply + 1;
      }
      SaveName(e, name, owner, expire, soa);
      UpdateBalance(name, owner, 1);
      return Ok(true);
    }

    method RegisterTLD(e: Env, name: string, expire: int, soa: string) returns (r: Result<bool, Error>)
      modifies this
      ensures Obeys(old(Now()), e, Operation.RegisterTLD(name, expire, soa), Now(), r)
    {
      if !e.committee {
        return Fault(NotCommittee);
      }
      var split := SafeSplitAndCheck(name);
      if split.None? {
        return Fault(InvalidName);
      }
      var fragments := split.value;
      if |fragments| != 1 {
        return Fault(NotTLD);
      }
      if name in roots {
        var expired := HasParentExpired(0, fragments, e.now);
        if !expired {
          return Fault(TLDExists);
        }
      }
      roots := roots + {name};
      SaveName(e, name, [], expire, soa);
      return Ok(true);
    }

    method Transfer(e: Env, to: Owner, name: string) returns (r: Result<bool, Error>)
      modifies this
      ensures Obeys(old(Now()), e, Operation.Transfer(to, name), Now(), r)
    {
      if |to| != HASH160_LEN {
        return Fault(InvalidOwner);
      }
      if |Split(name)| == 1 || name !in names {
        return Fault(NotFound);
      }
      var ns := names[name];
      if e.now >= ns.expiration {
        return Fault(Expired);
      }
      var from := ns.owner;
      if from !in e.signers {
        return Ok(false);
      }
      if from != to {
        names := names[name := ns.(owner := to, admin := None)];
        UpdateBalance(name, from, -1);
        UpdateBalance(name, to, 1);
      }
      return Ok(true);
    }

    method Renew(e: Env, name: string, years: int) returns (r: Result<bool, Error>)
      modifies this`names
      ensures Obeys(old(Now()), e, Operation.Renew(name, years), Now(), r)
    {
      if years < 1 || years > 10 {
        return Fault(InvalidYears);
      }
      if |name| > MAX_NAME_LENGTH {
        return Fault(InvalidName);
      }
      var found := GetNameState(name, Split(name), e.now);
      if found.Fault? {
        return Fault(found.error);
      }
      var ns := found.value;
      if !IsAdmin(ns, e) {
        return Fault(NotAdmin);
      }
      ns := ns.(expiration := ns.expiration + YEAR * years);
      var split := SafeSplitAndCheck(name);
      if split.None? {
        return Fault(InvalidName);
      }
      if |split.value| > 1 && ns.expiration > e.now + 10 * YEAR {
        return Fault(TooFar);
      }
      names := names[name := ns];
      return Ok(true);
    }

    method SetAdmin(e: Env, name: string, admin: Option<Owner>) returns (r: Result<bool, Error>)
      modifies this`names
      ensures Obeys(old(Now()), e, Operation.SetAdmin(name, admin), Now(), r)
    {
      if |name| > MAX_NAME_LENGTH {
        return Fault(InvalidName);
      }
      var fragments := Split(name);
      if |fragments| == 1 {
        return Fault(NotFound);
      }
      if admin.Some? && admin.value !in e.signers {
        return Fault(NotAdmin);
      }
      var found := GetNameState(name, fragments, e.now);
      if found.Fault? {
        return Fault(found.error);
      }
      var ns := found.value;
      if ns.owner !in e.signers {
        return Fault(NotSigned);
      }
      names := names[name := ns.(admin := admin)];
      return Ok(true);
    }

    method UpdateSOA(e: Env, name: string, soa: string) returns (r: Result<bool, Error>)
      modifies this`records
      ensures Obeys(old(Now()), e, Operation.UpdateSOA(name, soa), Now(), r)
    {
      if |name| > MAX_NAME_LENGTH {
        return Fault(InvalidName);
      }
      var found := GetNameState(name, Split(name), e.now);
      if found.Fault? {
        return Fault(found.error);
      }
      if !IsAdmin(found.value, e) {
        return Fault(NotAdmin);
      }
      r := PutSoaRecord(e, name, soa);
    }

    method CheckAuthorized(e: Env, token: string) returns (r: Result<string, Error>)
      ensures r == Authorized(Now(), e, token)
    {
      var fragments := Split(token);
      if |fragments| == 1 {
        return Fault(NotFound);
      }
      var found := GetNameState(token, fragments, e.now);
      if found.Fault? {
        return Fault(found.error);
      }
      return if IsAdmin(found.value, e) then Ok(token) else Fault(NotAdmin);
    }

    method CheckRecordData(e: Env, name: string, typ: nat, data: string) returns (r: Result<string, Error>)
      ensures r == CheckRecord(Now(), e, name, typ, data)
    {
      r := TokenIDFromName(name, e.now);
      if r.Fault? {
        return;
      }
      var ok;
      if typ == A || typ == AAAA {
        ok := e.addressOk;
      } else if typ == CNAME {
        var split := SafeSplitAndCheck(data);
        ok := split.Some?;
      } else if typ == TXT {
        ok := |data| <= MAX_TXT_RECORD_LENGTH;
      } else if typ == NEO {
        ok := |data| == HASH160_LEN;
      } else {
        return Fault(UnsupportedType);
      }
      if !ok {
        return Fault(InvalidData);
      }
      r := CheckAuthorized(e, r.value);
    }

    /** Counts the records of a type, unless one holds the data already. */
    method CountRecords(token: string, name: string, typ: nat, data: string) returns (id: nat, known: bool)
      ensures known == (exists k :: k in Group(records, token, name, typ) && records[k] == data)
      ensures !known ==> id == |Group(records, token, name, typ)|
    {
      id, known := 0, false;
      var group := Group(records, token, name, typ);
      var rest := group;
      while rest != {}
        invariant rest <= group && id == |group - rest|
        invariant forall k :: k in group && k !in rest ==> records[k] != data
        decreases |rest|
      {
        var k :| k in rest;
        if records[k] == data {
          return id, true;
        }
        assert group - (rest - {k}) == (group - rest) + {k};
        rest := rest - {k};
        id := id + 1;
      }
      assert group - {} == group;
    }

    method AddRecord(e: Env, name: string, typ: nat, data: string) returns (r: Result<bool, Error>)
      modifies this`records
      ensures Obeys(old(Now()), e, Operation.AddRecord(name, typ, data), Now(), r)
    {
      hide CheckRecord, RenewSOA, Group;
      if typ == NEO {
        return Fault(UnsupportedType);
      }
      var token := CheckRecordData(e, name, typ, data);
      if token.Fault? {
        return Fault(token.error);
      }
      var id, known := CountRecords(token.value, name, typ, data);
      if known {
        return Fault(RecordExists);
      }
      if id > MAX_RECORD_ID {
        return Fault(TooManyRecords);
      }
      if typ == CNAME && id != 0 {
        return Fault(SecondCNAME);
      }
      var atStart := records;
      records := records[RecordKey(token.value, name, typ, id) := data];
      r := UpdateSoaSerial(e, token.value, atStart);
    }

    method SetRecord(e: Env, name: string, typ: nat, id: nat, data: string) returns (r: Result<bool, Error>)
      modifies this`records
      ensures Obeys(old(Now()), e, Operation.SetRecord(name, typ, id, data), Now(), r)
    {
      hide CheckRecord, RenewSOA;
      if typ == NEO {
        return Fault(UnsupportedType);
      }
      var token := CheckRecordData(e, name, typ, data);
      if token.Fault? {
        return Fault(token.error);
      }
      var k := RecordKey(token.value, name, typ, id);
      if k !in records {
        return Fault(InvalidId);
      }
      var atStart := records;
      records := records[k := data];
      r := UpdateSoaSerial(e, token.value, atStart);
    }

    method DeleteGroup(token: string, name: string, typ: nat)
      modifies this`records
      ensures records == old(records) - Group(old(records), token, name, typ)
    {
      ghost var before := records;
      var group := Group(records, token, name, typ);
      var rest := group;
      assert before - {} == before && group - group == {};
      while rest != {}
        invariant rest <= group && records == before - (group - rest)
        decreases |rest|
      {
        var k :| k in rest;
        assert group - (rest - {k}) == (group - rest) + {k};
        assert before - (group - rest) - {k} == before - ((group - rest) + {k});
        records := records - {k};
        rest := rest - {k};
      }
      assert group - {} == group;
    }

    method DeleteRecords(e: Env, name: string, typ: nat) returns (r: Result<bool, Error>)
      modifies this`records
      ensures Obeys(old(Now()), e, Operation.DeleteRecords(name, typ), Now(), r)
    {
      hide Authorized, RenewSOA, Group, TokenID;
      if typ == SOA {
        return Fault(SOAProtected);
      }
      var token := TokenIDFromName(name, e.now);
      if token.Ok? {
        token := CheckAuthorized(e, token.value);
      }
      if token.Fault? {
        return Fault(token.error);
      }
      var atStart := records;
      DeleteGroup(token.value, name, typ);
      r := UpdateSoaSerial(e, token.value, atStart);
    }

    // ---- reading ----

    /** Data of one type appended to a result, and the alias, in one pass over the name's records. */
    method ReadAll(res: seq<string>, token: string, name: string, typ: nat) returns (found: seq<string>, cname: string)
      requires Dense(records)
      ensures found == res + Data(records, token, name, typ)
      ensures cname == Alias(records, token, name)
    {
      hide Dense, Group, InOrder, AllOf, Data, DataUpTo, Passed, Alias;
      found, cname := res, "";
      var order := FindKeys(records, token, name);
      ghost var n: nat, c: nat := 0, 0;
      StartsEmpty(records, token, name, typ, order);
      StartsEmpty(records, token, name, CNAME, order);
      assert res + [] == res;
      for i := 0 to |order|
        invariant Passed(records, token, name, typ, order, i, n) && found == res + DataUpTo(records, token, name, typ, n)
        invariant Passed(records, token, name, CNAME, order, i, c) && cname == Latest(records, token, name, c)
      {
        InStore(records, token, name, order, i);
        PassedGrows(records, token, name, typ, order, i, n);
        PassedGrows(records, token, name, CNAME, order, i, c);
        var k := order[i];
        if k.typ == typ {
          DataUpToGrows(records, token, name, typ, n);
          found := found + [records[k]];
          n := n + 1;
        }
        if k.typ == CNAME {
          cname := records[k];
          c := c + 1;
        }
      }
      PassedAll(records, token, name, typ, order, n);
      PassedAll(records, token, name, CNAME, order, c);
      LatestIsAlias(records, token, name);
      DataIs(records, token, name, typ);
    }

    method ResolveFrom(now: int, res: seq<string>, name: string, typ: nat, redirect: int) returns (r: Result<seq<string>, Error>)
      requires Dense(records)
      ensures r == Resolve(Now(), now, res, name, typ, redirect)
      decreases redirect + 1
    {
      if redirect < 0 {
        return Fault(InvalidRedirect);
      }
      if |name| == 0 {
        return Fault(InvalidName);
      }
      var plain := name;
      if name[|name| - 1] == '.' {
        plain := name[..|name| - 1];
      }
      var token := TokenIDFromName(plain, now);
      if token.Fault? {
        return Fault(token.error);
      }
      var state := GetNameState(token.value, Split(token.value), now);
      if state.Fault? {
        return Fault(state.error);
      }
      var found, cname := ReadAll(res, token.value, plain, typ);
      if cname == "" || typ == CNAME {
        return Ok(found);
      }
      r := ResolveFrom(now, found, cname, typ, redirect - 1);
    }

    method ResolveRecords(now: int, name: string, typ: nat) returns (r: Result<seq<string>, Error>)
      requires Dense(records)
      ensures r == ResolveName(Now(), now, name, typ)
    {
      if |Split(name)| == 1 {
        return Fault(NotFound);
      }
      if typ == NEO {
        return Fault(UnsupportedType);
      }
      r := ResolveFrom(now, [], name, typ, REDIRECTS);
    }

    method ReadRecords(now: int, name: string, typ: nat) returns (r: Result<seq<string>, Error>)
      requires Dense(records)
      ensures r == GetRecords(Now(), now, name, typ)
    {
      var fragments := Split(name);
      if |fragments| == 1 {
        return Fault(NotFound);
      }
      if typ == NEO {
        return Fault(UnsupportedType);
      }
      var token := TokenIDFromName(name, now);
      if token.Fault? {
        return Fault(token.error);
      }
      var state := GetNameState(token.value, fragments, now);
      if state.Fault? {
        return Fault(state.error);
      }
      var found, _ := ReadAll([], token.value, name, typ);
      assert found == Data(records, token.value, name, typ);
      return Ok(found);
    }
  }
}
