/** The name service contract (contracts/nns/contract.go): registered domains with owners and expiry,
    each account's token index and balance, domain records, and the rules of its entry points. */
module NameService {
  import opened Storage
  import opened Labels

  type Owner = seq<int>

  const HASH160_LEN := 20
  const A := 1
  const CNAME := 5
  const SOA := 6
  const TXT := 16
  const AAAA := 28
  const NEO := 100
  const MAX_RECORD_ID := 15
  const MAX_TXT_RECORD_LENGTH := 255
  const MILLISECONDS := 1000
  const YEAR := 31_536_000_000
  const REDIRECTS := 2

  /** A registered name; the committee owns those with the empty owner. */
  datatype NameState = NameState(owner: Owner, expiration: int, admin: Option<Owner>)

  /** Key of a record: token it is kept under, name it is for, type and id. */
  datatype RecordKey = RecordKey(token: string, name: string, typ: nat, id: nat)

  type Names = map<string, NameState>
  type Records = map<RecordKey, string>

  datatype State = State(names: Names, roots: set<string>, balances: map<Owner, int>, tokens: set<(Owner, string)>,
                         supply: int, records: Records)

  const DEPLOYED := State(map[], {}, map[], {}, 0, map[])

  /** Block time, who signed, whether the committee did, and judgements left to the chain: whether the
      address data of an A or AAAA record is valid, and the SOA data with its serial renewed (none if it
      does not have seven fields). */
  datatype Env = Env(now: int, signers: set<Owner>, committee: bool, addressOk: bool, renewed: Option<string>)

  datatype Error = InvalidName | NotTLD | TLDDenied | TLDNotFound | TLDExists | ParentMissing | NotAdmin | NotCommittee
    | Conflict | InvalidOwner | NotSigned | NotFound | Expired | InvalidData | UnsupportedType | RecordExists
    | TooManyRecords | SecondCNAME | InvalidId | NoSOA | SOAProtected | InvalidRedirect | InvalidYears | TooFar

  datatype Operation =
    | Register(name: string, owner: Owner, expire: int, soa: string)
    | RegisterTLD(name: string, expire: int, soa: string)
    | Transfer(to: Owner, name: string)
    | Renew(name: string, years: int)
    | SetAdmin(name: string, admin: Option<Owner>)
    | UpdateSOA(name: string, soa: string)
    | AddRecord(name: string, typ: nat, data: string)
    | SetRecord(name: string, typ: nat, id: nat, data: string)
    | DeleteRecords(name: string, typ: nat)

  // ---- names ----

  predicate Live(names: Names, name: string, now: int) {
    name in names && now < names[name].expiration
  }

  /** Some name among the suffixes of the labels, from the given label to the root, is missing or expired. */
  predicate ParentExpired(names: Names, labels: seq<string>, first: nat, now: int) {
    exists i :: first <= i < |labels| && !Live(names, Join(labels[i..]), now)
  }

  predicate IsAdmin(ns: NameState, e: Env) {
    if ns.owner == [] then e.committee
    else ns.owner in e.signers || (ns.admin.Some? && ns.admin.value in e.signers)
  }

  /** The first suffix, from the whole name on, that is registered and unexpired, the root left out; the
      name itself if there is none. */
  function TokenFrom(names: Names, name: string, i: nat, now: int): string
    requires i < |Split(name)|
    decreases |Split(name)| - i
  {
    if i == |Split(name)| - 1 then name
    else if Live(names, Suffix(name, i), now) then Suffix(name, i)
    else TokenFrom(names, name, i + 1, now)
  }

  function TokenID(names: Names, name: string, now: int): Result<string, Error> {
    if WellFormed(name) then Ok(TokenFrom(names, name, 0, now)) else Fault(InvalidName)
  }

  /** The name is registered, unexpired, and so are all its parents. */
  predicate Standing(names: Names, token: string, labels: seq<string>, now: int) {
    Live(names, token, now) && !ParentExpired(names, labels, 1, now)
  }

  // ---- registry ----

  /** One token more or less on an account, with its index entry. */
  function Shift(s: State, name: string, acc: Owner, diff: int): State {
    var balance := Get(s.balances, acc) + diff;
    s.(balances := if balance == 0 then s.balances - {acc} else s.balances[acc := balance],
       tokens := if diff < 0 then s.tokens - {(acc, name)} else s.tokens + {(acc, name)})
  }

  function StoreSOA(s: State, e: Env, name: string, soa: string): Result<State, Error> {
    match TokenID(s.names, name, e.now)
    case Fault(error) => Fault(error)
    case Ok(token) => Ok(s.(records := s.records[RecordKey(token, name, SOA, 0) := soa]))
  }

  function SaveDomain(s: State, e: Env, name: string, owner: Owner, expire: int, soa: string): Result<State, Error> {
    StoreSOA(s.(names := s.names[name := NameState(owner, e.now + expire * MILLISECONDS, None)]), e, name, soa)
  }

  /** A record of the parent domain for a name that ends with the given one. */
  ghost predicate Conflicts(records: Records, name: string, labels: seq<string>)
    requires 1 < |labels|
  {
    exists k :: k in records && k.token == Join(labels[1..]) && EndsWith(k.name, name)
  }

  predicate EndsWith(longer: string, name: string) {
    |name| < |longer| && longer[|longer| - |name|..] == name
  }

  /** Whether the caller may register the name, as long as it is free. */
  ghost function Registrable(s: State, e: Env, name: string, owner: Owner): Result<bool, Error> {
    var labels := Split(name);
    if !WellFormed(name) then Fault(InvalidName)
    else if |labels| == 1 then Fault(TLDDenied)
    else if labels[|labels| - 1] !in s.roots then Fault(TLDNotFound)
    else if ParentExpired(s.names, labels, 1, e.now) then Fault(ParentMissing)
    else if 2 < |labels| && !IsAdmin(ParentState(s.names, labels), e) then Fault(NotAdmin)
    else if Conflicts(s.records, name, labels) then Fault(Conflict)
    else if |owner| != HASH160_LEN then Fault(InvalidOwner)
    else if owner !in e.signers then Fault(NotSigned)
    else Ok(true)
  }

  ghost function RegisterName(s: State, e: Env, name: string, owner: Owner, expire: int, soa: string): Result<(State, bool), Error> {
    match Registrable(s, e, name, owner)
    case Fault(error) => Fault(error)
    case Ok(_) =>
      if Live(s.names, name, e.now) then Ok((s, false))
      else
        var freed := if name in s.names then Shift(s, name, s.names[name].owner, -1) else s.(supply := s.supply + 1);
        match SaveDomain(freed, e, name, owner, expire, soa)
        case Fault(error) => Fault(error)
        case Ok(saved) => Ok((Shift(saved, name, owner, 1), true))
  }

  function ParentState(names: Names, labels: seq<string>): NameState {
    if 1 < |labels| && Join(labels[1..]) in names then names[Join(labels[1..])] else NameState([], 0, None)
  }

  function RegisterRoot(s: State, e: Env, name: string, expire: int, soa: string): Result<State, Error> {
    if !e.committee then Fault(NotCommittee)
    else if !WellFormed(name) then Fault(InvalidName)
    else if !IsTLD(name) then Fault(NotTLD)
    else if name in s.roots && !ParentExpired(s.names, Split(name), 0, e.now) then Fault(TLDExists)
    else SaveDomain(s.(roots := s.roots + {name}), e, name, [], expire, soa)
  }

  function TransferName(s: State, e: Env, to: Owner, name: string): Result<(State, bool), Error> {
    if |to| != HASH160_LEN then Fault(InvalidOwner)
    else if IsTLD(name) then Fault(NotFound)
    else if name !in s.names then Fault(NotFound)
    else if !Live(s.names, name, e.now) then Fault(Expired)
    else
      var ns := s.names[name];
      if ns.owner !in e.signers then Ok((s, false))
      else if ns.owner == to then Ok((s, true))
      else
        var t := s.(names := s.names[name := ns.(owner := to, admin := None)]);
        Ok((Shift(Shift(t, name, ns.owner, -1), name, to, 1), true))
  }

  function RenewName(s: State, e: Env, name: string, years: int): Result<State, Error> {
    if years < 1 || 10 < years then Fault(InvalidYears)
    else if MAX_NAME_LENGTH < |name| then Fault(InvalidName)
    else if name !in s.names then Fault(NotFound)
    else if !Live(s.names, name, e.now) then Fault(Expired)
    else if ParentExpired(s.names, Split(name), 1, e.now) then Fault(Expired)
    else
      var ns := s.names[name];
      var expiration := ns.expiration + YEAR * years;
      if !IsAdmin(ns, e) then Fault(NotAdmin)
      else if !WellFormed(name) then Fault(InvalidName)
      else if !IsTLD(name) && e.now + 10 * YEAR < expiration then Fault(TooFar)
      else Ok(s.(names := s.names[name := ns.(expiration := expiration)]))
  }

  function PutAdmin(s: State, e: Env, name: string, admin: Option<Owner>): Result<State, Error> {
    if MAX_NAME_LENGTH < |name| then Fault(InvalidName)
    else if IsTLD(name) then Fault(NotFound)
    else if admin.Some? && admin.value !in e.signers then Fault(NotAdmin)
    else if name !in s.names then Fault(NotFound)
    else if !Live(s.names, name, e.now) then Fault(Expired)
    else if ParentExpired(s.names, Split(name), 1, e.now) then Fault(Expired)
    else if s.names[name].owner !in e.signers then Fault(NotSigned)
    else Ok(s.(names := s.names[name := s.names[name].(admin := admin)]))
  }

  function ReplaceSOA(s: State, e: Env, name: string, soa: string): Result<State, Error> {
    if MAX_NAME_LENGTH < |name| then Fault(InvalidName)
    else if name !in s.names then Fault(NotFound)
    else if !Standing(s.names, name, Split(name), e.now) then Fault(Expired)
    else if !IsAdmin(s.names[name], e) then Fault(NotAdmin)
    else StoreSOA(s, e, name, soa)
  }

  // ---- records ----

  /** Token the record belongs to, once name, data and the caller's right to it are checked. */
  function CheckRecord(s: State, e: Env, name: string, typ: nat, data: string): Result<string, Error> {
    match TokenID(s.names, name, e.now)
    case Fault(error) => Fault(error)
    case Ok(token) =>
      if typ !in {A, CNAME, TXT, AAAA, NEO} then Fault(UnsupportedType)
      else if !ValidData(e, typ, data) then Fault(InvalidData)
      else Authorized(s, e, token)
  }

  predicate ValidData(e: Env, typ: nat, data: string) {
    if typ == CNAME then WellFormed(data)
    else if typ == TXT then |data| <= MAX_TXT_RECORD_LENGTH
    else if typ == NEO then |data| == HASH160_LEN
    else e.addressOk
  }

  function Authorized(s: State, e: Env, token: string): Result<string, Error> {
    if IsTLD(token) || token !in s.names then Fault(NotFound)
    else if !Standing(s.names, token, Split(token), e.now) then Fault(Expired)
    else if !IsAdmin(s.names[token], e) then Fault(NotAdmin)
    else Ok(token)
  }

  function RenewSOA(s: State, e: Env, token: string): Result<State, Error> {
    var k := RecordKey(token, token, SOA, 0);
    if k !in s.records || e.renewed.None? then Fault(NoSOA)
    else Ok(s.(records := s.records[k := e.renewed.value]))
  }

  /** Records of one type for one name. */
  function Group(records: Records, token: string, name: string, typ: nat): set<RecordKey> {
    set k | k in records && k.token == token && k.name == name && k.typ == typ
  }

  function InsertRecord(s: State, e: Env, name: string, typ: nat, data: string): Result<State, Error> {
    if typ == NEO then Fault(UnsupportedType) else
      match CheckRecord(s, e, name, typ, data)
      case Fault(error) => Fault(error)
      case Ok(token) =>
        var group := Group(s.records, token, name, typ);
        if exists k :: k in group && s.records[k] == data then Fault(RecordExists)
        else if MAX_RECORD_ID < |group| then Fault(TooManyRecords)
        else if typ == CNAME && |group| != 0 then Fault(SecondCNAME)
        else RenewSOA(s.(records := s.records[RecordKey(token, name, typ, |group|) := data]), e, token)
  }

  function ReplaceRecord(s: State, e: Env, name: string, typ: nat, id: nat, data: string): Result<State, Error> {
    if typ == NEO then Fault(UnsupportedType) else
      match CheckRecord(s, e, name, typ, data)
      case Fault(error) => Fault(error)
      case Ok(token) =>
        if RecordKey(token, name, typ, id) !in s.records then Fault(InvalidId)
        else RenewSOA(s.(records := s.records[RecordKey(token, name, typ, id) := data]), e, token)
  }

  function RemoveRecords(s: State, e: Env, name: string, typ: nat): Result<State, Error> {
    if typ == SOA then Fault(SOAProtected) else
      match TokenID(s.names, name, e.now)
      case Fault(error) => Fault(error)
      case Ok(id) =>
        match Authorized(s, e, id)
        case Fault(error) => Fault(error)
        case Ok(token) => RenewSOA(s.(records := s.records - Group(s.records, token, name, typ)), e, token)
  }

  function Plain(r: Result<State, Error>): Result<(State, bool), Error> {
    match r
    case Fault(error) => Fault(error)
    case Ok(s) => Ok((s, true))
  }

  ghost function Apply(s: State, e: Env, op: Operation): Result<(State, bool), Error> {
    match op
    case Register(name, owner, expire, soa) => RegisterName(s, e, name, owner, expire, soa)
    case RegisterTLD(name, expire, soa) => Plain(RegisterRoot(s, e, name, expire, soa))
    case Transfer(to, name) => TransferName(s, e, to, name)
    case Renew(name, years) => Plain(RenewName(s, e, name, years))
    case SetAdmin(name, admin) => Plain(PutAdmin(s, e, name, admin))
    case UpdateSOA(name, soa) => Plain(ReplaceSOA(s, e, name, soa))
    case AddRecord(name, typ, data) => Plain(InsertRecord(s, e, name, typ, data))
    case SetRecord(name, typ, id, data) => Plain(ReplaceRecord(s, e, name, typ, id, data))
    case DeleteRecords(name, typ) => Plain(RemoveRecords(s, e, name, typ))
  }

  // ---- resolving ----

  function Trim(name: string): string
    requires name != ""
  {
    if name[|name| - 1] == '.' then name[..|name| - 1] else name
  }

  /** Token whose records are read for a name: it has to be standing. */
  function ReadableToken(s: State, now: int, name: string): Result<string, Error> {
    match TokenID(s.names, name, now)
    case Fault(error) => Fault(error)
    case Ok(token) =>
      if token !in s.names then Fault(NotFound)
      else if !Standing(s.names, token, Split(token), now) then Fault(Expired)
      else Ok(token)
  }

  /** Data of the first n record ids of a type, in order of id. */
  function DataUpTo(records: Records, token: string, name: string, typ: nat, n: nat): seq<string> {
    if n == 0 then [] else
      var k := RecordKey(token, name, typ, n - 1);
      DataUpTo(records, token, name, typ, n - 1) + if k in records then [records[k]] else []
  }

  /** All data of a type, as the iterator yields them; ids are dense from 0. */
  function Data(records: Records, token: string, name: string, typ: nat): seq<string> {
    DataUpTo(records, token, name, typ, |Group(records, token, name, typ)|)
  }

  /** The alias, or nothing. */
  function Alias(records: Records, token: string, name: string): string {
    var data := Data(records, token, name, CNAME);
    if data == [] then "" else data[|data| - 1]
  }

  function Resolve(s: State, now: int, res: seq<string>, name: string, typ: nat, redirect: int): Result<seq<string>, Error>
    decreases redirect + 1
  {
    if redirect < 0 then Fault(InvalidRedirect)
    else if name == "" then Fault(InvalidName)
    else
      match ReadableToken(s, now, Trim(name))
      case Fault(error) => Fault(error)
      case Ok(token) =>
        var found := res + Data(s.records, token, Trim(name), typ);
        var cname := Alias(s.records, token, Trim(name));
        if cname == "" || typ == CNAME then Ok(found)
        else Resolve(s, now, found, cname, typ, redirect - 1)
  }

  function ResolveName(s: State, now: int, name: string, typ: nat): Result<seq<string>, Error> {
    if IsTLD(name) then Fault(NotFound)
    else if typ == NEO then Fault(UnsupportedType)
    else Resolve(s, now, [], name, typ, REDIRECTS)
  }

  /** Reading records directly checks the parents of the name asked for, not those of the token. */
  function GetRecords(s: State, now: int, name: string, typ: nat): Result<seq<string>, Error> {
    if IsTLD(name) then Fault(NotFound)
    else if typ == NEO then Fault(UnsupportedType)
    else match TokenID(s.names, name, now)
      case Fault(error) => Fault(error)
      case Ok(token) =>
        if token !in s.names then Fault(NotFound)
        else if !Standing(s.names, token, Split(name), now) then Fault(Expired)
        else Ok(Data(s.records, token, name, typ))
  }
}
