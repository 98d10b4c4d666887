/** The container serializer `toBytes` (contracts/container/contract.go): it computes the length
    of the protobuf message first and then fills a buffer of exactly that length. Container ids
    are hashes of its output, so two different containers must never serialize alike. */
module InfoCodec {
  import opened Storage
  import opened Varint

  type Bytes = seq<Byte>

  const HASH160_LEN := 20
  const ADDRESS_LEN := 25
  const MAX_INT := 0x7FFF_FFFF_FFFF_FFFF

  datatype Attribute = Attribute(key: Bytes, value: Bytes)

  datatype Info = Info(major: nat, minor: nat, owner: Bytes, nonce: Bytes, basicACL: nat,
                       attributes: seq<Attribute>, storagePolicy: Bytes)
  {
    /** What the field types of the source admit. */
    predicate Typed() {
      && major <= MAX_UINT32 && minor <= MAX_UINT32 && basicACL <= MAX_UINT32
      && |owner| == HASH160_LEN
    }
  }

  /** What the chain contributes to an address: its version byte and SHA-256, of which only the
      length of a digest matters here. */
  datatype Chain = Chain(addressVersion: Byte, sha256: Bytes -> Bytes)

  ghost predicate IsChain(c: Chain) {
    forall bs :: |c.sha256(bs)| == 32
  }

  /** Version byte, script hash and the first four bytes of the double digest. */
  function ScriptHashToAddress(c: Chain, h: Bytes): (a: Bytes)
    requires IsChain(c) && |h| == HASH160_LEN
    ensures |a| == ADDRESS_LEN
    ensures a[1..1 + HASH160_LEN] == h
  {
    var body := [c.addressVersion] + h;
    body + c.sha256(c.sha256(body))[..4]
  }

  /** A checked address: the chain's version, a script hash, and the first four bytes of the double digest
      of both. */
  ghost predicate IsAddress(c: Chain, a: Bytes)
    requires IsChain(c)
  {
    && |a| == ADDRESS_LEN && a[0] == c.addressVersion
    && a[1 + HASH160_LEN..] == c.sha256(c.sha256(a[..1 + HASH160_LEN]))[..4]
  }

  /** Checked addresses are exactly those made of script hashes, one for each. */
  lemma AddressIff(c: Chain, a: Bytes, h: Bytes)
    requires IsChain(c) && |h| == HASH160_LEN
    ensures a == ScriptHashToAddress(c, h) <==> IsAddress(c, a) && a[1..1 + HASH160_LEN] == h
  {
    var body := [c.addressVersion] + h;
    var made := ScriptHashToAddress(c, h);
    assert made[..1 + HASH160_LEN] == body && made[1 + HASH160_LEN..] == c.sha256(c.sha256(body))[..4];
    if IsAddress(c, a) && a[1..1 + HASH160_LEN] == h {
      assert a[..1 + HASH160_LEN] == body;
      assert a == a[..1 + HASH160_LEN] + a[1 + HASH160_LEN..];
    }
  }

  // ---- the message format, field by field ----

  const API_VERSION := 1
  const OWNER := 2
  const NONCE := 3
  const BASIC_ACL := 4
  const ATTRIBUTE := 5
  const POLICY := 6

  function Header(num: nat, len: nat): Bytes {
    Encode(EncodeTag(num, LEN)) + Encode(len)
  }

  /** A length-delimited field. */
  function LenField(num: nat, payload: Bytes): Bytes {
    Header(num, |payload|) + payload
  }

  /** A scalar field; proto3 leaves out the default value. */
  function UintField(num: nat, v: nat): Bytes {
    if v == 0 then [] else Encode(EncodeTag(num, VARINT)) + Encode(v)
  }

  /** A byte-string field that is left out when empty. */
  function OptField(num: nat, payload: Bytes): Bytes {
    if payload == [] then [] else LenField(num, payload)
  }

  function VersionBytes(i: Info): Bytes {
    UintField(1, i.major) + UintField(2, i.minor)
  }

  function AttributeBytes(a: Attribute): Bytes {
    OptField(1, a.key) + OptField(2, a.value)
  }

  function AttributesBytes(s: seq<Attribute>): Bytes {
    if s == [] then [] else LenField(ATTRIBUTE, AttributeBytes(s[0])) + AttributesBytes(s[1..])
  }

  function InfoBytes(c: Chain, i: Info): Bytes
    requires IsChain(c) && i.Typed()
  {
    LenField(API_VERSION, VersionBytes(i))
    + (LenField(OWNER, LenField(1, ScriptHashToAddress(c, i.owner)))
       + (LenField(NONCE, i.nonce)
          + (UintField(BASIC_ACL, i.basicACL)
             + (AttributesBytes(i.attributes) + LenField(POLICY, i.storagePolicy)))))
  }

  // ---- the decoder ----

  datatype Field = Field(payload: Bytes, rest: Bytes) | BadField

  predicate StartsWith(bs: Bytes, num: nat, typ: nat) {
    var t := ReadTag(bs);
    t.Tag? && 0 < t.size <= |bs| && t.num == num && t.typ == typ
  }

  function ParseLen(bs: Bytes, num: nat): Field {
    if !StartsWith(bs, num, LEN) then BadField else
      var body := bs[ReadTag(bs).size..];
      match ReadSizeLEN(body)
      case BadSize => BadField
      case Sized(n, r) => if |body| < r + n then BadField else Field(body[r..r + n], body[r + n..])
  }

  function ParseOpt(bs: Bytes, num: nat): Field {
    if StartsWith(bs, num, LEN) then ParseLen(bs, num) else Field([], bs)
  }

  /** Value of an optional scalar field and the bytes after it. */
  function ParseUint(bs: Bytes, num: nat): Option<(nat, Bytes)> {
    if !StartsWith(bs, num, VARINT) then Some((0, bs)) else
      var body := bs[ReadTag(bs).size..];
      match ReadUint32(body)
      case BadSize => None
      case Sized(v, r) => if |body| < r then None else Some((v, body[r..]))
  }

  function ParseAttribute(bs: Bytes): Option<Attribute> {
    var key := ParseOpt(bs, 1);
    if key.BadField? then None else
      var value := ParseOpt(key.rest, 2);
      if value.BadField? || value.rest != [] then None else Some(Attribute(key.payload, value.payload))
  }

  function ParseAttributes(bs: Bytes): Option<(seq<Attribute>, Bytes)>
    decreases |bs|
  {
    if !StartsWith(bs, ATTRIBUTE, LEN) then Some(([], bs)) else
      var f := ParseLen(bs, ATTRIBUTE);
      if f.BadField? then None else
        var a, more := ParseAttribute(f.payload), ParseAttributes(f.rest);
        if a.None? || more.None? then None else Some(([a.value] + more.value.0, more.value.1))
  }

  /** Major and minor version. */
  function ParseVersion(bs: Bytes): Option<(nat, nat)> {
    var major := ParseUint(bs, 1);
    if major.None? then None else
      var minor := ParseUint(major.value.1, 2);
      if minor.None? then None else Some((major.value.0, minor.value.0))
  }

  /** The script hash inside an owner address. */
  function ParseOwner(bs: Bytes): Option<Bytes> {
    var address := ParseLen(bs, 1);
    if address.BadField? || |address.payload| != ADDRESS_LEN then None
    else Some(address.payload[1..1 + HASH160_LEN])
  }

  /** The fields from the basic ACL on. */
  function ParseTail(bs: Bytes): Option<(nat, seq<Attribute>, Bytes)> {
    var acl := ParseUint(bs, BASIC_ACL);
    if acl.None? then None else
      var attributes := ParseAttributes(acl.value.1);
      if attributes.None? then None else
        var policy := ParseLen(attributes.value.1, POLICY);
        if policy.BadField? || policy.rest != [] then None else
          Some((acl.value.0, attributes.value.0, policy.payload))
  }

  function ParseInfo(bs: Bytes): Option<Info> {
    var version := ParseLen(bs, API_VERSION);
    if version.BadField? then None else
      var owner := ParseLen(version.rest, OWNER);
      if owner.BadField? then None else
        var nonce := ParseLen(owner.rest, NONCE);
        if nonce.BadField? then None else
          match (ParseVersion(version.payload), ParseOwner(owner.payload), ParseTail(nonce.rest))
          case (Some(v), Some(h), Some(t)) => Some(Info(v.0, v.1, h, nonce.payload, t.0, t.1, t.2))
          case _ => None
  }

  // ---- decoding inverts encoding ----

  lemma ParseLenParts(num: nat, tag: Bytes, len: Bytes, payload: Bytes, rest: Bytes)
    requires tag != []
    requires ReadTag(tag + (len + (payload + rest))) == Tag(num, LEN, |tag|)
    requires ReadSizeLEN(len + (payload + rest)) == Sized(|payload|, |len|)
    ensures StartsWith(tag + (len + (payload + rest)), num, LEN)
    ensures ParseLen(tag + (len + (payload + rest)), num) == Field(payload, rest)
  {
    var body := len + (payload + rest);
    assert (tag + body)[|tag|..] == body;
    assert body[|len|..|len| + |payload|] == payload && body[|len| + |payload|..] == rest;
  }

  lemma ParseLenInverts(num: nat, payload: Bytes, rest: Bytes)
    requires 1 <= num <= MAX_FIELD_NUMBER && |payload| <= MAX_INT
    ensures StartsWith(LenField(num, payload) + rest, num, LEN)
    ensures ParseLen(LenField(num, payload) + rest, num) == Field(payload, rest)
  {
    var tag, len := Encode(EncodeTag(num, LEN)), Encode(|payload|);
    assert LenField(num, payload) + rest == tag + (len + (payload + rest));
    ReadTagInverts(num, LEN, len + (payload + rest));
    ReadSizeInverts(|payload|, payload + rest);
    ParseLenParts(num, tag, len, payload, rest);
  }

  lemma ParseUintInverts(num: nat, v: nat, rest: Bytes)
    requires 1 <= num <= MAX_FIELD_NUMBER && v <= MAX_UINT32
    requires !StartsWith(rest, num, VARINT)
    ensures ParseUint(UintField(num, v) + rest, num) == Some((v, rest))
  {
    if v == 0 {
      assert UintField(num, v) + rest == rest;
    } else {
      var tag := Encode(EncodeTag(num, VARINT));
      var bs := UintField(num, v) + rest;
      assert bs == tag + (Encode(v) + rest);
      ReadTagInverts(num, VARINT, Encode(v) + rest);
      assert bs[|tag|..] == Encode(v) + rest;
      ReadUint32Inverts(v, rest);
      assert (Encode(v) + rest)[|Encode(v)|..] == rest;
    }
  }

  lemma ParseOptInverts(num: nat, payload: Bytes, rest: Bytes)
    requires 1 <= num <= MAX_FIELD_NUMBER && |payload| <= MAX_INT
    requires !StartsWith(rest, num, LEN)
    ensures ParseOpt(OptField(num, payload) + rest, num) == Field(payload, rest)
  {
    if payload == [] {
      assert OptField(num, payload) + rest == rest;
    } else {
      ParseLenInverts(num, payload, rest);
    }
  }

  /** What follows an optional scalar begins with another field number, or not at all. */
  lemma UintFieldStart(num: nat, v: nat, other: nat, typ: nat)
    requires 1 <= num <= MAX_FIELD_NUMBER && num != other
    ensures !StartsWith(UintField(num, v), other, typ)
  {
    if v != 0 {
      ReadTagInverts(num, VARINT, Encode(v));
    }
  }

  lemma OptFieldStart(num: nat, payload: Bytes, other: nat, typ: nat)
    requires 1 <= num <= MAX_FIELD_NUMBER && num != other && |payload| <= MAX_INT
    ensures !StartsWith(OptField(num, payload), other, typ)
  {
    if payload != [] {
      ParseLenInverts(num, payload, []);
      assert LenField(num, payload) + [] == LenField(num, payload);
    }
  }

  lemma ParseAttributeInverts(a: Attribute)
    requires |a.key| <= MAX_INT && |a.value| <= MAX_INT
    ensures ParseAttribute(AttributeBytes(a)) == Some(a)
  {
    OptFieldStart(2, a.value, 1, LEN);
    ParseOptInverts(1, a.key, OptField(2, a.value));
    ParseOptInverts(2, a.value, []);
    assert OptField(2, a.value) + [] == OptField(2, a.value);
  }

  predicate AttributesFit(s: seq<Attribute>) {
    forall a :: a in s ==> |a.key| <= MAX_INT && |a.value| <= MAX_INT && |AttributeBytes(a)| <= MAX_INT
  }

  lemma ParseAttributesSteps(bs: Bytes, a: Attribute, nested: Bytes, more: Bytes, tail: seq<Attribute>, rest: Bytes)
    requires StartsWith(bs, ATTRIBUTE, LEN) && ParseLen(bs, ATTRIBUTE) == Field(nested, more)
    requires ParseAttribute(nested) == Some(a) && ParseAttributes(more) == Some((tail, rest))
    ensures ParseAttributes(bs) == Some(([a] + tail, rest))
  {
  }

  lemma ParseAttributesStops(rest: Bytes)
    requires !StartsWith(rest, ATTRIBUTE, LEN)
    ensures ParseAttributes(AttributesBytes([]) + rest) == Some(([], rest))
  {
    assert AttributesBytes([]) + rest == rest;
  }

  lemma AttributesBytesSplit(s: seq<Attribute>, rest: Bytes)
    requires s != []
    ensures AttributesBytes(s) + rest == LenField(ATTRIBUTE, AttributeBytes(s[0])) + (AttributesBytes(s[1..]) + rest)
  {
    hide LenField, AttributeBytes;
  }

  lemma {:induction false} ParseAttributesInverts(s: seq<Attribute>, rest: Bytes)
    requires AttributesFit(s)
    requires !StartsWith(rest, ATTRIBUTE, LEN)
    ensures ParseAttributes(AttributesBytes(s) + rest) == Some((s, rest))
  {
    hide LenField, AttributeBytes, AttributesBytes, AttributesFit, StartsWith, ParseLen, ParseAttribute, ParseAttributes;
    if s == [] {
      ParseAttributesStops(rest);
    } else {
      var nested, more := AttributeBytes(s[0]), AttributesBytes(s[1..]) + rest;
      FitsFirst(s);
      AttributesBytesSplit(s, rest);
      ParseLenInverts(ATTRIBUTE, nested, more);
      ParseAttributeInverts(s[0]);
      ParseAttributesInverts(s[1..], rest);
      ParseAttributesSteps(LenField(ATTRIBUTE, nested) + more, s[0], nested, more, s[1..], rest);
      assert s == [s[0]] + s[1..];
    }
  }

  lemma FitsFirst(s: seq<Attribute>)
    requires AttributesFit(s) && s != []
    ensures |s[0].key| <= MAX_INT && |s[0].value| <= MAX_INT && |AttributeBytes(s[0])| <= MAX_INT
    ensures AttributesFit(s[1..])
  {
    assert s[0] in s;
  }

  lemma {:induction false} AttributesWithin(s: seq<Attribute>, limit: nat)
    requires |AttributesBytes(s)| <= limit
    ensures forall a :: a in s ==> |a.key| <= limit && |a.value| <= limit && |AttributeBytes(a)| <= limit
  {
    if s != [] {
      AttributesWithin(s[1..], limit);
    }
  }

  lemma ParseVersionInverts(i: Info)
    requires i.Typed()
    ensures ParseVersion(VersionBytes(i)) == Some((i.major, i.minor))
  {
    UintFieldStart(2, i.minor, 1, VARINT);
    ParseUintInverts(1, i.major, UintField(2, i.minor));
    ParseUintInverts(2, i.minor, []);
    assert UintField(2, i.minor) + [] == UintField(2, i.minor);
  }

  lemma ParseOwnerInverts(c: Chain, h: Bytes)
    requires IsChain(c) && |h| == HASH160_LEN
    ensures ParseOwner(LenField(1, ScriptHashToAddress(c, h))) == Some(h)
  {
    var field := LenField(1, ScriptHashToAddress(c, h));
    ParseLenInverts(1, ScriptHashToAddress(c, h), []);
    assert field + [] == field;
  }

  lemma ParseTailInverts(acl: nat, attributes: seq<Attribute>, policy: Bytes)
    requires acl <= MAX_UINT32 && AttributesFit(attributes) && |policy| <= MAX_INT
    ensures ParseTail(UintField(BASIC_ACL, acl) + (AttributesBytes(attributes) + LenField(POLICY, policy)))
         == Some((acl, attributes, policy))
  {
    var last := LenField(POLICY, policy);
    ParseLenInverts(POLICY, policy, []);
    assert last + [] == last;
    ParseAttributesInverts(attributes, last);
    AttributesStart(attributes, last);
    ParseUintInverts(BASIC_ACL, acl, AttributesBytes(attributes) + last);
  }

  /** The decoder recovers every container that the serializer can write. */
  lemma ParseInvertsInfoBytes(c: Chain, i: Info)
    requires IsChain(c) && i.Typed() && |InfoBytes(c, i)| <= MAX_INT
    ensures ParseInfo(InfoBytes(c, i)) == Some(i)
  {
    var tail := UintField(BASIC_ACL, i.basicACL) + (AttributesBytes(i.attributes) + LenField(POLICY, i.storagePolicy));
    var nonce := LenField(NONCE, i.nonce) + tail;
    var address := LenField(1, ScriptHashToAddress(c, i.owner));
    AttributesWithin(i.attributes, MAX_INT);
    ParseLenInverts(API_VERSION, VersionBytes(i), LenField(OWNER, address) + nonce);
    ParseLenInverts(OWNER, address, nonce);
    ParseLenInverts(NONCE, i.nonce, tail);
    ParseVersionInverts(i);
    ParseOwnerInverts(c, i.owner);
    ParseTailInverts(i.basicACL, i.attributes, i.storagePolicy);
  }

  lemma AttributesStart(s: seq<Attribute>, rest: Bytes)
    requires AttributesFit(s)
    requires !StartsWith(rest, BASIC_ACL, VARINT)
    ensures !StartsWith(AttributesBytes(s) + rest, BASIC_ACL, VARINT)
  {
    if s == [] {
      assert AttributesBytes(s) + rest == rest;
    } else {
      hide LenField, AttributeBytes, ReadTag, AttributesBytes, ParseLen;
      AttributesBytesSplit(s, rest);
      FitsFirst(s);
      ParseLenInverts(ATTRIBUTE, AttributeBytes(s[0]), AttributesBytes(s[1..]) + rest);
    }
  }

  /** Different containers serialize to different bytes, so (up to hash collisions) have different ids. */
  lemma InfoBytesInjective(c: Chain, i: Info, j: Info)
    requires IsChain(c) && i.Typed() && j.Typed()
    requires |InfoBytes(c, i)| <= MAX_INT
    ensures InfoBytes(c, i) == InfoBytes(c, j) <==> i == j
  {
    ParseInvertsInfoBytes(c, i);
    if InfoBytes(c, i) == InfoBytes(c, j) {
      ParseInvertsInfoBytes(c, j);
    }
  }

  // ---- filling the buffer ----

  method SizeTag(num: nat) returns (n: nat)
    requires Shl(num, 3) <= MAX_UINT64
    ensures forall typ: nat | typ < 8 :: n == |Encode(EncodeTag(num, typ))|
  {
    n := SizeVarint(Shl(num, 3));
    forall typ: nat | typ < 8 {
      SizeTagIgnoresType(num, typ);
    }
  }

  method SizeLEN(ln: nat) returns (n: nat)
    requires ln <= MAX_INT
    ensures n == |Encode(ln)| + ln
  {
    n := SizeVarint(ln);
    n := n + ln;
  }

  /** Size of an optional scalar field. */
  method SizeUint(num: nat, v: nat) returns (n: nat)
    requires Shl(num, 3) <= MAX_UINT64 && v <= MAX_UINT32
    ensures n == |UintField(num, v)|
  {
    n := 0;
    if v != 0 {
      n := SizeTag(num);
      var m := SizeVarint(v);
      n := n + m;
    }
  }

  method SizeOpt(tagLen: nat, num: nat, payload: Bytes) returns (n: nat)
    requires tagLen == |Encode(EncodeTag(num, LEN))| && |payload| <= MAX_INT
    ensures n == |OptField(num, payload)|
  {
    n := 0;
    if payload != [] {
      n := SizeLEN(|payload|);
      n := tagLen + n;
    }
  }

  method Put(b: array<Byte>, off: nat, x: UInt64) returns (next: nat)
    requires off + |Encode(x)| <= b.Length
    modifies b
    ensures next == off + |Encode(x)|
    ensures b[..next] == old(b[..off]) + Encode(x)
  {
    var n := PutUvarint(b, off, x);
    next := off + n;
  }

  method Copy(b: array<Byte>, off: nat, src: Bytes) returns (next: nat)
    requires off + |src| <= b.Length
    modifies b
    ensures next == off + |src|
    ensures b[..next] == old(b[..off]) + src
  {
    forall j | 0 <= j < |src| {
      b[off + j] := src[j];
    }
    next := off + |src|;
  }

  method PutTag(b: array<Byte>, off: nat, num: nat, typ: nat) returns (next: nat)
    requires num <= MAX_FIELD_NUMBER && typ < 8
    requires off + |Encode(EncodeTag(num, typ))| <= b.Length
    modifies b
    ensures next == off + |Encode(EncodeTag(num, typ))|
    ensures b[..next] == old(b[..off]) + Encode(EncodeTag(num, typ))
  {
    TagValue(num, typ);
    next := Put(b, off, EncodeTag(num, typ));
  }

  method PutHeader(b: array<Byte>, off: nat, num: nat, len: nat) returns (next: nat)
    requires num <= MAX_FIELD_NUMBER && len <= MAX_INT
    requires off + |Header(num, len)| <= b.Length
    modifies b
    ensures next == off + |Header(num, len)|
    ensures b[..next] == old(b[..off]) + Header(num, len)
  {
    next := PutTag(b, off, num, LEN);
    next := Put(b, next, len);
  }

  method PutLenField(b: array<Byte>, off: nat, num: nat, payload: Bytes) returns (next: nat)
    requires num <= MAX_FIELD_NUMBER && |payload| <= MAX_INT
    requires off + |LenField(num, payload)| <= b.Length
    modifies b
    ensures next == off + |LenField(num, payload)|
    ensures b[..next] == old(b[..off]) + LenField(num, payload)
  {
    next := PutHeader(b, off, num, |payload|);
    next := Copy(b, next, payload);
  }

  method PutOptField(b: array<Byte>, off: nat, num: nat, payload: Bytes) returns (next: nat)
    requires num <= MAX_FIELD_NUMBER && |payload| <= MAX_INT
    requires off + |OptField(num, payload)| <= b.Length
    modifies b
    ensures next == off + |OptField(num, payload)|
    ensures b[..next] == old(b[..off]) + OptField(num, payload)
  {
    next := off;
    if payload != [] {
      next := PutLenField(b, off, num, payload);
    }
  }

  method PutUintField(b: array<Byte>, off: nat, num: nat, v: nat) returns (next: nat)
    requires num <= MAX_FIELD_NUMBER && v <= MAX_UINT32
    requires off + |UintField(num, v)| <= b.Length
    modifies b
    ensures next == off + |UintField(num, v)|
    ensures b[..next] == old(b[..off]) + UintField(num, v)
  {
    hide Encode, EncodeTag;
    next := off;
    if v != 0 {
      next := PutTag(b, off, num, VARINT);
      next := Put(b, next, v);
    }
  }

  lemma AttributeTagIsOneByte()
    ensures |Encode(EncodeTag(ATTRIBUTE, LEN))| == 1
  {
    TagValue(ATTRIBUTE, LEN);
  }

  /** The nested bytes of the attributes from k on, with the tag and length of each. */
  lemma AttributesSize(s: seq<Attribute>, k: nat)
    requires k < |s|
    ensures |AttributesBytes(s[k..])| == 1 + |Encode(|AttributeBytes(s[k])|)| + |AttributeBytes(s[k])| + |AttributesBytes(s[k + 1..])|
  {
    AttributeTagIsOneByte();
    assert s[k..][0] == s[k] && s[k..][1..] == s[k + 1..];
    hide Encode, EncodeTag, AttributeBytes;
  }

  method AttributeLen(a: Attribute, keyTag: nat, valueTag: nat) returns (n: nat)
    requires |a.key| <= MAX_INT && |a.value| <= MAX_INT
    requires keyTag == |Encode(EncodeTag(1, LEN))| && valueTag == |Encode(EncodeTag(2, LEN))|
    ensures n == |AttributeBytes(a)|
  {
    hide Encode, EncodeTag, OptField;
    n := SizeOpt(keyTag, 1, a.key);
    var value := SizeOpt(valueTag, 2, a.value);
    n := n + value;
  }

  method AttributeTags() returns (keyTag: nat, valueTag: nat)
    ensures keyTag == |Encode(EncodeTag(1, LEN))| && valueTag == |Encode(EncodeTag(2, LEN))|
  {
    keyTag := SizeTag(1);
    valueTag := SizeTag(2);
  }

  /** Lengths of the first nested attributes. */
  ghost predicate AreLens(lens: seq<nat>, s: seq<Attribute>) {
    |lens| <= |s| && forall j :: 0 <= j < |lens| ==> lens[j] == |AttributeBytes(s[j])|
  }

  lemma MoreLens(lens: seq<nat>, s: seq<Attribute>, ln: nat)
    requires AreLens(lens, s) && |lens| < |s| && ln == |AttributeBytes(s[|lens|])|
    ensures AreLens(lens + [ln], s)
  {
  }

  lemma FitsAt(s: seq<Attribute>, k: nat)
    requires AttributesFit(s) && k < |s|
    ensures |s[k].key| <= MAX_INT && |s[k].value| <= MAX_INT && |AttributeBytes(s[k])| <= MAX_INT
  {
    assert s[k] in s;
  }

  /** Length of every nested attribute, and the total without the attribute tags. */
  method AttributeLens(s: seq<Attribute>) returns (lens: seq<nat>, total: nat)
    requires AttributesFit(s)
    ensures |lens| == |s| && AreLens(lens, s)
    ensures total + |s| == |AttributesBytes(s)|
  {
    var keyTag, valueTag := AttributeTags();
    lens, total := [], 0;
    assert s[0..] == s && s[|s|..] == [];
    assert AttributesBytes([]) == [] && AreLens([], s);
    hide Encode, EncodeTag, AttributesBytes, AttributeBytes, AttributesFit, AreLens;
    for k := 0 to |s|
      invariant |lens| == k && AreLens(lens, s)
      invariant total + |AttributesBytes(s[k..])| + k == |AttributesBytes(s)|
    {
      FitsAt(s, k);
      AttributesSize(s, k);
      var ln := AttributeLen(s[k], keyTag, valueTag);
      MoreLens(lens, s, ln);
      lens := lens + [ln];
      var nested := SizeLEN(ln);
      total := total + nested;
    }
  }

  /** Lengths computed before the buffer exists. */
  datatype Lengths = Lengths(version: nat, owner: nat, attributes: seq<nat>, full: nat)

  /** The serialized fields of one container, in order. */
  ghost predicate IsLayout(i: Info, address: Bytes, l: Lengths) {
    && l.version == |VersionBytes(i)|
    && l.owner == |LenField(1, address)|
    && |l.attributes| == |i.attributes| && AreLens(l.attributes, i.attributes)
    && l.full == |LenField(API_VERSION, VersionBytes(i))| + |LenField(OWNER, LenField(1, address))|
                 + |LenField(NONCE, i.nonce)| + |UintField(BASIC_ACL, i.basicACL)|
                 + |AttributesBytes(i.attributes)| + |LenField(POLICY, i.storagePolicy)|
  }

  method SizeField(num: nat, len: nat) returns (n: nat)
    requires Shl(num, 3) <= MAX_UINT64 && len <= MAX_INT
    ensures n == |Header(num, len)| + len
  {
    n := SizeTag(num);
    var m := SizeLEN(len);
    n := n + m;
  }

  method Measure(address: Bytes, i: Info) returns (l: Lengths)
    requires i.Typed() && |address| <= MAX_INT && |i.nonce| <= MAX_INT && |i.storagePolicy| <= MAX_INT
    requires |VersionBytes(i)| <= MAX_INT && |LenField(1, address)| <= MAX_INT
    requires AttributesFit(i.attributes)
    ensures IsLayout(i, address, l)
  {
    hide Encode, EncodeTag;
    var major := SizeUint(1, i.major);
    var minor := SizeUint(2, i.minor);
    var ownerLen := SizeField(1, |address|);
    var version := SizeField(API_VERSION, major + minor);
    var owner := SizeField(OWNER, ownerLen);
    var nonce := SizeField(NONCE, |i.nonce|);
    var attributeTag := SizeTag(ATTRIBUTE);
    AttributeTagIsOneByte();
    var policy := SizeField(POLICY, |i.storagePolicy|);
    var acl := SizeUint(BASIC_ACL, i.basicACL);
    var lens, nested := AttributeLens(i.attributes);
    l := Lengths(major + minor, ownerLen, lens,
                 version + owner + nonce + |i.attributes| * attributeTag + policy + acl + nested);
  }

  method PutVersion(b: array<Byte>, i: Info, len: nat) returns (off: nat)
    requires i.Typed() && len == |VersionBytes(i)| <= MAX_INT
    requires |LenField(API_VERSION, VersionBytes(i))| <= b.Length
    modifies b
    ensures off <= b.Length
    ensures b[..off] == LenField(API_VERSION, VersionBytes(i))
  {
    hide Encode, EncodeTag, UintField, Header;
    off := PutHeader(b, 0, API_VERSION, len);
    off := PutUintField(b, off, 1, i.major);
    off := PutUintField(b, off, 2, i.minor);
  }

  method PutHead(b: array<Byte>, address: Bytes, i: Info, l: Lengths) returns (off: nat)
    requires i.Typed() && IsLayout(i, address, l) && l.full == b.Length <= MAX_INT
    modifies b
    ensures off <= b.Length
    ensures b[..off] == LenField(API_VERSION, VersionBytes(i)) + LenField(OWNER, LenField(1, address))
                        + LenField(NONCE, i.nonce) + UintField(BASIC_ACL, i.basicACL)
  {
    hide Encode, EncodeTag, UintField, Header, VersionBytes;
    off := PutVersion(b, i, l.version);
    ghost var head := b[..off];
    off := PutHeader(b, off, OWNER, l.owner);
    off := PutLenField(b, off, 1, address);
    assert b[..off] == head + LenField(OWNER, LenField(1, address));
    off := PutLenField(b, off, NONCE, i.nonce);
    off := PutUintField(b, off, BASIC_ACL, i.basicACL);
  }

  method PutAttribute(b: array<Byte>, off: nat, a: Attribute, len: nat) returns (next: nat)
    requires AttributesFit([a]) && len == |AttributeBytes(a)|
    requires off + |LenField(ATTRIBUTE, AttributeBytes(a))| <= b.Length
    modifies b
    ensures next == off + |LenField(ATTRIBUTE, AttributeBytes(a))|
    ensures b[..next] == old(b[..off]) + LenField(ATTRIBUTE, AttributeBytes(a))
  {
    hide Encode, EncodeTag;
    assert a in [a];
    next := PutHeader(b, off, ATTRIBUTE, len);
    next := PutOptField(b, next, 1, a.key);
    next := PutOptField(b, next, 2, a.value);
  }

  method PutAttributes(b: array<Byte>, start: nat, s: seq<Attribute>, lens: seq<nat>) returns (off: nat)
    requires AttributesFit(s) && start + |AttributesBytes(s)| <= b.Length
    requires |lens| == |s| && AreLens(lens, s)
    modifies b
    ensures off == start + |AttributesBytes(s)|
    ensures b[..off] == old(b[..start]) + AttributesBytes(s)
  {
    hide Encode, EncodeTag, LenField, AttributeBytes;
    off := start;
    assert s[0..] == s;
    for k := 0 to |s|
      invariant off + |AttributesBytes(s[k..])| == start + |AttributesBytes(s)|
      invariant b[..off] + AttributesBytes(s[k..]) == old(b[..start]) + AttributesBytes(s)
    {
      ghost var head := b[..off];
      assert s[k] in s;
      assert s[k..][0] == s[k] && s[k..][1..] == s[k + 1..];
      off := PutAttribute(b, off, s[k], lens[k]);
      assert b[..off] + AttributesBytes(s[k + 1..]) == head + AttributesBytes(s[k..]);
    }
    assert s[|s|..] == [];
  }

  lemma InfoParts(c: Chain, i: Info)
    requires IsChain(c) && i.Typed() && |InfoBytes(c, i)| <= MAX_INT
    ensures var address := LenField(1, ScriptHashToAddress(c, i.owner));
            && InfoBytes(c, i) == LenField(API_VERSION, VersionBytes(i)) + LenField(OWNER, address)
                 + LenField(NONCE, i.nonce) + UintField(BASIC_ACL, i.basicACL)
                 + AttributesBytes(i.attributes) + LenField(POLICY, i.storagePolicy)
            && |VersionBytes(i)| <= MAX_INT && |address| <= MAX_INT
            && |i.nonce| <= MAX_INT && |i.storagePolicy| <= MAX_INT
    ensures AttributesFit(i.attributes)
  {
    hide Encode, EncodeTag;
    AttributesWithin(i.attributes, MAX_INT);
  }

  /** `toBytes`: the buffer, allocated at its final size, ends up holding exactly the message; each
      write is proved to stay inside it. */
  method ToBytes(c: Chain, i: Info) returns (b: array<Byte>)
    requires IsChain(c) && i.Typed() && |InfoBytes(c, i)| <= MAX_INT
    ensures fresh(b)
    ensures b[..] == InfoBytes(c, i)
  {
    hide Encode, EncodeTag, LenField, UintField, AttributesBytes, VersionBytes, InfoBytes;
    InfoParts(c, i);
    var address := ScriptHashToAddress(c, i.owner);
    var l := Measure(address, i);
    b := new Byte[l.full](_ => 0);
    var off := PutHead(b, address, i, l);
    off := PutAttributes(b, off, i.attributes, l.attributes);
    off := PutPolicy(b, off, i.storagePolicy);
    assert off == b.Length && b[..off] == b[..];
  }

  method PutPolicy(b: array<Byte>, off: nat, policy: Bytes) returns (next: nat)
    requires |policy| <= MAX_INT && off + |LenField(POLICY, policy)| <= b.Length
    modifies b
    ensures next == off + |LenField(POLICY, policy)|
    ensures b[..next] == old(b[..off]) + LenField(POLICY, policy)
  {
    next := PutLenField(b, off, POLICY, policy);
  }
}
