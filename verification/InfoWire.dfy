/** The container serialization (contracts/container/contract.go) seen through a reader that knows nothing of
    it but the Protocol Buffers encoding: which field numbers and types are on the wire, and what they hold. */
module InfoWire {
  import opened Storage
  import opened Varint
  import opened InfoCodec

  /** A field on the wire: a number (type 0) or length-delimited bytes (type 2). */
  datatype Wire = Number(num: nat, value: nat) | Piece(num: nat, payload: Bytes)

  /** The first field and the bytes after it. A key is eight times the field number plus the type. */
  function First(bs: Bytes): (r: Option<(Wire, Bytes)>)
    ensures r.Some? ==> |r.value.1| < |bs|
  {
    var key := Uvarint(bs);
    if key.Overflow? || key.size == 0 || |bs| <= key.size then None else
      var body := bs[key.size..];
      var n := Uvarint(body);
      if n.Overflow? || n.size == 0 || |body| < n.size then None
      else if key.value % 8 == 0 then Some((Number(key.value / 8, n.value), body[n.size..]))
      else if key.value % 8 == 2 && n.size + n.value <= |body| then
        Some((Piece(key.value / 8, body[n.size..n.size + n.value]), body[n.size + n.value..]))
      else None
  }

  /** The fields of any message made of the two types, in the order written. */
  function Wires(bs: Bytes): Option<seq<Wire>>
    decreases |bs|
  {
    if bs == [] then Some([])
    else if First(bs).None? then None
    else Before(First(bs).value.0, Wires(First(bs).value.1))
  }

  function Before(w: Wire, rest: Option<seq<Wire>>): Option<seq<Wire>> {
    if rest.Some? then Some([w] + rest.value) else None
  }

  lemma BeforeNothing(w: Wire)
    ensures Before(w, Some([])) == Some([w])
  {
    assert [w] + [] == [w];
  }

  /** What the fields of an attribute hold; an empty one is left out. */
  function OfAttribute(a: Attribute): seq<Wire> {
    (if a.key == [] then [] else [Piece(1, a.key)]) + if a.value == [] then [] else [Piece(2, a.value)]
  }

  function OfVersion(i: Info): seq<Wire> {
    (if i.major == 0 then [] else [Number(1, i.major)]) + if i.minor == 0 then [] else [Number(2, i.minor)]
  }

  /** Fields 5, one for each attribute, whose bytes hold the attribute. */
  predicate AreAttributes(ws: seq<Wire>, attributes: seq<Attribute>) {
    |ws| == |attributes|
    && forall j :: 0 <= j < |ws| ==>
         ws[j].Piece? && ws[j].num == 5 && Wires(ws[j].payload) == Some(OfAttribute(attributes[j]))
  }

  lemma KeyRead(num: nat, typ: nat, rest: Bytes)
    requires 1 <= num <= 0x1FFF_FFFF && typ < 8
    ensures Uvarint(Encode(EncodeTag(num, typ)) + rest) == Read(num * 8 + typ, |Encode(EncodeTag(num, typ))|)
  {
    TagValue(num, typ);
    hide EncodeTag, Encode, Uvarint;
    UvarintInvertsEncode(num * 8 + typ, rest);
  }

  lemma PieceAt(num: nat, key: Bytes, len: Bytes, payload: Bytes, rest: Bytes)
    requires key != [] && len != []
    requires Uvarint(key + (len + (payload + rest))) == Read(num * 8 + 2, |key|)
    requires Uvarint(len + (payload + rest)) == Read(|payload|, |len|)
    ensures First(key + (len + (payload + rest))) == Some((Piece(num, payload), rest))
  {
    hide Uvarint;
    var body := len + (payload + rest);
    assert (key + body)[|key|..] == body;
    assert body[|len|..|len| + |payload|] == payload && body[|len| + |payload|..] == rest;
  }

  lemma PieceRead(num: nat, payload: Bytes, rest: Bytes)
    requires 1 <= num <= 0x1FFF_FFFF && |payload| <= MAX_INT
    ensures Wires(LenField(num, payload) + rest) == Before(Piece(num, payload), Wires(rest))
  {
    hide Uvarint, Encode, EncodeTag, First;
    var key, len := Encode(EncodeTag(num, 2)), Encode(|payload|);
    assert LenField(num, payload) + rest == key + (len + (payload + rest));
    KeyRead(num, 2, len + (payload + rest));
    UvarintInvertsEncode(|payload|, payload + rest);
    PieceAt(num, key, len, payload, rest);
  }

  lemma NumberAt(num: nat, key: Bytes, v: nat, value: Bytes, rest: Bytes)
    requires key != [] && value != []
    requires Uvarint(key + (value + rest)) == Read(num * 8, |key|) && Uvarint(value + rest) == Read(v, |value|)
    ensures First(key + (value + rest)) == Some((Number(num, v), rest))
  {
    hide Uvarint;
    var body := value + rest;
    assert (key + body)[|key|..] == body && body[|value|..] == rest;
  }

  lemma NumberRead(num: nat, v: nat, rest: Bytes)
    requires 1 <= num <= 0x1FFF_FFFF && v <= MAX_UINT32
    ensures Wires(UintField(num, v) + rest) == if v == 0 then Wires(rest) else Before(Number(num, v), Wires(rest))
  {
    hide Uvarint, Encode, EncodeTag, First;
    if v == 0 {
      assert UintField(num, v) + rest == rest;
    } else {
      var key, value := Encode(EncodeTag(num, 0)), Encode(v);
      assert UintField(num, v) + rest == key + (value + rest);
      KeyRead(num, 0, value + rest);
      UvarintInvertsEncode(v, rest);
      NumberAt(num, key, v, value, rest);
    }
  }

  lemma NothingRead()
    ensures Wires([]) == Some([])
  {
  }

  lemma AttributeRead(a: Attribute)
    requires |a.key| <= MAX_INT && |a.value| <= MAX_INT
    ensures Wires(AttributeBytes(a)) == Some(OfAttribute(a))
  {
    hide LenField, Wires;
    var second := OptField(2, a.value);
    assert second + [] == second && [] + second == second;
    NothingRead();
    if a.value != [] {
      PieceRead(2, a.value, []);
      BeforeNothing(Piece(2, a.value));
    }
    if a.key != [] {
      PieceRead(1, a.key, second);
      BeforeNothing(Piece(1, a.key));
    }
    var key, value := if a.key == [] then [] else [Piece(1, a.key)], if a.value == [] then [] else [Piece(2, a.value)];
    assert key + [] == key && [] + value == value;
  }

  lemma VersionRead(i: Info)
    requires i.Typed()
    ensures Wires(VersionBytes(i)) == Some(OfVersion(i))
  {
    hide UintField, Wires;
    var minor := UintField(2, i.minor);
    assert minor + [] == minor;
    NothingRead();
    NumberRead(2, i.minor, []);
    NumberRead(1, i.major, minor);
    BeforeNothing(Number(2, i.minor));
    BeforeNothing(Number(1, i.major));
    var one, two := if i.major == 0 then [] else [Number(1, i.major)], if i.minor == 0 then [] else [Number(2, i.minor)];
    assert one + [] == one && [] + two == two;
    assert [] + minor == minor;
  }

  lemma {:induction false} AttributesRead(attributes: seq<Attribute>, rest: Bytes, more: seq<Wire>) returns (ws: seq<Wire>)
    requires AttributesFit(attributes) && Wires(rest) == Some(more)
    ensures AreAttributes(ws, attributes) && Wires(AttributesBytes(attributes) + rest) == Some(ws + more)
  {
    hide LenField, AttributeBytes, Wires;
    if attributes == [] {
      ws := [];
      assert AttributesBytes(attributes) + rest == rest && ws + more == more;
    } else {
      var nested := AttributeBytes(attributes[0]);
      FitsFirst(attributes);
      var tail := AttributesRead(attributes[1..], rest, more);
      AttributeRead(attributes[0]);
      AttributesBytesSplit(attributes, rest);
      PieceRead(5, nested, AttributesBytes(attributes[1..]) + rest);
      ws := [Piece(5, nested)] + tail;
      assert [Piece(5, nested)] + (tail + more) == ws + more;
    }
  }

  /** What is on the wire for any container: the version as field 1, with its numbers as fields 1 and 2; the
      owner as field 2, whose field 1 is the checked address of the script hash; the nonce as field 3; the
      basic ACL as field 4 unless it is zero; each attribute as a field 5, with key and value as fields 1
      and 2; the placement policy as field 6. */
  lemma WireOfInfo(c: Chain, i: Info) returns (version: Bytes, owner: Bytes, address: Bytes, attributes: seq<Wire>)
    requires IsChain(c) && i.Typed() && |InfoBytes(c, i)| <= MAX_INT
    ensures Wires(InfoBytes(c, i))
         == Some([Piece(1, version), Piece(2, owner), Piece(3, i.nonce)]
                 + (if i.basicACL == 0 then [] else [Number(4, i.basicACL)]) + attributes + [Piece(6, i.storagePolicy)])
    ensures Wires(version) == Some(OfVersion(i))
    ensures Wires(owner) == Some([Piece(1, address)]) && IsAddress(c, address) && address[1..21] == i.owner
    ensures AreAttributes(attributes, i.attributes)
  {
    hide LenField, UintField, AttributeBytes, VersionBytes, Wires, ScriptHashToAddress;
    address := ScriptHashToAddress(c, i.owner);
    version, owner := VersionBytes(i), LenField(1, address);
    AddressIff(c, address, i.owner);
    PartsFit(c, i);
    VersionRead(i);
    assert owner + [] == owner;
    PieceRead(1, address, []);
    BeforeNothing(Piece(1, address));
    BeforeNothing(Piece(6, i.storagePolicy));
    AttributesWithin(i.attributes, MAX_INT);
    var policy := LenField(POLICY, i.storagePolicy);
    assert policy + [] == policy;
    NothingRead();
    PieceRead(6, i.storagePolicy, []);
    attributes := AttributesRead(i.attributes, policy, [Piece(6, i.storagePolicy)]);
    var tail := AttributesBytes(i.attributes) + policy;
    NumberRead(4, i.basicACL, tail);
    var acl := UintField(4, i.basicACL) + tail;
    PieceRead(3, i.nonce, acl);
    PieceRead(2, owner, LenField(3, i.nonce) + acl);
    PieceRead(1, version, LenField(2, owner) + (LenField(3, i.nonce) + acl));
    assert LenField(1, version) + (LenField(2, owner) + (LenField(3, i.nonce) + acl)) == InfoBytes(c, i);
    JoinParts(version, owner, i.nonce, if i.basicACL == 0 then [] else [Number(4, i.basicACL)], attributes, i.storagePolicy);
  }

  lemma PartsFit(c: Chain, i: Info)
    requires IsChain(c) && i.Typed() && |InfoBytes(c, i)| <= MAX_INT
    ensures |VersionBytes(i)| <= MAX_INT && |LenField(1, ScriptHashToAddress(c, i.owner))| <= MAX_INT
    ensures |i.nonce| <= MAX_INT && |i.storagePolicy| <= MAX_INT && |AttributesBytes(i.attributes)| <= MAX_INT
  {
    hide Header, VersionBytes, ScriptHashToAddress, AttributesBytes, UintField;
  }

  lemma JoinParts(version: Bytes, owner: Bytes, nonce: Bytes, acl: seq<Wire>, attributes: seq<Wire>, policy: Bytes)
    ensures [] + (attributes + [Piece(6, policy)]) == attributes + [Piece(6, policy)]
    ensures [Piece(1, version)] + ([Piece(2, owner)] + ([Piece(3, nonce)] + (acl + (attributes + [Piece(6, policy)]))))
         == [Piece(1, version), Piece(2, owner), Piece(3, nonce)] + acl + attributes + [Piece(6, policy)]
  {
  }

  // ---- one container, byte by byte ----

  lemma SmallField(num: nat, payload: Bytes)
    requires 1 <= num < 16 && |payload| < 0x80
    ensures LenField(num, payload) == [num * 8 + 2, |payload|] + payload
  {
    TagValue(num, 2);
  }

  lemma SmallNumber(num: nat, v: nat)
    requires 1 <= num < 16 && 0 < v < 0x80
    ensures UintField(num, v) == [num * 8, v]
  {
    TagValue(num, 0);
  }

  lemma SmallVersion(i: Info)
    requires i.major == 2 && i.minor == 1
    ensures LenField(1, VersionBytes(i)) == [0x0A, 4, 0x08, 2, 0x10, 1]
  {
    SmallNumber(1, 2);
    SmallNumber(2, 1);
    hide LenField, UintField;
    assert VersionBytes(i) == [0x08, 2, 0x10, 1];
    SmallField(1, VersionBytes(i));
  }

  lemma SmallOwner(address: Bytes)
    requires |address| == 25
    ensures LenField(2, LenField(1, address)) == [0x12, 27, 0x0A, 25] + address
  {
    SmallField(1, address);
    SmallField(2, LenField(1, address));
    hide LenField;
  }

  lemma SmallAttributes()
    ensures AttributesBytes([Attribute([97], [98])]) == [0x2A, 6, 0x0A, 1, 97, 0x12, 1, 98]
  {
    var a := Attribute([97], [98]);
    SmallField(1, [97]);
    SmallField(2, [98]);
    assert AttributeBytes(a) == [0x0A, 1, 97, 0x12, 1, 98];
    hide LenField, AttributeBytes;
    SmallField(5, [0x0A, 1, 97, 0x12, 1, 98]);
    assert [a][1..] == [] && AttributesBytes([]) == [];
  }

  /** Version 2.1, one attribute `a` with value `b`, nonce 7, basic ACL 5 and policy 9, for any owner. */
  lemma WrittenBytes(c: Chain, h: Bytes)
    requires IsChain(c) && |h| == 20
    ensures InfoBytes(c, Info(2, 1, h, [7], 5, [Attribute([97], [98])], [9]))
         == [0x0A, 4, 0x08, 2, 0x10, 1]
            + (([0x12, 27, 0x0A, 25] + ScriptHashToAddress(c, h))
               + ([0x1A, 1, 7] + ([0x20, 5] + ([0x2A, 6, 0x0A, 1, 97, 0x12, 1, 98] + [0x32, 1, 9]))))
  {
    hide ScriptHashToAddress, LenField, UintField, VersionBytes, AttributesBytes;
    SmallVersion(Info(2, 1, h, [7], 5, [Attribute([97], [98])], [9]));
    SmallOwner(ScriptHashToAddress(c, h));
    SmallField(3, [7]);
    SmallNumber(4, 5);
    SmallAttributes();
    SmallField(6, [9]);
  }
}
