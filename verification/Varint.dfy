/** The base-128 varint and tag codec (internal/proto/encoding.go), as the Protocol
    Buffers Encoding guide describes it in "Base 128 Varints". */
module Varint {

  const MAX_UINT64 := 0xFFFF_FFFF_FFFF_FFFF
  const MAX_UINT32 := 0xFFFF_FFFF
  const MAX_VARINT_LEN := 10
  const MAX_FIELD_NUMBER := 0x1FFF_FFFF

  const VARINT := 0
  const LEN := 2
  const FIRST_UNKNOWN_FIELD_TYPE := 6

  type Byte = b: int | 0 <= b < 0x100
  type UInt64 = x: int | 0 <= x <= MAX_UINT64

  // ---- bit operations on unbounded non-negative integers ----

  /** `a << s`. */
  function Shl(a: nat, s: nat): (r: nat)
    ensures a <= r
    ensures a == 0 ==> r == 0
    decreases s
  {
    if s == 0 then a else 2 * Shl(a, s - 1)
  }

  /** Bitwise or. */
  function Or(a: nat, b: nat): nat {
    if a == 0 && b == 0 then 0
    else (if a % 2 == 1 || b % 2 == 1 then 1 else 0) + 2 * Or(a / 2, b / 2)
  }

  lemma {:induction false} ShlAdd(a: nat, s: nat, t: nat)
    ensures Shl(a, s + t) == Shl(Shl(a, s), t)
    decreases t
  {
    if t != 0 {
      ShlAdd(a, s, t - 1);
    }
  }

  lemma {:induction false} ShlMonotone(a: nat, b: nat, s: nat)
    requires a <= b
    ensures Shl(a, s) <= Shl(b, s)
    decreases s
  {
    if s != 0 {
      ShlMonotone(a, b, s - 1);
    }
  }

  lemma Shl7(a: nat)
    ensures Shl(a, 7) == 0x80 * a
  {
    assert Shl(a, 1) == 2 * a;
    ShlAdd(a, 1, 1);
    ShlAdd(a, 2, 1);
    ShlAdd(a, 3, 1);
    ShlAdd(a, 4, 1);
    ShlAdd(a, 5, 1);
    ShlAdd(a, 6, 1);
  }

  /** Where `z` fits below bit `s`, or-ing in a value shifted by `s` only affects the bits from `s` up. */
  lemma {:induction false} OrAbove(z: nat, a: nat, b: nat, s: nat)
    requires z < Shl(1, s)
    ensures Or(z + Shl(a, s), Shl(b, s)) == z + Shl(Or(a, b), s)
    decreases s
  {
    if s != 0 {
      OrAbove(z / 2, a, b, s - 1);
      var i, j := Shl(a, s - 1), Shl(b, s - 1);
      OrDigits(z % 2, z / 2 + i, 0, j);
    }
  }

  lemma OrDigits(d: nat, a: nat, e: nat, b: nat)
    requires d < 2 && e < 2
    ensures Or(d + 2 * a, e + 2 * b) == (if d == 1 || e == 1 then 1 else 0) + 2 * Or(a, b)
  {
  }

  lemma {:induction false} OrCommutes(a: nat, b: nat)
    ensures Or(a, b) == Or(b, a)
    decreases a + b
  {
    if a != 0 || b != 0 {
      OrCommutes(a / 2, b / 2);
    }
  }

  lemma {:induction false} OrZero(b: nat)
    ensures Or(0, b) == b
  {
    if b != 0 {
      OrZero(b / 2);
    }
  }

  /** `x & 0xFF | 0x80`: the low seven bits of x below a set top bit. */
  function ContinuationByte(x: nat): (b: Byte)
    ensures b == x % 0x80 + 0x80
  {
    var y := x % 0x100;
    assert y == y % 0x80 + 0x80 * (y / 0x80) && y % 0x80 == x % 0x80;
    Shl7(1);
    Shl7(y / 0x80);
    OrAbove(y % 0x80, y / 0x80, 1, 7);
    OrDigits(y / 0x80, 0, 1, 0);
    Or(y, 0x80)
  }

  /** `x | g << s`, which is a sum because x has no bit from `s` up. */
  function OrGroup(x: nat, g: nat, s: nat): (r: nat)
    requires x < Shl(1, s)
    ensures r == x + Shl(g, s)
  {
    OrAbove(x, 0, g, s);
    OrZero(g);
    Or(x, Shl(g, s))
  }

  // ---- the encoding ----

  /** The varint encoding of x: seven bits a byte, least significant group first, the top bit of
      every byte but the last one set. */
  function Encode(x: nat): (bs: seq<Byte>)
    ensures 1 <= |bs|
    decreases x
  {
    if x < 0x80 then [x] else [x % 0x80 + 0x80] + Encode(x / 0x80)
  }

  /** Value of a little-endian sequence of seven-bit groups. */
  function Value(bs: seq<Byte>): nat {
    if bs == [] then 0 else bs[0] % 0x80 + 0x80 * Value(bs[1..])
  }

  /** Index of the first byte whose top bit is clear, or the length if there is none. */
  function Terminator(bs: seq<Byte>): (t: nat)
    ensures t <= |bs|
    ensures t < |bs| ==> bs[t] < 0x80
    ensures forall i :: 0 <= i < t ==> 0x80 <= bs[i]
  {
    if bs == [] || bs[0] < 0x80 then 0 else 1 + Terminator(bs[1..])
  }

  /** What `uvarint` yields: a value and the number of bytes read, or the overflow exception. A
      buffer that ends before the varint does reads as zero in zero bytes. */
  datatype Read = Read(value: nat, size: nat) | Overflow

  function Uvarint(bs: seq<Byte>): Read {
    var t := Terminator(bs);
    if t < |bs| && t < MAX_VARINT_LEN then
      if t == MAX_VARINT_LEN - 1 && 1 < bs[t] then Overflow else Read(Value(bs[..t + 1]), t + 1)
    else if MAX_VARINT_LEN < |bs| then Overflow
    else Read(0, 0)
  }

  /** `a << 7k`, one group after the other. */
  function ShlGroups(a: nat, k: nat): (r: nat)
    ensures r == Shl(a, 7 * k)
  {
    if k == 0 then a else
      ShlAdd(a, 7 * (k - 1), 7);
      Shl7(Shl(a, 7 * (k - 1)));
      0x80 * ShlGroups(a, k - 1)
  }

  lemma Shl63()
    ensures Shl(1, 63) == 0x8000_0000_0000_0000
    ensures Shl(2, 63) == 0x1_0000_0000_0000_0000
  {
    assert ShlGroups(1, 9) == 0x8000_0000_0000_0000;
    assert ShlGroups(2, 9) == 0x1_0000_0000_0000_0000;
  }

  lemma {:induction false} ValueAppend(bs: seq<Byte>, b: Byte)
    ensures Value(bs + [b]) == Value(bs) + Shl(b % 0x80, 7 * |bs|)
  {
    if bs == [] {
      assert [b][1..] == [];
    } else {
      assert (bs + [b])[1..] == bs[1..] + [b];
      ValueAppend(bs[1..], b);
      Shl7(Shl(b % 0x80, 7 * |bs[1..]|));
      ShlAdd(b % 0x80, 7 * |bs[1..]|, 7);
    }
  }

  lemma {:induction false} ValueBound(bs: seq<Byte>)
    ensures Value(bs) < Shl(1, 7 * |bs|)
  {
    if bs != [] {
      ValueBound(bs[1..]);
      Shl7(Shl(1, 7 * |bs[1..]|));
      ShlAdd(1, 7 * |bs[1..]|, 7);
    }
  }

  lemma {:induction false} EncodeShape(x: nat)
    ensures Value(Encode(x)) == x
    ensures forall i :: 0 <= i < |Encode(x)| - 1 ==> 0x80 <= Encode(x)[i]
    ensures Encode(x)[|Encode(x)| - 1] < 0x80
    ensures 0x80 <= x ==> Encode(x)[|Encode(x)| - 1] != 0
  {
    if x < 0x80 {
      assert [x][1..] == [];
    } else {
      EncodeShape(x / 0x80);
      var rest := Encode(x / 0x80);
      assert Encode(x) == [0x80 + x % 0x80] + rest;
      hide Encode;
      assert Encode(x)[1..] == rest;
    }
  }

  lemma {:induction false} EncodeLength(x: nat, k: nat)
    requires 1 <= k && x < Shl(1, 7 * k)
    ensures |Encode(x)| <= k
    decreases k
  {
    if 0x80 <= x {
      Shl7(Shl(1, 7 * (k - 1)));
      ShlAdd(1, 7 * (k - 1), 7);
      EncodeLength(x / 0x80, k - 1);
    }
  }

  /** A 64-bit value takes at most ten bytes, and the tenth carries only the top bit. */
  lemma EncodeFitsUint64(x: UInt64)
    ensures |Encode(x)| <= MAX_VARINT_LEN
    ensures |Encode(x)| == MAX_VARINT_LEN ==> Encode(x)[9] <= 1
  {
    Shl63();
    Shl7(Shl(1, 63));
    ShlAdd(1, 63, 7);
    EncodeLength(x, 10);
    EncodeShape(x);
    if |Encode(x)| == 10 && 2 <= Encode(x)[9] {
      ValueAppend(Encode(x)[..9], Encode(x)[9]);
      assert Encode(x) == Encode(x)[..9] + [Encode(x)[9]];
      ShlMonotone(2, Encode(x)[9] % 0x80, 63);
    }
  }

  /** Reading inverts writing, whatever bytes follow. */
  lemma UvarintInvertsEncode(x: UInt64, rest: seq<Byte>)
    ensures Uvarint(Encode(x) + rest) == Read(x, |Encode(x)|)
  {
    EncodeShape(x);
    EncodeFitsUint64(x);
    var bs := Encode(x) + rest;
    var n := |Encode(x)|;
    assert forall i :: 0 <= i < n - 1 ==> bs[i] == Encode(x)[i];
    assert bs[n - 1] == Encode(x)[n - 1];
    assert Terminator(bs) == n - 1;
    assert bs[..n] == Encode(x);
  }

  /** Whatever is accepted is a 64-bit value held by the bytes read. */
  lemma UvarintSound(bs: seq<Byte>)
    requires Uvarint(bs).Read? && 0 < Uvarint(bs).size
    ensures Uvarint(bs).size <= |bs| && Uvarint(bs).size <= MAX_VARINT_LEN
    ensures Uvarint(bs).value == Value(bs[..Uvarint(bs).size]) <= MAX_UINT64
  {
    var t := Terminator(bs);
    ValueBound(bs[..t]);
    ValueAppend(bs[..t], bs[t]);
    assert bs[..t + 1] == bs[..t] + [bs[t]];
    Shl63();
    if t < 9 {
      ShlAdd(1, 7 * (t + 1), 63 - 7 * (t + 1));
      ValueBound(bs[..t + 1]);
    } else {
      ShlMonotone(bs[t] % 0x80, 1, 63);
    }
  }

  /** The buffer begins with a varint of n bytes: at most ten, all but the last with the top bit, that hold a
      64-bit value. */
  predicate BeginsWith(bs: seq<Byte>, n: nat) {
    && 1 <= n <= 10 && n <= |bs| && bs[n - 1] < 0x80 && (forall i :: 0 <= i < n - 1 ==> 0x80 <= bs[i])
    && Value(bs[..n]) <= 0xFFFF_FFFF_FFFF_FFFF
  }

  lemma TerminatorIs(bs: seq<Byte>, t: nat)
    requires t <= |bs| && (forall i :: 0 <= i < t ==> 0x80 <= bs[i]) && (t < |bs| ==> bs[t] < 0x80)
    ensures Terminator(bs) == t
  {
  }

  lemma TenthByte(bs: seq<Byte>)
    requires 10 <= |bs| && bs[9] < 0x80
    ensures 1 < bs[9] ==> 0xFFFF_FFFF_FFFF_FFFF < Value(bs[..10])
  {
    hide Value, Shl;
    ValueAppend(bs[..9], bs[9]);
    assert bs[..10] == bs[..9] + [bs[9]];
    Shl63();
    if 1 < bs[9] {
      ShlMonotone(2, bs[9], 63);
    }
  }

  /** Exactly what is read from any buffer: the varint it begins with; nothing, in zero bytes, if up to ten bytes
      end before their varint does; and an overflow otherwise. */
  lemma UvarintIff(bs: seq<Byte>, v: nat, n: nat)
    ensures Uvarint(bs) == Read(v, n) <==>
      if n == 0 then v == 0 && |bs| <= 10 && forall i :: 0 <= i < |bs| ==> 0x80 <= bs[i]
      else BeginsWith(bs, n) && v == Value(bs[..n])
  {
    hide Value;
    if 0 < n && Uvarint(bs) == Read(v, n) {
      UvarintSound(bs);
    }
    if BeginsWith(bs, n) {
      TerminatorIs(bs, n - 1);
      if n == 10 {
        TenthByte(bs);
      }
    }
    if forall i :: 0 <= i < |bs| ==> 0x80 <= bs[i] {
      TerminatorIs(bs, |bs|);
    }
  }

  /** Of all byte strings that hold x, the writer's is the one whose last group is not a padding
      zero; so a varint can be read back to exactly the bytes read iff it is not padded. */
  lemma {:induction false} CanonicalVarint(bs: seq<Byte>)
    requires bs != [] && Terminator(bs) == |bs| - 1
    ensures Encode(Value(bs)) == bs <==> (|bs| == 1 || bs[|bs| - 1] != 0)
  {
    hide Encode, Value;
    var x := Value(bs);
    ValueStep(bs);
    EncodeStep(x);
    if |bs| == 1 {
      assert bs[1..] == [];
      NoGroups();
      assert [bs[0]] == bs;
    } else {
      var tail := bs[1..];
      CanonicalVarint(tail);
      assert bs == [bs[0]] + tail && tail[|tail| - 1] == bs[|bs| - 1];
      EncodeStep(Value(tail));
      EncodeShape(Value(tail));
      if 0x80 <= x {
        assert Encode(x)[1..] == Encode(Value(tail)) && bs[1..] == tail;
      }
    }
  }

  lemma NoGroups()
    ensures Value([]) == 0
  {
  }

  lemma ValueStep(bs: seq<Byte>)
    requires bs != []
    ensures Value(bs) / 0x80 == Value(bs[1..]) && Value(bs) % 0x80 == bs[0] % 0x80
  {
  }

  lemma EncodeStep(x: nat)
    ensures Encode(x) == if x < 0x80 then [x] else [x % 0x80 + 0x80] + Encode(x / 0x80)
  {
  }

  // ---- the loops of the codec ----

  /** Counts the bytes of a varint without writing it. */
  method SizeVarint(x: UInt64) returns (n: nat)
    ensures n == |Encode(x)|
  {
    var rest, i := x, 0;
    while rest >= 0x80
      invariant 0 <= rest
      invariant i + |Encode(rest)| == |Encode(x)|
    {
      rest := rest / 0x80;
      i := i + 1;
    }
    n := i + 1;
  }

  /** Writes x into `buf` at `off`; bytes outside the written range stay as they were. */
  method PutUvarint(buf: array<Byte>, off: nat, x: UInt64) returns (n: nat)
    requires off + |Encode(x)| <= buf.Length
    modifies buf
    ensures n == |Encode(x)|
    ensures buf[..] == old(buf[..off]) + Encode(x) + old(buf[off + n..])
  {
    hide Encode;
    var rest, i := x, 0;
    ghost var bs := Encode(x);
    while rest >= 0x80
      invariant 0 <= rest
      invariant i + |Encode(rest)| == |bs|
      invariant bs[i..] == Encode(rest)
      invariant forall j :: 0 <= j < i ==> buf[off + j] == bs[j]
      invariant forall j :: 0 <= j < buf.Length && !(off <= j < off + i) ==> buf[j] == old(buf[j])
    {
      EncodeStep(rest);
      assert bs[i] == bs[i..][0] && bs[i + 1..] == bs[i..][1..];
      buf[off + i] := ContinuationByte(rest);
      rest := rest / 0x80;
      i := i + 1;
    }
    EncodeStep(rest);
    assert bs[i] == bs[i..][0];
    buf[off + i] := rest;
    n := i + 1;
    Spliced(old(buf[..]), buf[..], off, bs);
  }

  /** A sequence with some bytes written over it. */
  lemma Spliced(before: seq<Byte>, after: seq<Byte>, off: nat, bs: seq<Byte>)
    requires |after| == |before| && off + |bs| <= |before|
    requires forall j :: 0 <= j < |bs| ==> after[off + j] == bs[j]
    requires forall j :: 0 <= j < |before| && !(off <= j < off + |bs|) ==> after[j] == before[j]
    ensures after == before[..off] + bs + before[off + |bs|..]
  {
  }

  /** Reads one varint from the front of `buf`. */
  /** One more group of seven bits. */
  lemma GroupStep(buf: seq<Byte>, i: nat)
    requires i < |buf|
    ensures Value(buf[..i]) < Shl(1, 7 * i)
    ensures Value(buf[..i + 1]) == Value(buf[..i]) + Shl(buf[i] % 0x80, 7 * i)
  {
    ValueBound(buf[..i]);
    ValueAppend(buf[..i], buf[i]);
    assert buf[..i + 1] == buf[..i] + [buf[i]];
  }

  lemma ReadsAt(buf: seq<Byte>, i: nat)
    requires i <= 10 && i <= |buf| && (forall j :: 0 <= j < i ==> 0x80 <= buf[j])
    ensures i < |buf| && (i == 10 || (i == 9 && 1 < buf[i] < 0x80)) ==> Uvarint(buf) == Overflow
    ensures i < |buf| && i < 10 && buf[i] < 0x80 && !(i == 9 && 1 < buf[i]) ==> Uvarint(buf) == Read(Value(buf[..i + 1]), i + 1)
    ensures i == |buf| ==> Uvarint(buf) == Read(0, 0)
  {
    hide Value;
    if i == |buf| || buf[i] < 0x80 {
      TerminatorIs(buf, i);
    }
  }

  method ReadUvarint(buf: seq<Byte>) returns (r: Read)
    ensures r == Uvarint(buf)
  {
    hide Value, Shl, Uvarint;
    var x, s: nat := 0, 0;
    NoGroups();
    for i := 0 to |buf|
      invariant i <= MAX_VARINT_LEN
      invariant s == 7 * i
      invariant forall j :: 0 <= j < i ==> 0x80 <= buf[j]
      invariant x == Value(buf[..i])
    {
      ReadsAt(buf, i);
      if i == MAX_VARINT_LEN {
        return Overflow;
      }
      var b := buf[i];
      GroupStep(buf, i);
      if b < 0x80 {
        if i == MAX_VARINT_LEN - 1 && b > 1 {
          return Overflow;
        }
        return Read(OrGroup(x, b, s), i + 1);
      }
      x := OrGroup(x, b % 0x80, s);
      s := s + 7;
    }
    ReadsAt(buf, |buf|);
    return Read(0, 0);
  }

  // ---- tags and sized fields ----

  datatype Tag = Tag(num: nat, typ: nat, size: nat) | BadTag
  datatype Sized = Sized(value: nat, size: nat) | BadSize

  /** `num<<3 | typ&7`. */
  function EncodeTag(num: nat, typ: nat): nat {
    Or(Shl(num, 3), typ % 8)
  }

  function ReadTag(bs: seq<Byte>): Tag {
    match Uvarint(bs)
    case Overflow => BadTag
    case Read(n, r) =>
      if n / 8 == 0 || MAX_FIELD_NUMBER < n / 8 then BadTag
      else if FIRST_UNKNOWN_FIELD_TYPE <= n % 8 then BadTag
      else Tag(n / 8, n % 8, r)
  }

  /** Reads the length of a nested field, which must not exceed what remains of the buffer. */
  function ReadSizeLEN(bs: seq<Byte>): Sized {
    match Uvarint(bs)
    case Overflow => BadSize
    case Read(n, r) => if |bs| < n || |bs| - r < n then BadSize else Sized(n, r)
  }

  function ReadUint32(bs: seq<Byte>): Sized {
    match Uvarint(bs)
    case Overflow => BadSize
    case Read(n, r) => if MAX_UINT32 < n then BadSize else Sized(n, r)
  }

  lemma ShlThree(num: nat)
    ensures Shl(num, 3) == num * 8
  {
    ShlAdd(num, 1, 1);
    ShlAdd(num, 2, 1);
  }

  /** Of the type only the lowest three bits are written. */
  lemma TagValue(num: nat, typ: nat)
    ensures EncodeTag(num, typ) == num * 8 + typ % 8
  {
    var low := typ % 8;
    ShlThree(num);
    assert Shl(1, 3) == 8;
    OrCommutes(Shl(num, 3), low);
    OrAbove(low, 0, num, 3);
    OrZero(num);
  }

  /** A tag is read exactly where a varint stands that is eight times a field number from 1 to 2^29 - 1 plus a
      known field type. */
  lemma ReadTagIff(bs: seq<Byte>, num: nat, typ: nat, size: nat)
    ensures ReadTag(bs) == Tag(num, typ, size)
       <==> typ < 6 && 1 <= num <= 0x1FFF_FFFF && Uvarint(bs) == Read(num * 8 + typ, size)
  {
    hide Uvarint;
    assert typ < 8 ==> (num * 8 + typ) / 8 == num && (num * 8 + typ) % 8 == typ;
  }

  /** A length is read exactly where a varint stands and the buffer has that many bytes after it. */
  lemma ReadSizeIff(bs: seq<Byte>, n: nat, size: nat)
    ensures ReadSizeLEN(bs) == Sized(n, size) <==> Uvarint(bs) == Read(n, size) && size + n <= |bs|
  {
    hide Uvarint;
  }

  lemma ReadUint32Iff(bs: seq<Byte>, n: nat, size: nat)
    ensures ReadUint32(bs) == Sized(n, size) <==> Uvarint(bs) == Read(n, size) && n <= 0xFFFF_FFFF
  {
    hide Uvarint;
  }

  /** A written tag reads back as its number and type, in as many bytes as were written. */
  lemma ReadTagInverts(num: nat, typ: nat, rest: seq<Byte>)
    requires 1 <= num <= MAX_FIELD_NUMBER && typ < FIRST_UNKNOWN_FIELD_TYPE
    ensures ReadTag(Encode(EncodeTag(num, typ)) + rest) == Tag(num, typ, |Encode(EncodeTag(num, typ))|)
  {
    TagValue(num, typ);
    hide EncodeTag, Encode, Uvarint;
    UvarintInvertsEncode(num * 8 + typ, rest);
    assert (num * 8 + typ) / 8 == num && (num * 8 + typ) % 8 == typ;
  }

  lemma ReadSizeInverts(n: UInt64, rest: seq<Byte>)
    requires n <= |rest|
    ensures ReadSizeLEN(Encode(n) + rest) == Sized(n, |Encode(n)|)
  {
    UvarintInvertsEncode(n, rest);
  }

  lemma ReadUint32Inverts(n: nat, rest: seq<Byte>)
    requires n <= MAX_UINT32
    ensures ReadUint32(Encode(n) + rest) == Sized(n, |Encode(n)|)
  {
    UvarintInvertsEncode(n, rest);
  }

  /** `SizeTag(num)` measures `num<<3`, yet it is the size of the tag with any field type. */
  lemma SizeTagIgnoresType(num: nat, typ: nat)
    requires typ < 8
    ensures |Encode(Shl(num, 3))| == |Encode(EncodeTag(num, typ))|
  {
    TagValue(num, typ);
    ShlThree(num);
    hide EncodeTag, Encode, Shl;
    assert num == 16 * (num / 16) + num % 16;
    SameTopSameLength(num * 8, num * 8 + typ);
  }

  lemma SameTopSameLength(x: nat, y: nat)
    requires x / 0x80 == y / 0x80
    ensures |Encode(x)| == |Encode(y)|
  {
  }
}
