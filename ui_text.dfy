/**
 * Text as the runtime stores it: UTF8String (an int32 UTF-16 length, the
 * UTF-8 byte order mark, then the UTF-8 bytes) and UTF8CodePointEnumerator,
 * the hand-written UTF-8 decoder (RFC 3629 section 3) the text element reads
 * its characters with.
 */
module UiText {
  import opened Bytes

  /** The UIText property: where the text sits in the node's extra-data buffer. */
  datatype UIText = UIText(extraDataOffset: int)

  const PreambleSize: nat := 3
  /** The UTF-8 byte order mark (RFC 3629 section 6). */
  const Preamble: seq<byte> := [0xEF, 0xBB, 0xBF]
  const LengthSize: nat := 4
  const CharacterOffset: nat := LengthSize + PreambleSize

  /** Encoding.UTF8.GetBytes of one Unicode scalar value (RFC 3629 section 3). */
  function Utf8Char(c: char): (r: seq<byte>)
    ensures 1 <= |r| <= 4
  {
    var n := c as int;
    if n < 0x80 then [ByteOf(n)]
    else if n < 0x800 then [ByteOf(0xC0 + n / 64), Cont(n)]
    else if n < 0x1_0000 then [ByteOf(0xE0 + n / 4096), Cont(n / 64), Cont(n)]
    else [ByteOf(0xF0 + n / 262144), Cont(n / 4096), Cont(n / 64), Cont(n)]
  }

  /** The continuation byte carrying the low 6 bits of m. */
  function Cont(m: nat): (r: byte)
    ensures r as int == 0x80 + m % 64
  {
    ByteOf(0x80 + m % 64)
  }

  /** Encoding.UTF8.GetBytes of a string. */
  function Utf8Encode(s: string): seq<byte>
  {
    if s == [] then [] else Utf8Char(s[0]) + Utf8Encode(s[1..])
  }

  /** string.Length: UTF-16 code units, two for a scalar value above U+FFFF. */
  function Utf16Length(s: string): nat
  {
    if s == [] then 0 else (if s[0] as int >= 0x1_0000 then 2 else 1) + Utf16Length(s[1..])
  }

  /** The scalar values of a string, as the enumerator reports them. */
  function Scalars(s: string): (r: seq<int>)
    ensures |r| == |s| && forall i :: 0 <= i < |s| ==> r[i] == s[i] as int
  {
    seq(|s|, i requires 0 <= i < |s| => s[i] as int)
  }

  predicate NoNul(s: string)
  {
    forall i :: 0 <= i < |s| ==> s[i] != '\0'
  }

  /** math.ceilpow2 for a positive argument: the least power of two not below it. */
  function CeilPow2(n: int): (r: int)
    ensures n >= 1 ==> r >= n
  {
    if n <= 1 then n else PowerAtLeast(n, 1)
  }

  function PowerAtLeast(n: int, p: nat): (r: int)
    requires p >= 1
    ensures r >= n && r >= p
    decreases n - p
  {
    if p >= n then p else PowerAtLeast(n, 2 * p)
  }

  /**
   * UTF8String: Capacity bytes from Malloc holding the length, the preamble and
   * the UTF-8 bytes. Bytes Malloc leaves uninitialised are modelled as zero.
   */
  class Utf8String {
    var data: seq<byte>
    var capacity: int
    var usedCapacity: int

    ghost predicate Valid()
      reads this
    {
      |data| == capacity && 0 <= usedCapacity <= capacity
    }

    /** IsCreated: the string owns memory. */
    predicate IsCreated()
      reads this
    {
      capacity > 0
    }

    /** Length: the int at the start of the memory, 0 when nothing is allocated. */
    function Length(): int
      reads this
      requires Valid()
    {
      if IsCreated() && capacity >= LengthSize then ReadInt32(data, 0) else 0
    }

    constructor (str: string)
      ensures Valid()
      ensures usedCapacity == CharacterOffset + |Utf8Encode(str)|
      ensures capacity == CeilPow2(usedCapacity)
      ensures data == Int32Bytes(Utf16Length(str)) + Preamble + Utf8Encode(str) + Zeros(capacity - usedCapacity)
      ensures IsCreated() && Length() == Wrap32(Utf16Length(str))
    {
      var bytes := Utf8Encode(str);
      usedCapacity := CharacterOffset + |bytes|;
      capacity := CeilPow2(CharacterOffset + |bytes|);
      var d := Int32Bytes(Utf16Length(str)) + Preamble + bytes + Zeros(CeilPow2(CharacterOffset + |bytes|) - (CharacterOffset + |bytes|));
      assert d[0..4] == Int32Bytes(Utf16Length(str));
      data := d;
      Int32RoundTrip(Utf16Length(str));
    }

    /**
     * SetValue: a string too long for the memory gets fresh memory and a new
     * UsedCapacity, but neither the length nor the preamble is written again;
     * a string that fits leaves UsedCapacity alone. The bytes always go at offset 7.
     */
    method SetValue(str: string)
      requires Valid()
      modifies this
      ensures Valid()
      ensures var bytes := Utf8Encode(str);
        if |bytes| + CharacterOffset > old(capacity) then
          capacity == CeilPow2(CharacterOffset + |bytes|) && usedCapacity == CharacterOffset + |bytes|
          && data == Splice(Zeros(capacity), CharacterOffset, bytes)
        else
          capacity == old(capacity) && usedCapacity == old(usedCapacity)
          && data == Splice(old(data), CharacterOffset, bytes)
      ensures |Utf8Encode(str)| + CharacterOffset <= old(capacity) ==> Length() == old(Length())
    {
      var bytes := Utf8Encode(str);
      if |bytes| + CharacterOffset > capacity {
        capacity := CeilPow2(CharacterOffset + |bytes|);
        usedCapacity := CharacterOffset + |bytes|;
        data := Zeros(capacity);
      } else {
        assert Splice(data, CharacterOffset, bytes)[0..4] == data[0..4];
      }
      data := Splice(data, CharacterOffset, bytes);
    }

    /** Dispose: the memory is released and both capacities drop to 0. */
    method Dispose()
      modifies this
      ensures Valid() && capacity == 0 && usedCapacity == 0 && !IsCreated()
      ensures Length() == 0
    {
      capacity := 0;
      usedCapacity := 0;
      data := [];
    }
  }

  /** The bytes from offset k on; memory past the end reads as 0 (see At). */
  function Tail(s: seq<byte>, k: int): seq<byte>
  {
    if 0 <= k <= |s| then s[k..] else []
  }

  /** The byte at offset k, as an int; a read past the end of the memory is modelled as 0. */
  function At(s: seq<byte>, k: int): (r: int)
    ensures 0 <= r < 256
  {
    if 0 <= k < |s| then s[k] as int else 0
  }

  predicate IsContinuation(b: int)
  {
    0x80 <= b <= 0xBF
  }

  /**
   * How one byte changes the decoder's uint: a continuation byte shifts in its
   * low 6 bits (the shift wraps at 32 bits, and the or is an addition because
   * the low 6 bits are then 0); a lead byte starts over with its low 5, 4 or 3
   * bits. In each range, masking off the high bits is subtracting the range's start.
   */
  function Absorb(b: int, cur: int): (r: int)
    requires 0x80 <= b <= 0xF7 && 0 <= cur < TwoTo32
    ensures 0 <= r < TwoTo32
  {
    if b <= 0xBF then cur * 64 % 0x1_0000_0000 + (b - 0x80)
    else if b <= 0xDF then b - 0xC0
    else if b <= 0xEF then b - 0xE0
    else b - 0xF0
  }

  /** The outcome of one MoveNext: its result, how many bytes it consumed, the new Current. */
  datatype Step = Step(more: bool, consumed: nat, cur: int)

  /** A step that consumed n more bytes before it. */
  function Later(t: Step, n: nat): Step
  {
    Step(t.more, t.consumed + n, t.cur)
  }

  /**
   * One MoveNext over the memory s from offset k on, with Current cur: the
   * byte at k is handled, and so is each continuation byte that follows it.
   */
  function Decode1(s: seq<byte>, k: int, cur: int): (r: Step)
    requires 0 <= cur < TwoTo32
    ensures 0 <= r.cur < TwoTo32
    ensures r.more ==> 0 <= k && 1 <= r.consumed && k + r.consumed <= |s|
    ensures r.more <==> r.consumed > 0 && r.cur != 0
    decreases |s| - k
  {
    var b := At(s, k);
    if b <= 0x7F then Step(b != 0, 1, b)
    else if b > 0xF7 then Step(false, 0, cur)
    else
      var c := Absorb(b, cur);
      if IsContinuation(At(s, k + 1)) then Later(Decode1(s, k + 1, c), 1)
      else Step(c != 0, 1, c)
  }

  /** Every value a run of MoveNext calls from offset k yields before the first false. */
  function CodePoints(s: seq<byte>, k: int, cur: int): (r: seq<int>)
    requires 0 <= cur < TwoTo32
    decreases |s| - k
  {
    var r := Decode1(s, k, cur);
    if r.more then [r.cur] + CodePoints(s, k + r.consumed, r.cur) else []
  }

  /** A lead byte of 0xF8 or more ends the enumeration: MoveNext returns false, consumes nothing and keeps Current. */
  lemma InvalidLeadStops(s: seq<byte>, k: int, cur: int)
    requires 0 <= cur < TwoTo32 && 0 <= k < |s| && s[k] >= 0xF8
    ensures Decode1(s, k, cur) == Step(false, 0, cur)
    ensures CodePoints(s, k, cur) == []
  {
  }

  /** Decoding does not look at the bytes before the offset. */
  lemma {:induction false} DecodeShift(p: seq<byte>, q: seq<byte>, k: int, cur: int)
    requires 0 <= k && 0 <= cur < TwoTo32
    ensures Decode1(p + q, |p| + k, cur) == Decode1(q, k, cur)
    decreases |q| - k
  {
    assert At(p + q, |p| + k) == At(q, k);
    assert At(p + q, |p| + k + 1) == At(q, k + 1);
    var b := At(q, k);
    if 0x80 <= b <= 0xF7 && IsContinuation(At(q, k + 1)) {
      DecodeShift(p, q, k + 1, Absorb(b, cur));
    }
  }

  /** The first byte of an encoded character is never a continuation byte, and is 0 only for NUL. */
  lemma LeadByte(c: char)
    ensures !IsContinuation(Utf8Char(c)[0] as int)
    ensures Utf8Char(c)[0] == 0 <==> c == '\0'
  {
  }

  /** A continuation byte carrying d shifts it in under x. */
  lemma AbsorbDigit(x: int, d: int)
    requires 0 <= x < 0x8000 && 0 <= d < 64
    ensures Absorb(0x80 + d, x) == x * 64 + d
  {
  }

  /** A lead byte starts over with the bits it carries. */
  lemma AbsorbLead(d: int, cur: int)
    requires 0 <= d && 0 <= cur < TwoTo32
    ensures d < 32 ==> Absorb(0xC0 + d, cur) == d
    ensures d < 16 ==> Absorb(0xE0 + d, cur) == d
    ensures d < 8 ==> Absorb(0xF0 + d, cur) == d
  {
  }

  /** A two-byte sequence carrying the digits d0 d1 decodes to d0 * 64 + d1. */
  lemma DecodeDigits2(d0: int, d1: int, rest: seq<byte>, cur: int)
    requires 0 <= d0 < 32 && 0 <= d1 < 64 && 0 <= cur < TwoTo32 && !IsContinuation(At(rest, 0))
    ensures var v := d0 * 64 + d1;
      Decode1([ByteOf(0xC0 + d0), ByteOf(0x80 + d1)] + rest, 0, cur) == Step(v != 0, 2, v)
  {
    var s := [ByteOf(0xC0 + d0), ByteOf(0x80 + d1)] + rest;
    assert At(s, 2) == At(rest, 0);
    AbsorbLead(d0, cur);
    AbsorbDigit(d0, d1);
  }

  /** A three-byte sequence carrying the digits d0 d1 d2 decodes to (d0 * 64 + d1) * 64 + d2. */
  lemma DecodeDigits3(d0: int, d1: int, d2: int, rest: seq<byte>, cur: int)
    requires 0 <= d0 < 16 && 0 <= d1 < 64 && 0 <= d2 < 64 && 0 <= cur < TwoTo32 && !IsContinuation(At(rest, 0))
    ensures var v := (d0 * 64 + d1) * 64 + d2;
      Decode1([ByteOf(0xE0 + d0), ByteOf(0x80 + d1), ByteOf(0x80 + d2)] + rest, 0, cur) == Step(v != 0, 3, v)
  {
    var s := [ByteOf(0xE0 + d0), ByteOf(0x80 + d1), ByteOf(0x80 + d2)] + rest;
    assert At(s, 3) == At(rest, 0);
    AbsorbLead(d0, cur);
    AbsorbDigit(d0, d1);
    AbsorbDigit(d0 * 64 + d1, d2);
    assert Decode1(s, 1, d0) == Later(Decode1(s, 2, d0 * 64 + d1), 1);
  }

  /** A four-byte sequence carrying the digits d0 d1 d2 d3 decodes to their base-64 value. */
  lemma DecodeDigits4(d0: int, d1: int, d2: int, d3: int, rest: seq<byte>, cur: int)
    requires 0 <= d0 < 8 && 0 <= d1 < 64 && 0 <= d2 < 64 && 0 <= d3 < 64
    requires 0 <= cur < TwoTo32 && !IsContinuation(At(rest, 0))
    ensures var v := ((d0 * 64 + d1) * 64 + d2) * 64 + d3;
      Decode1([ByteOf(0xF0 + d0), ByteOf(0x80 + d1), ByteOf(0x80 + d2), ByteOf(0x80 + d3)] + rest, 0, cur) == Step(v != 0, 4, v)
  {
    var s := [ByteOf(0xF0 + d0), ByteOf(0x80 + d1), ByteOf(0x80 + d2), ByteOf(0x80 + d3)] + rest;
    var v1 := d0 * 64 + d1;
    var v2 := v1 * 64 + d2;
    assert At(s, 4) == At(rest, 0);
    AbsorbLead(d0, cur);
    AbsorbDigit(d0, d1);
    AbsorbDigit(v1, d2);
    AbsorbDigit(v2, d3);
    assert Decode1(s, 2, v1) == Later(Decode1(s, 3, v2), 1);
    assert Decode1(s, 1, d0) == Later(Decode1(s, 2, v1), 1);
  }

  /** The base-64 digits of a scalar value. */
  lemma Digits(n: nat)
    ensures n == n / 64 * 64 + n % 64
    ensures n / 64 == n / 4096 * 64 + n / 64 % 64
    ensures n / 4096 == n / 262144 * 64 + n / 4096 % 64
  {
  }

  /** The bytes of a two-byte character. */
  lemma Utf8Char2(c: char)
    requires 0x80 <= c as int < 0x800
    ensures var n := c as int; Utf8Char(c) == [ByteOf(0xC0 + n / 64), ByteOf(0x80 + n % 64)]
  {
  }

  /** The bytes of a three-byte character. */
  lemma Utf8Char3(c: char)
    requires 0x800 <= c as int < 0x1_0000
    ensures var n := c as int;
      Utf8Char(c) == [ByteOf(0xE0 + n / 4096), ByteOf(0x80 + n / 64 % 64), ByteOf(0x80 + n % 64)]
  {
  }

  /** The bytes of a four-byte character. */
  lemma Utf8Char4(c: char)
    requires 0x1_0000 <= c as int
    ensures var n := c as int;
      Utf8Char(c) == [ByteOf(0xF0 + n / 262144), ByteOf(0x80 + n / 4096 % 64), ByteOf(0x80 + n / 64 % 64), ByteOf(0x80 + n % 64)]
  {
  }

  lemma DecodeChar2(c: char, rest: seq<byte>, cur: int)
    requires 0x80 <= c as int < 0x800 && 0 <= cur < TwoTo32 && !IsContinuation(At(rest, 0))
    ensures Decode1(Utf8Char(c) + rest, 0, cur) == Step(true, 2, c as int)
  {
    var n := c as int;
    Utf8Char2(c);
    DecodeDigits2(n / 64, n % 64, rest, cur);
  }

  lemma DecodeChar3(c: char, rest: seq<byte>, cur: int)
    requires 0x800 <= c as int < 0x1_0000 && 0 <= cur < TwoTo32 && !IsContinuation(At(rest, 0))
    ensures Decode1(Utf8Char(c) + rest, 0, cur) == Step(true, 3, c as int)
  {
    var n := c as int;
    Utf8Char3(c);
    Digits(n);
    DecodeDigits3(n / 4096, n / 64 % 64, n % 64, rest, cur);
  }

  lemma DecodeChar4(c: char, rest: seq<byte>, cur: int)
    requires 0x1_0000 <= c as int && 0 <= cur < TwoTo32 && !IsContinuation(At(rest, 0))
    ensures Decode1(Utf8Char(c) + rest, 0, cur) == Step(true, 4, c as int)
  {
    var n := c as int;
    Utf8Char4(c);
    Digits(n);
    DecodeDigits4(n / 262144, n / 4096 % 64, n / 64 % 64, n % 64, rest, cur);
  }

  /** One MoveNext over an encoded non-NUL character consumes exactly its bytes and yields its scalar value. */
  lemma DecodeChar(p: seq<byte>, c: char, rest: seq<byte>, cur: int)
    requires c != '\0' && 0 <= cur < TwoTo32
    requires !IsContinuation(At(rest, 0))
    ensures Decode1(p + Utf8Char(c) + rest, |p|, cur) == Step(true, |Utf8Char(c)|, c as int)
  {
    var n := c as int;
    if n < 0x80 {
      assert At(Utf8Char(c) + rest, 0) == n;
    } else if n < 0x800 {
      DecodeChar2(c, rest, cur);
    } else if n < 0x1_0000 {
      DecodeChar3(c, rest, cur);
    } else {
      DecodeChar4(c, rest, cur);
    }
    DecodeShift(p, Utf8Char(c) + rest, 0, cur);
    assert p + Utf8Char(c) + rest == p + (Utf8Char(c) + rest);
  }

  /** What follows an encoded string and then a 0 byte is never a continuation byte. */
  lemma NextIsLead(s: string, tail: seq<byte>)
    requires At(tail, 0) == 0
    ensures !IsContinuation(At(Utf8Encode(s) + tail, 0))
  {
    if s == [] {
      assert Utf8Encode(s) + tail == tail;
    } else {
      LeadByte(s[0]);
      assert At(Utf8Encode(s) + tail, 0) == Utf8Char(s[0])[0] as int;
    }
  }

  lemma NoNulTail(s: string)
    requires NoNul(s) && s != []
    ensures NoNul(s[1..])
  {
    forall i | 0 <= i < |s[1..]| ensures s[1..][i] != '\0' {
      assert s[1..][i] == s[i + 1];
    }
  }

  /** A MoveNext that yields c after len bytes puts c in front of the rest of the enumeration. */
  lemma CodePointsStep(m: seq<byte>, k: int, cur: int, c: int, len: nat)
    requires 0 <= cur < TwoTo32 && Decode1(m, k, cur) == Step(true, len, c)
    ensures CodePoints(m, k, cur) == [c] + CodePoints(m, k + len, c)
  {
  }

  /** A 0 byte (or the end of the memory) at k ends the enumeration. */
  lemma CodePointsEnd(m: seq<byte>, k: int, cur: int)
    requires 0 <= cur < TwoTo32 && At(m, k) == 0
    ensures CodePoints(m, k, cur) == []
  {
  }

  lemma ScalarsCons(s: string)
    requires s != []
    ensures Scalars(s) == [s[0] as int] + Scalars(s[1..])
  {
  }

  /** Enumerating an encoded string yields its first character, then goes on after its bytes. */
  lemma EncodedStep(p: seq<byte>, s: string, tail: seq<byte>, cur: int)
    requires s != [] && s[0] != '\0' && 0 <= cur < TwoTo32 && At(tail, 0) == 0
    ensures var e := Utf8Char(s[0]);
      CodePoints(p + Utf8Encode(s) + tail, |p|, cur)
      == [s[0] as int] + CodePoints((p + e) + Utf8Encode(s[1..]) + tail, |p + e|, s[0] as int)
  {
    EncodedShape(p, s, tail);
    EncodedFirst(p, s, tail, cur);
  }

  lemma EncodedShape(p: seq<byte>, s: string, tail: seq<byte>)
    requires s != []
    ensures var m := p + Utf8Char(s[0]) + (Utf8Encode(s[1..]) + tail);
      p + Utf8Encode(s) + tail == m && (p + Utf8Char(s[0])) + Utf8Encode(s[1..]) + tail == m
  {
    EncodeCons(s);
    Regroup(p, Utf8Char(s[0]), Utf8Encode(s[1..]), tail);
  }

  lemma EncodedFirst(p: seq<byte>, s: string, tail: seq<byte>, cur: int)
    requires s != [] && s[0] != '\0' && 0 <= cur < TwoTo32 && At(tail, 0) == 0
    ensures var e := Utf8Char(s[0]); var m := p + e + (Utf8Encode(s[1..]) + tail);
      CodePoints(m, |p|, cur) == [s[0] as int] + CodePoints(m, |p + e|, s[0] as int)
  {
    var e := Utf8Char(s[0]);
    NextIsLead(s[1..], tail);
    DecodeChar(p, s[0], Utf8Encode(s[1..]) + tail, cur);
    CodePointsStep(p + e + (Utf8Encode(s[1..]) + tail), |p|, cur, s[0] as int, |e|);
  }

  lemma EncodeCons(s: string)
    requires s != []
    ensures Utf8Encode(s) == Utf8Char(s[0]) + Utf8Encode(s[1..])
  {
  }

  lemma Regroup(p: seq<byte>, e: seq<byte>, u: seq<byte>, t: seq<byte>)
    ensures p + (e + u) + t == p + e + (u + t)
    ensures p + (e + u) + t == (p + e) + u + t
  {
  }

  /**
   * Encoding then enumerating round-trips: after any prefix p, the UTF-8 bytes
   * of a NUL-free string followed by a 0 byte (or the end of the memory)
   * enumerate to its scalar values.
   */
  lemma {:induction false} DecodeEncoded(p: seq<byte>, s: string, tail: seq<byte>, cur: int)
    requires NoNul(s) && 0 <= cur < TwoTo32 && At(tail, 0) == 0
    ensures CodePoints(p + Utf8Encode(s) + tail, |p|, cur) == Scalars(s)
    decreases |s|
  {
    if s == [] {
      assert p + Utf8Encode(s) + tail == p + tail;
      CodePointsEnd(p + tail, |p|, cur);
    } else {
      EncodedStep(p, s, tail, cur);
      NoNulTail(s);
      DecodeEncoded(p + Utf8Char(s[0]), s[1..], tail, s[0] as int);
      ScalarsCons(s);
    }
  }

  /** UTF8CodePointEnumerator over the memory that starts at its location. */
  class CodePointEnumerator {
    const location: seq<byte>
    var offset: int
    var current: int

    ghost predicate Valid()
      reads this
    {
      0 <= offset && 0 <= current < TwoTo32
    }

    /** The pointer constructor: skips the 4-byte length and the 3-byte preamble unless told not to. */
    constructor (buffer: seq<byte>, at: nat, hasSize: bool, hasPreamble: bool)
      ensures Valid() && offset == 0 && current == 0
      ensures location == Tail(buffer, at + (if hasSize then LengthSize else 0) + (if hasPreamble then PreambleSize else 0))
    {
      var start := at;
      if hasSize {
        start := start + LengthSize;
      }
      if hasPreamble {
        start := start + PreambleSize;
      }
      location := Tail(buffer, start);
      current := 0;
      offset := 0;
    }

    /** The string constructor: the UTF-8 bytes of str, with no terminator after them. */
    constructor FromString(str: string)
      ensures Valid() && offset == 0 && current == 0 && location == Utf8Encode(str)
    {
      location := Utf8Encode(str);
      current := 0;
      offset := 0;
    }

    /**
     * MoveNext: decodes one code point (Decode1) and reports whether it is
     * non-zero. The loop works on copies of offset and current and stores them
     * back on every exit, which the C# method's field updates amount to.
     */
    method MoveNext() returns (more: bool)
      requires Valid()
      modifies this
      ensures Valid()
      ensures var r := Decode1(location, old(offset), old(current));
        more == r.more && offset == old(offset) + r.consumed && current == r.cur
    {
      var off, cur := offset, current;
      ghost var r := Decode1(location, off, cur);
      while true
        modifies {}
        invariant offset <= off && 0 <= cur < TwoTo32
        invariant off == offset || IsContinuation(At(location, off))
        invariant off == offset ==> cur == current
        invariant r == Later(Decode1(location, off, cur), off - offset)
        decreases |location| - off
      {
        var b := At(location, off);
        ghost var prev := cur;
        if b <= 0x7F {
          cur := b;
          off := off + 1;
          break;
        } else if b <= 0xBF {
          cur := cur * 64 % 0x1_0000_0000 + (b - 0x80);
          off := off + 1;
        } else if b <= 0xDF {
          cur := b - 0xC0;
          off := off + 1;
        } else if b <= 0xEF {
          cur := b - 0xE0;
          off := off + 1;
        } else if b <= 0xF7 {
          cur := b - 0xF0;
          off := off + 1;
        } else {
          return false;
        }
        assert cur == Absorb(b, prev);
        if !IsContinuation(At(location, off)) {
          break;
        }
      }
      offset, current := off, cur;
      more := cur != 0;
    }

    /** Reset: back to the first byte with Current 0. */
    method Reset()
      modifies this
      ensures Valid() && offset == 0 && current == 0
    {
      offset := 0;
      current := 0;
    }
  }
}
