/**
 * Byte-level helpers shared by the buffer models: fixed-width little-endian
 * integers as they sit in the packed node buffers, 32-bit wrap-around, and
 * in-place splicing of a byte run into a buffer.
 */
module Bytes {
  /** An unsigned 8-bit value. */
  newtype byte = x: int | 0 <= x < 256

  datatype Option<T> = None | Some(value: T)

  const TwoTo8: int := 0x100
  const TwoTo16: int := 0x1_0000
  const TwoTo31: int := 0x8000_0000
  const TwoTo32: int := 0x1_0000_0000
  const TwoTo64: int := 0x1_0000_0000_0000_0000

  /** An unsigned 64-bit value, the width of the block and element hashes. */
  type u64 = x: int | 0 <= x < TwoTo64

  /** 256 to the power w: the number of values w bytes can hold. */
  function Pow256(w: nat): (r: nat)
    ensures r >= 1
  {
    if w == 0 then 1 else 256 * Pow256(w - 1)
  }

  /** n least significant byte first, in w bytes (n is taken modulo 256^w). */
  function LE(n: nat, w: nat): (r: seq<byte>)
    ensures |r| == w
  {
    if w == 0 then [] else [ByteOf(n % 256)] + LE(n / 256, w - 1)
  }

  /** The unsigned value of a little-endian byte run. */
  function FromLE(s: seq<byte>): nat
  {
    if s == [] then 0 else s[0] as int + 256 * FromLE(s[1..])
  }

  lemma {:induction false} FromLEBound(s: seq<byte>)
    ensures FromLE(s) < Pow256(|s|)
  {
    if s != [] {
      FromLEBound(s[1..]);
    }
  }

  lemma {:induction false} FromLEOfLE(n: nat, w: nat)
    requires n < Pow256(w)
    ensures FromLE(LE(n, w)) == n
  {
    if w > 0 {
      var s := LE(n, w);
      assert s[1..] == LE(n / 256, w - 1);
      DivBound(n, Pow256(w - 1));
      FromLEOfLE(n / 256, w - 1);
      assert n == n % 256 + 256 * (n / 256);
      assert FromLE(s) == s[0] as int + 256 * FromLE(s[1..]);
    }
  }

  /** The byte holding an int 0..255. */
  function ByteOf(x: int): (r: byte)
    requires 0 <= x < 256
    ensures r as int == x
  {
    x as byte
  }

  /** 2 to the power w. */
  function Pow2(w: nat): (r: nat)
    ensures r >= 1
  {
    if w == 0 then 1 else 2 * Pow2(w - 1)
  }

  /** The w low bits of n, least significant first. */
  function BitsOf(n: nat, w: nat): (r: seq<bool>)
    ensures |r| == w
  {
    if w == 0 then [] else [n % 2 == 1] + BitsOf(n / 2, w - 1)
  }

  /** The number whose bits, least significant first, are bs. */
  function FromBits(bs: seq<bool>): nat
  {
    if bs == [] then 0 else (if bs[0] then 1 else 0) + 2 * FromBits(bs[1..])
  }

  lemma {:induction false} FromBitsBound(bs: seq<bool>)
    ensures FromBits(bs) < Pow2(|bs|)
  {
    if bs != [] {
      FromBitsBound(bs[1..]);
    }
  }

  lemma {:induction false} FromBitsOf(n: nat, w: nat)
    requires n < Pow2(w)
    ensures FromBits(BitsOf(n, w)) == n
  {
    if w > 0 {
      assert BitsOf(n, w)[1..] == BitsOf(n / 2, w - 1);
      FromBitsOf(n / 2, w - 1);
    }
  }

  lemma {:induction false} BitsOfFrom(bs: seq<bool>)
    ensures BitsOf(FromBits(bs), |bs|) == bs
  {
    if bs != [] {
      var m := FromBits(bs[1..]);
      HalfOf(if bs[0] then 1 else 0, m);
      BitsOfFrom(bs[1..]);
      assert BitsOf(FromBits(bs), |bs|) == [bs[0]] + BitsOf(m, |bs| - 1);
    }
  }

  lemma HalfOf(b: nat, m: nat)
    requires b < 2
    ensures (b + 2 * m) % 2 == b && (b + 2 * m) / 2 == m
  {
  }

  /** (b & (1 << k)) != 0 */
  predicate Bit(b: byte, k: nat)
    requires k < 8
  {
    BitsOf(b as int, 8)[k]
  }

  /**
   * b | (1 << k) when v holds, b & ~(1 << k) otherwise: or-ing in a one-bit
   * mask sets that bit, and-ing with its complement clears it.
   */
  function WithBit(b: byte, k: nat, v: bool): (r: byte)
    requires k < 8
  {
    var bs := BitsOf(b as int, 8)[k := v];
    FromBitsBound(bs);
    assert Pow2(8) == 256;
    ByteOf(FromBits(bs))
  }

  /** A byte is determined by its eight bits. */
  lemma BitsDetermine(a: byte, b: byte)
    requires forall k :: 0 <= k < 8 ==> Bit(a, k) == Bit(b, k)
    ensures a == b
  {
    assert Pow2(8) == 256;
    var x, y := BitsOf(a as int, 8), BitsOf(b as int, 8);
    forall k | 0 <= k < 8
      ensures x[k] == y[k]
    {
      assert Bit(a, k) == Bit(b, k);
    }
    assert x == y;
    FromBitsOf(a as int, 8);
    FromBitsOf(b as int, 8);
  }

  /** WithBit gives bit k the value v and leaves the other seven bits as they were. */
  lemma WithBitSpec(b: byte, k: nat, v: bool)
    requires k < 8
    ensures Bit(WithBit(b, k, v), k) == v
    ensures forall j :: 0 <= j < 8 && j != k ==> Bit(WithBit(b, k, v), j) == Bit(b, j)
  {
    BitsOfFrom(BitsOf(b as int, 8)[k := v]);
  }

  /** a | b on unsigned values, bit by bit from the least significant. */
  function BitOr(a: nat, b: nat): (r: nat)
    decreases a + b
  {
    if a == 0 then b
    else if b == 0 then a
    else 2 * BitOr(a / 2, b / 2) + (if a % 2 == 1 || b % 2 == 1 then 1 else 0)
  }

  /** a & b on unsigned values. */
  function BitAnd(a: nat, b: nat): (r: nat)
    decreases a + b
  {
    if a == 0 || b == 0 then 0
    else 2 * BitAnd(a / 2, b / 2) + (if a % 2 == 1 && b % 2 == 1 then 1 else 0)
  }

  /** c << k */
  function Shl(c: nat, k: nat): nat
  {
    if k == 0 then c else 2 * Shl(c, k - 1)
  }

  /** x >> k */
  function Shr(x: nat, k: nat): nat
  {
    if k == 0 then x else Shr(x / 2, k - 1)
  }

  /** The k low bits of x as a number. */
  function LowBits(x: nat, k: nat): nat
  {
    if k == 0 then 0 else 2 * LowBits(x / 2, k - 1) + x % 2
  }

  /** Or-ing values whose bits do not overlap (a below 2^k, the other shifted left by k) adds them. */
  lemma {:induction false} BitOrDisjoint(a: nat, c: nat, k: nat)
    requires a < Pow2(k)
    ensures BitOr(a, Shl(c, k)) == a + Shl(c, k)
    decreases k
  {
    var s := Shl(c, k);
    if k > 0 && a != 0 && s != 0 {
      var s1 := Shl(c, k - 1);
      HalfOf(0, s1);
      HalfOf(a % 2, a / 2);
      BitOrDisjoint(a / 2, c, k - 1);
    }
  }

  /** Or is symmetric. */
  lemma {:induction false} BitOrSymmetric(a: nat, b: nat)
    ensures BitOr(a, b) == BitOr(b, a)
    decreases a + b
  {
    if a != 0 && b != 0 {
      BitOrSymmetric(a / 2, b / 2);
    }
  }

  /** Or-ing two w-bit values gives a w-bit value. */
  lemma {:induction false} BitOrBound(a: nat, b: nat, w: nat)
    requires a < Pow2(w) && b < Pow2(w)
    ensures BitOr(a, b) < Pow2(w)
    decreases w
  {
    if w > 0 && a != 0 && b != 0 {
      BitOrBound(a / 2, b / 2, w - 1);
    }
  }

  /** And-ing never gives more than either operand. */
  lemma {:induction false} BitAndBound(a: nat, b: nat)
    ensures BitAnd(a, b) <= a && BitAnd(a, b) <= b
    decreases a + b
  {
    if a != 0 && b != 0 {
      BitAndBound(a / 2, b / 2);
    }
  }

  lemma {:induction false} BitsOfZero(w: nat, k: nat)
    requires k < w
    ensures !BitsOf(0, w)[k]
    decreases w
  {
    if k > 0 {
      BitsOfZero(w - 1, k - 1);
    }
  }

  /** Bit k of a | b is set iff bit k of a or bit k of b is. */
  lemma {:induction false} BitOrAt(a: nat, b: nat, w: nat, k: nat)
    requires k < w
    ensures BitsOf(BitOr(a, b), w)[k] == (BitsOf(a, w)[k] || BitsOf(b, w)[k])
    decreases w
  {
    if a == 0 {
      BitsOfZero(w, k);
    } else if b == 0 {
      BitsOfZero(w, k);
    } else {
      var x := BitOr(a / 2, b / 2);
      var t := if a % 2 == 1 || b % 2 == 1 then 1 else 0;
      HalfOf(t, x);
      if k > 0 {
        BitOrAt(a / 2, b / 2, w - 1, k - 1);
      }
    }
  }

  /** Bit k of a & b is set iff bit k of both a and b is. */
  lemma {:induction false} BitAndAt(a: nat, b: nat, w: nat, k: nat)
    requires k < w
    ensures BitsOf(BitAnd(a, b), w)[k] == (BitsOf(a, w)[k] && BitsOf(b, w)[k])
    decreases w
  {
    if a == 0 || b == 0 {
      BitsOfZero(w, k);
    } else {
      var x := BitAnd(a / 2, b / 2);
      var t := if a % 2 == 1 && b % 2 == 1 then 1 else 0;
      HalfOf(t, x);
      if k > 0 {
        BitAndAt(a / 2, b / 2, w - 1, k - 1);
      }
    }
  }

  /** Masking with 2^k - 1 keeps the k low bits. */
  lemma {:induction false} BitAndLow(x: nat, k: nat)
    ensures BitAnd(x, Pow2(k) - 1) == LowBits(x, k)
    decreases k
  {
    if k > 0 {
      var p := Pow2(k - 1);
      HalfOf(1, p - 1);
      BitAndLow(x / 2, k - 1);
      if x == 0 {
        LowBitsZero(k);
      }
    }
  }

  lemma {:induction false} LowBitsZero(k: nat)
    ensures LowBits(0, k) == 0
  {
    if k > 0 {
      LowBitsZero(k - 1);
    }
  }

  lemma {:induction false} ShlZero(k: nat)
    ensures Shl(0, k) == 0
  {
    if k > 0 {
      ShlZero(k - 1);
    }
  }

  lemma {:induction false} ShrZero(k: nat)
    ensures Shr(0, k) == 0
  {
    if k > 0 {
      ShrZero(k - 1);
    }
  }

  /** Masking with m << k is masking x >> k with m, shifted back. */
  lemma {:induction false} BitAndShl(x: nat, m: nat, k: nat)
    ensures BitAnd(x, Shl(m, k)) == Shl(BitAnd(Shr(x, k), m), k)
    decreases k
  {
    if k > 0 {
      var s1 := Shl(m, k - 1);
      HalfOf(0, s1);
      BitAndShl(x / 2, m, k - 1);
      if x == 0 {
        ShrZero(k);
        ShlZero(k);
      } else if s1 == 0 {
        ShlZero(k);
      }
    }
  }

  /** x & 0x0F is the low nibble of x. */
  lemma LowMask(x: nat)
    ensures BitAnd(x, 0x0F) == x % 16
  {
    BitAndLow(x, 4);
    assert Pow2(4) - 1 == 0x0F;
    LowNibble(x);
  }

  /** x & 0xF0 is the high nibble of a byte, in place. */
  lemma HighMask(x: nat)
    requires x < 256
    ensures BitAnd(x, 0xF0) == x - x % 16
  {
    assert Shl(0x0F, 4) == 0xF0;
    BitAndShl(x, 0x0F, 4);
    ShrNibble(x);
    LowMask(x / 16);
    assert (x / 16) % 16 == x / 16;
    var b := BitAnd(x / 16, 0x0F);
    assert Shl(b, 4) == 2 * Shl(b, 3) == 4 * Shl(b, 2) == 8 * Shl(b, 1) == 16 * Shl(b, 0);
  }

  lemma ShrNibble(x: nat)
    ensures Shr(x, 4) == x / 16
  {
    var q := x / 2 / 2 / 2 / 2;
    assert Shr(x, 4) == Shr(x / 2, 3) == Shr(x / 2 / 2, 2) == Shr(x / 2 / 2 / 2, 1) == q;
    var low := 8 * ((x / 2 / 2 / 2) % 2) + 4 * ((x / 2 / 2) % 2) + 2 * ((x / 2) % 2) + x % 2;
    assert x == 16 * q + low;
    DivModUnique(x, 16, q, low);
  }

  lemma LowNibble(x: nat)
    ensures LowBits(x, 4) == x % 16
  {
    var x1, x2, x3 := x / 2, x / 2 / 2, x / 2 / 2 / 2;
    assert LowBits(x, 4) == 2 * LowBits(x1, 3) + x % 2;
    assert LowBits(x1, 3) == 2 * LowBits(x2, 2) + x1 % 2;
    assert LowBits(x2, 2) == 2 * LowBits(x3, 1) + x2 % 2;
    assert LowBits(x3, 1) == 2 * LowBits(x3 / 2, 0) + x3 % 2 == x3 % 2;
    var low := 8 * (x3 % 2) + 4 * (x2 % 2) + 2 * (x1 % 2) + x % 2;
    assert x == 16 * (x3 / 2) + low;
    DivModUnique(x, 16, x3 / 2, low);
  }

  /** Division by a positive constant with remainder has one answer. */
  lemma DivModUnique(x: int, d: int, q: int, r: int)
    requires d > 0 && 0 <= r < d && x == d * q + r
    ensures x / d == q && x % d == r
  {
    var q0 := x / d;
    if q0 > q {
      MulMono(d, q0 - q);
    } else if q0 < q {
      MulMono(d, q - q0);
    }
  }

  lemma MulMono(d: int, k: int)
    requires d > 0 && k >= 1
    ensures d * k >= d
  {
  }

  lemma DivBound(n: nat, p: nat)
    requires n < 256 * p
    ensures n / 256 < p
  {
  }

  function Zeros(n: nat): (r: seq<byte>)
    ensures |r| == n
  {
    seq(n, _ => 0 as byte)
  }

  lemma {:induction false} FromLEZeros(n: nat)
    ensures FromLE(Zeros(n)) == 0
  {
    if n > 0 {
      assert Zeros(n)[1..] == Zeros(n - 1);
      FromLEZeros(n - 1);
    }
  }

  /** C#'s unchecked int arithmetic: the value modulo 2^32, read back as signed. */
  function Wrap32(x: int): (r: int)
    ensures -TwoTo31 <= r < TwoTo31
    ensures (r - x) % TwoTo32 == 0
    ensures -TwoTo31 <= x < TwoTo31 ==> r == x
  {
    var u := x % TwoTo32;
    if u >= TwoTo31 then u - TwoTo32 else u
  }

  /** The four bytes of a C# int (two's complement, little-endian). */
  function Int32Bytes(x: int): (r: seq<byte>)
    ensures |r| == 4
  {
    LE(x % TwoTo32, 4)
  }

  /** The C# int held in four bytes. */
  function Int32Of(b: seq<byte>): (r: int)
    requires |b| == 4
    ensures -TwoTo31 <= r < TwoTo31
  {
    FromLEBound(b);
    assert Pow256(4) == TwoTo32;
    var u := FromLE(b);
    if u >= TwoTo31 then u - TwoTo32 else u
  }

  /** The C# ulong held in eight bytes. */
  function UInt64Of(b: seq<byte>): u64
    requires |b| == 8
  {
    FromLEBound(b);
    assert Pow256(8) == TwoTo64;
    FromLE(b)
  }

  /** Reads a C# int at offset at. */
  function ReadInt32(s: seq<byte>, at: nat): (r: int)
    requires at + 4 <= |s|
    ensures -TwoTo31 <= r < TwoTo31
  {
    Int32Of(s[at..at + 4])
  }

  /** Reads a C# ulong at offset at. */
  function ReadUInt64(s: seq<byte>, at: nat): u64
    requires at + 8 <= |s|
  {
    UInt64Of(s[at..at + 8])
  }

  lemma Int32RoundTrip(x: int)
    ensures Int32Of(Int32Bytes(x)) == Wrap32(x)
  {
    assert Pow256(4) == TwoTo32;
    FromLEOfLE(x % TwoTo32, 4);
  }

  lemma UInt64RoundTrip(x: u64)
    ensures UInt64Of(LE(x, 8)) == x
  {
    assert Pow256(8) == TwoTo64;
    FromLEOfLE(x, 8);
  }

  /** s with the bytes at [at, at + |b|) replaced by b. */
  function Splice(s: seq<byte>, at: nat, b: seq<byte>): (r: seq<byte>)
    requires at + |b| <= |s|
    ensures |r| == |s|
  {
    s[..at] + b + s[at + |b|..]
  }

  /** Splice puts b at offset at and keeps every byte outside [at, at + |b|). */
  lemma SpliceSpec(s: seq<byte>, at: nat, b: seq<byte>)
    requires at + |b| <= |s|
    ensures Splice(s, at, b)[at..at + |b|] == b
    ensures forall i :: 0 <= i < |s| && !(at <= i < at + |b|) ==> Splice(s, at, b)[i] == s[i]
  {
  }

  /** Copies b into a at offset at, as UnsafeUtility.CopyStructureToPtr / MemCpy do. */
  method CopyTo(a: array<byte>, at: nat, b: seq<byte>)
    requires at + |b| <= a.Length
    modifies a
    ensures a[..] == Splice(old(a[..]), at, b)
  {
    var i := 0;
    while i < |b|
      invariant 0 <= i <= |b|
      invariant a[..] == old(a[..])[..at] + b[..i] + old(a[..])[at + i..]
    {
      a[at + i] := b[i];
      i := i + 1;
    }
  }

  /** UnsafeUtility.MemClear over the first n bytes. */
  method MemClear(a: array<byte>, n: nat)
    requires n <= a.Length
    modifies a
    ensures a[..] == Zeros(n) + old(a[..])[n..]
  {
    var i := 0;
    while i < n
      invariant 0 <= i <= n
      invariant a[..] == Zeros(i) + old(a[..])[i..]
    {
      a[i] := 0;
      i := i + 1;
    }
  }

  /**
   * CopyTo followed by the offset after the copy: the bytes before at are
   * kept, b follows them, and the bytes after it are kept too.
   */
  method Put(a: array<byte>, at: nat, b: seq<byte>) returns (next: nat)
    requires at + |b| <= a.Length
    modifies a
    ensures next == at + |b|
    ensures a[..next] == old(a[..at]) + b
    ensures a[next..] == old(a[next..])
  {
    CopyTo(a, at, b);
    next := at + |b|;
    assert a[..next] == Splice(old(a[..]), at, b)[..next];
    assert a[next..] == Splice(old(a[..]), at, b)[next..];
  }
}
