/**
 * UIAlignment: a horizontal alignment in the low nibble of a byte and a
 * vertical alignment in the high nibble, packed with a bitwise or and
 * unpacked with the masks 0x0F and 0xF0, and the offset that places an
 * object inside its container for an alignment.
 *
 * The enums are bytes: a cast can give them any byte value, and the
 * getters do give unnamed values for bytes whose nibbles are not named.
 */
module Alignment {
  import opened Bytes
  import opened Floats

  /** UIHorizontalAlignment. */
  const HLeft: byte := 0
  const HCenter: byte := 0x01
  const HRight: byte := 0x02

  /** UIVerticalAlignment. */
  const VTop: byte := 0
  const VCenter: byte := 0x10
  const VBottom: byte := 0x20

  /** The named UIAlignment values. */
  const TopLeft: byte := 0x00
  const TopCenter: byte := 0x01
  const TopRight: byte := 0x02
  const CenterLeft: byte := 0x10
  const Center: byte := 0x11
  const CenterRight: byte := 0x12
  const BottomLeft: byte := 0x20
  const BottomCenter: byte := 0x21
  const BottomRight: byte := 0x22

  predicate IsHorizontal(h: byte) { h == HLeft || h == HCenter || h == HRight }

  predicate IsVertical(v: byte) { v == VTop || v == VCenter || v == VBottom }

  /** Merge(horizontal, vertical): the or of the two bytes. */
  function Merge(h: byte, v: byte): (r: byte)
  {
    BitOrBound(h as nat, v as nat, 8);
    assert Pow2(8) == 256;
    BitOr(h as nat, v as nat) as byte
  }

  /** The overload taking the vertical alignment first. */
  function MergeVertical(v: byte, h: byte): (r: byte)
  {
    BitOrBound(h as nat, v as nat, 8);
    assert Pow2(8) == 256;
    BitOr(h as nat, v as nat) as byte
  }

  /** GetHorizontalAlignment: the low nibble. */
  function GetHorizontal(a: byte): (r: byte)
  {
    BitAndBound(a as nat, 0x0F);
    BitAnd(a as nat, 0x0F) as byte
  }

  /** GetVerticalAlignment: the high nibble, in place. */
  function GetVertical(a: byte): (r: byte)
  {
    BitAndBound(a as nat, 0xF0);
    BitAnd(a as nat, 0xF0) as byte
  }

  /** Each bit of a merged alignment is set iff it is set in either part. */
  lemma MergeIsOr(h: byte, v: byte, k: nat)
    requires k < 8
    ensures Bit(Merge(h, v), k) == (Bit(h, k) || Bit(v, k))
    ensures Merge(h, v) == MergeVertical(v, h)
  {
    BitOrAt(h as nat, v as nat, 8, k);
  }

  /** GetHorizontal keeps the four low bits and clears the others. */
  lemma HorizontalMask(a: byte, k: nat)
    requires k < 8
    ensures Bit(GetHorizontal(a), k) == (k < 4 && Bit(a, k))
  {
    BitAndAt(a as nat, 0x0F, 8, k);
    MaskBits();
  }

  /** GetVertical keeps the four high bits and clears the others. */
  lemma VerticalMask(a: byte, k: nat)
    requires k < 8
    ensures Bit(GetVertical(a), k) == (4 <= k && Bit(a, k))
  {
    BitAndAt(a as nat, 0xF0, 8, k);
    MaskBits();
  }

  lemma MaskBits()
    ensures forall k :: 0 <= k < 8 ==> BitsOf(0x0F, 8)[k] == (k < 4)
    ensures forall k :: 0 <= k < 8 ==> BitsOf(0xF0, 8)[k] == (4 <= k)
  {
    assert BitsOf(0x0F, 8) == [true, true, true, true, false, false, false, false];
    assert BitsOf(0xF0, 8) == [false, false, false, false, true, true, true, true];
  }

  /**
   * A horizontal value in the low nibble and a vertical value in the high one
   * merge to their sum, and the getters give each part back.
   */
  lemma MergeThenGet(h: byte, v: byte)
    requires h < 16 && v % 16 == 0
    ensures Merge(h, v) as int == h as int + v as int
    ensures GetHorizontal(Merge(h, v)) == h
    ensures GetVertical(Merge(h, v)) == v
  {
    var c := v as nat / 16;
    assert Shl(c, 4) == 2 * Shl(c, 3) == 4 * Shl(c, 2) == 8 * Shl(c, 1) == 16 * Shl(c, 0) == v as nat;
    assert Pow2(4) == 16;
    BitOrDisjoint(h as nat, c, 4);
    var m := h as nat + v as nat;
    LowMask(m);
    HighMask(m);
    DivModUnique(m, 16, c, h as nat);
  }

  /** So every named horizontal and vertical alignment round-trips through Merge. */
  lemma NamedRoundTrip(h: byte, v: byte)
    requires IsHorizontal(h) && IsVertical(v)
    ensures GetHorizontal(Merge(h, v)) == h && GetVertical(Merge(h, v)) == v
  {
    MergeThenGet(h, v);
  }

  /** The nine named alignments are the merges of their parts. */
  lemma NamedAlignments()
    ensures Merge(HLeft, VTop) == TopLeft && Merge(HCenter, VTop) == TopCenter && Merge(HRight, VTop) == TopRight
    ensures Merge(HLeft, VCenter) == CenterLeft && Merge(HCenter, VCenter) == Center && Merge(HRight, VCenter) == CenterRight
    ensures Merge(HLeft, VBottom) == BottomLeft && Merge(HCenter, VBottom) == BottomCenter && Merge(HRight, VBottom) == BottomRight
  {
    MergeThenGet(HLeft, VTop);
    MergeThenGet(HCenter, VTop);
    MergeThenGet(HRight, VTop);
    MergeThenGet(HLeft, VCenter);
    MergeThenGet(HCenter, VCenter);
    MergeThenGet(HRight, VCenter);
    MergeThenGet(HLeft, VBottom);
    MergeThenGet(HCenter, VBottom);
    MergeThenGet(HRight, VBottom);
  }

  // ---------------------------------------------------------------- offsets

  /** 0 at the start, a half at the centre and 1 for every other value. */
  function HMultiplier(h: byte): Float
  {
    if h == HLeft then Zero else if h == HCenter then Fin(0.5) else One
  }

  function VMultiplier(v: byte): Float
  {
    if v == VTop then Zero else if v == VCenter then Fin(0.5) else One
  }

  /** GetOffset(UIHorizontalAlignment): (container - object) * multiplier. */
  function HOffset(h: byte, containerSize: Float, objectSize: Float): Float
  {
    Mul(Sub(containerSize, objectSize), HMultiplier(h))
  }

  /** GetOffset(UIVerticalAlignment). */
  function VOffset(v: byte, containerSize: Float, objectSize: Float): Float
  {
    Mul(Sub(containerSize, objectSize), VMultiplier(v))
  }

  /** GetOffset(UIAlignment, float2, float2), and the overload with an out parameter. */
  function Offset(a: byte, containerSize: Float2, objectSize: Float2): Float2
  {
    Float2(HOffset(GetHorizontal(a), containerSize.x, objectSize.x), VOffset(GetVertical(a), containerSize.y, objectSize.y))
  }

  /**
   * On finite sizes the offset is the free space times 0, 1/2 or 1;
   * nothing clamps it, so an object larger than its container gets a
   * negative offset unless it is aligned to the start.
   */
  lemma FiniteOffsets(h: byte, v: byte, c: real, o: real)
    ensures HOffset(h, Fin(c), Fin(o)) == Fin((c - o) * (if h == HLeft then 0.0 else if h == HCenter then 0.5 else 1.0))
    ensures VOffset(v, Fin(c), Fin(o)) == Fin((c - o) * (if v == VTop then 0.0 else if v == VCenter then 0.5 else 1.0))
    ensures o > c && h != HLeft ==> HOffset(h, Fin(c), Fin(o)).v < 0.0
    ensures o > c && v != VTop ==> VOffset(v, Fin(c), Fin(o)).v < 0.0
  {
  }

  /** An infinite free space at the start is NaN, not 0 (infinity times zero). */
  lemma InfiniteAtStart(o: real)
    ensures HOffset(HLeft, PosInf, Fin(o)).NaN?
  {
  }

  /** The 2D offset of a merged alignment is the horizontal offset of its horizontal part and the vertical offset of its vertical part. */
  lemma OffsetOfMerge(h: byte, v: byte, containerSize: Float2, objectSize: Float2)
    requires h < 16 && v % 16 == 0
    ensures Offset(Merge(h, v), containerSize, objectSize) == Float2(HOffset(h, containerSize.x, objectSize.x), VOffset(v, containerSize.y, objectSize.y))
  {
    MergeThenGet(h, v);
  }
}
