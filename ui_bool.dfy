/**
 * UIBool8/16/32/64 (a packed set of named flags, bit i of the little-endian
 * value) and the global DisplayConfigBlock built on a UIBool8.
 *
 * UIBoolExtensions.Set is an extension method on the struct itself, so it
 * receives a copy: the bit is changed in that copy and the caller's field is
 * left as it was. SetBit below is what happens to the copy; the property
 * setters of DisplayConfigBlock show that nothing reaches the field.
 *
 * Get and Set as written add index / 8 to a TBool pointer, which moves by
 * whole values: GetAsWritten and SetBitAsWritten keep that reading, and the
 * rest of the model uses the byte offset evidently meant (Get, SetBit). The
 * two agree on UIBool8, the only UIBool the core's blocks use.
 */
module UiBool {
  import opened Bytes
  import opened Strings
  import opened ElementManager

  // ---------------------------------------------------------------- as written

  /**
   * The byte UIBoolExtensions.Get/Set address: `(&self) + index / 8` is
   * arithmetic on a TBool pointer, so it is index / 8 values of |self| bytes
   * past the value's first byte, not index / 8 bytes.
   */
  function ScaledOffset(self: seq<byte>, index: nat): nat
  {
    (index / 8) * |self|
  }

  /** Get as written: None stands for a read past the end of the value. */
  function GetAsWritten(self: seq<byte>, index: int): (r: Option<bool>)
  {
    if 0 <= index < 8 * |self| then
      var off := ScaledOffset(self, index);
      if off < |self| then Some(Bit(self[off], index % 8)) else None
    else Some(false)
  }

  /** Set as written, on its copy: None stands for a write past the end of the value. */
  function SetBitAsWritten(self: seq<byte>, index: int, state: bool): (r: Option<seq<byte>>)
  {
    if 0 <= index < 8 * |self| then
      var off := ScaledOffset(self, index);
      if off < |self| then Some(self[off := WithBit(self[off], index % 8, state)]) else None
    else Some(self)
  }

  /** For a UIBool8, and for the first 8 bits of any UIBool, the scaled offset is the byte offset: the two readings agree. */
  lemma AsWrittenAgrees(self: seq<byte>, index: int, state: bool)
    requires |self| == 1 || index < 8
    ensures GetAsWritten(self, index) == Some(Get(self, index))
    ensures SetBitAsWritten(self, index, state) == Some(SetBit(self, index, state))
  {
    if 0 <= index < 8 * |self| {
      assert index / 8 == 0 || |self| == 1;
      assert ScaledOffset(self, index) == index / 8;
    }
  }

  /** For a UIBool16/32/64, bits 8 and up are read and written outside the value (a UIBool16's bit 8 lies at byte 2). */
  lemma WideBitsOutside(self: seq<byte>, index: int, state: bool)
    requires |self| > 1 && 8 <= index < 8 * |self|
    ensures GetAsWritten(self, index).None? && SetBitAsWritten(self, index, state).None?
  {
    assert index / 8 >= 1;
    assert ScaledOffset(self, index) >= |self|;
  }

  // ---------------------------------------------------------------- corrected

  /** UIBoolExtensions.Get with the byte offset evidently meant: bit index % 8 of byte index / 8, false outside the value's 8 * size bits. */
  function Get(self: seq<byte>, index: int): (r: bool)
  {
    if 0 <= index < 8 * |self| then Bit(self[index / 8], index % 8) else false
  }

  /** The copy UIBoolExtensions.Set works on, after it sets (state) or clears (!state) bit index, at the byte offset evidently meant. */
  function SetBit(self: seq<byte>, index: int, state: bool): (r: seq<byte>)
    ensures |r| == |self|
  {
    if 0 <= index < 8 * |self| then self[index / 8 := WithBit(self[index / 8], index % 8, state)] else self
  }

  /** An index outside the value reads as false. */
  lemma GetOutside(self: seq<byte>, index: int)
    requires index < 0 || index >= 8 * |self|
    ensures !Get(self, index)
  {
  }

  /**
   * Setting bit index makes it read back as state and leaves every other bit;
   * an index outside the value changes nothing.
   */
  lemma SetThenGet(self: seq<byte>, index: int, state: bool, j: int)
    ensures Get(SetBit(self, index, state), j)
         == if j == index && 0 <= index < 8 * |self| then state else Get(self, j)
  {
    if 0 <= index < 8 * |self| && 0 <= j < 8 * |self| {
      WithBitSpec(self[index / 8], index % 8, state);
      if j / 8 == index / 8 {
        assert j % 8 == index % 8 <==> j == index;
      }
    }
  }

  /** Set with an index outside the value leaves the copy as it was. */
  lemma SetOutside(self: seq<byte>, index: int, state: bool)
    requires index < 0 || index >= 8 * |self|
    ensures SetBit(self, index, state) == self
  {
  }

  /** Only the byte holding the bit changes, and in it only that bit. */
  lemma SetTouchesOneByte(self: seq<byte>, index: int, state: bool, k: int)
    requires 0 <= k < |self| && k != index / 8
    ensures SetBit(self, index, state)[k] == self[k]
  {
  }

  // ---------------------------------------------------------------- DisplayConfigBlock

  /** DisplayConfigBlock has no block name and is global: every element carries it, required. */
  const DisplayBlockName: Option<string> := None
  const DisplayBlockGlobal: bool := true

  /** The UIBool attribute's bit names, bit 0 first. */
  const DisplayFlagNames: seq<string> := ["visible", "display"]

  /** The flags field: a UIBool8 at offset 0 of the block. */
  const FlagsField: Field := Field("flags", "NeroWeNeed.UIECS.UIBool8", 0, 1, false, None, BoolField(Some(DisplayFlagNames)), None, None)

  /** The two DefaultValue(true, k) attributes: bit offsets 0 and 1, both true. */
  const DisplayDefaults: seq<(nat, bool)> := [(0, true), (1, true)]

  /** The registered names are visible and display, bit offsets 0 and 1 of the one flags byte. */
  lemma DisplayProperties(hash: u64)
    ensures var r := FieldRegistrations(hash, DisplayBlockName, FlagsField);
      |r| == 2
      && r[0].name == "visible" && r[0].property == UIProperty(hash, 0, 1, 0)
      && r[1].name == "display" && r[1].property == UIProperty(hash, 0, 1, 1)
  {
    BoolFieldRegistrations(hash, DisplayBlockName, FlagsField, DisplayFlagNames);
  }

  /** The flags byte written from the defaults into a zero-filled block. */
  function DefaultFlags(): (r: byte)
  {
    WithBit(WithBit(0, DisplayDefaults[0].0, DisplayDefaults[0].1), DisplayDefaults[1].0, DisplayDefaults[1].1)
  }

  /** A block whose flags come from the defaults is visible and displayed. */
  lemma DefaultsShowNode()
    ensures Get([DefaultFlags()], 0) && Get([DefaultFlags()], 1)
  {
    var b0 := WithBit(0, 0, true);
    WithBitSpec(0, 0, true);
    WithBitSpec(b0, 1, true);
  }

  class DisplayConfigBlock {
    /** The UIBool8 flags: bit 0 visible, bit 1 display. */
    var flags: byte

    constructor (flags: byte)
      ensures this.flags == flags
    {
      this.flags := flags;
    }

    /** Visible reads bit 0 of flags. */
    function Visible(): bool
      reads this
    {
      Get([flags], 0)
    }

    /** Display reads bit 1 of flags. */
    function Display(): bool
      reads this
    {
      Get([flags], 1)
    }

    /** The Visible setter: UIBool.Set changes its own copy of flags, so the block keeps its flags. */
    method SetVisible(value: bool)
      modifies this
      ensures flags == old(flags)
      ensures Visible() == old(Visible()) && Display() == old(Display())
    {
      var copy := SetBit([flags], 0, value);
    }

    /** The Display setter: likewise lost. */
    method SetDisplay(value: bool)
      modifies this
      ensures flags == old(flags)
      ensures Visible() == old(Visible()) && Display() == old(Display())
    {
      var copy := SetBit([flags], 1, value);
    }

    /** The Visible setter as it was evidently meant, with the flags passed by reference. */
    method SetVisibleByRef(value: bool)
      modifies this
      ensures [flags] == SetBit([old(flags)], 0, value)
      ensures Visible() == value && Display() == old(Display())
    {
      var updated := SetBit([flags], 0, value);
      SetThenGet([flags], 0, value, 0);
      SetThenGet([flags], 0, value, 1);
      flags := updated[0];
      assert [flags] == updated;
    }

    /** The Display setter with the flags passed by reference. */
    method SetDisplayByRef(value: bool)
      modifies this
      ensures [flags] == SetBit([old(flags)], 1, value)
      ensures Display() == value && Visible() == old(Visible())
    {
      var updated := SetBit([flags], 1, value);
      SetThenGet([flags], 1, value, 0);
      SetThenGet([flags], 1, value, 1);
      flags := updated[0];
      assert [flags] == updated;
    }
  }
}
