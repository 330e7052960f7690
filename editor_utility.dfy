/**
 * UIEditorUtility: the converter's helpers for one node buffer. The block
 * list in ascending hash order, where a block's header sits, how a parsed
 * property value is written into the buffer (a single bit for bit
 * properties), and how a text value is appended to the extra-data stream.
 */
module EditorUtility {
  import opened Bytes
  import opened ConfigHandle
  import opened ElementManager
  import opened UiText
  import opened TextEncoding

  /** A property block type as the converter sees it: its full name and UnsafeUtility.SizeOf. */
  datatype BlockType = BlockType(fullName: string, size: nat)

  /** PropertyBlockInfo. */
  datatype PropertyBlockInfo = PropertyBlockInfo(blockType: BlockType, required: bool, hash: u64)

  ghost predicate SortedByHash(bs: seq<PropertyBlockInfo>)
  {
    forall i, j :: 0 <= i < j < |bs| ==> bs[i].hash <= bs[j].hash
  }

  /** Every block hash a list names is registered: GetPropertyBlock(hash) finds its type. */
  predicate AllRegistered(blockTypes: map<u64, BlockType>, globals: seq<u64>, elementBlocks: seq<UIElementPropertyBlock>)
  {
    (forall i :: 0 <= i < |globals| ==> globals[i] in blockTypes)
    && (forall i :: 0 <= i < |elementBlocks| ==> elementBlocks[i].blockHash in blockTypes)
  }

  /** The PropertyBlockInfo entry of a global block: always required. */
  function GlobalInfo(blockTypes: map<u64, BlockType>, hash: u64): PropertyBlockInfo
    requires hash in blockTypes
  {
    PropertyBlockInfo(blockTypes[hash], true, hash)
  }

  /** The PropertyBlockInfo entry of a block the element declares: required as declared. */
  function ElementInfo(blockTypes: map<u64, BlockType>, b: UIElementPropertyBlock): PropertyBlockInfo
    requires b.blockHash in blockTypes
  {
    PropertyBlockInfo(blockTypes[b.blockHash], IsRequired(b), b.blockHash)
  }

  /** The list GetPropertyBlocks builds before it sorts: the global blocks, then the element's own. */
  function Collected(blockTypes: map<u64, BlockType>, globals: seq<u64>, elementBlocks: seq<UIElementPropertyBlock>): (r: seq<PropertyBlockInfo>)
    requires AllRegistered(blockTypes, globals, elementBlocks)
    ensures |r| == |globals| + |elementBlocks|
    ensures forall i :: 0 <= i < |globals| ==> r[i] == GlobalInfo(blockTypes, globals[i])
    ensures forall i :: 0 <= i < |elementBlocks| ==> r[|globals| + i] == ElementInfo(blockTypes, elementBlocks[i])
  {
    seq(|globals|, i requires 0 <= i < |globals| => GlobalInfo(blockTypes, globals[i]))
    + seq(|elementBlocks|, i requires 0 <= i < |elementBlocks| => ElementInfo(blockTypes, elementBlocks[i]))
  }

  /** s with x inserted before the first entry whose hash is not smaller. */
  function Insert(x: PropertyBlockInfo, s: seq<PropertyBlockInfo>): (r: seq<PropertyBlockInfo>)
    ensures |r| == |s| + 1
  {
    if s == [] || x.hash <= s[0].hash then [x] + s else [s[0]] + Insert(x, s[1..])
  }

  /** Insert adds x and nothing else. */
  lemma {:induction false} InsertPermutes(x: PropertyBlockInfo, s: seq<PropertyBlockInfo>)
    ensures multiset(Insert(x, s)) == multiset(s) + multiset{x}
  {
    if !(s == [] || x.hash <= s[0].hash) {
      InsertPermutes(x, s[1..]);
      assert s == [s[0]] + s[1..];
    }
  }

  /** Insert keeps a list in hash order. */
  lemma {:induction false} InsertSorted(x: PropertyBlockInfo, s: seq<PropertyBlockInfo>)
    requires SortedByHash(s)
    ensures SortedByHash(Insert(x, s))
  {
    if !(s == [] || x.hash <= s[0].hash) {
      var t := Insert(x, s[1..]);
      InsertSorted(x, s[1..]);
      InsertAbove(x, s[1..], s[0].hash);
      assert Insert(x, s) == [s[0]] + t;
    }
  }

  /** A bound below x and below every entry of s is below every entry of Insert(x, s). */
  lemma {:induction false} InsertAbove(x: PropertyBlockInfo, s: seq<PropertyBlockInfo>, lo: int)
    requires lo <= x.hash && forall k :: 0 <= k < |s| ==> lo <= s[k].hash
    ensures forall k :: 0 <= k < |s| + 1 ==> lo <= Insert(x, s)[k].hash
  {
    if !(s == [] || x.hash <= s[0].hash) {
      InsertAbove(x, s[1..], lo);
      forall k | 0 <= k < |s| + 1 ensures lo <= Insert(x, s)[k].hash {
        if k > 0 {
          assert Insert(x, s)[k] == Insert(x, s[1..])[k - 1];
        }
      }
    }
  }


  /** List.Sort by hash: the result is in ascending hash order and holds the same entries. */
  method SortByHash(a: seq<PropertyBlockInfo>) returns (r: seq<PropertyBlockInfo>)
    ensures SortedByHash(r) && multiset(r) == multiset(a)
  {
    r := [];
    for i := 0 to |a|
      invariant SortedByHash(r) && multiset(r) == multiset(a[..i])
    {
      assert a[..i + 1] == a[..i] + [a[i]];
      InsertPermutes(a[i], r);
      InsertSorted(a[i], r);
      r := Insert(a[i], r);
    }
    assert a[..|a|] == a;
  }

  /**
   * GetPropertyBlocks: every global block as required, then every block the
   * element declares with its own required flag, sorted by hash. The
   * registry lookups are the maps and lists handed in.
   */
  method GetPropertyBlocks(blockTypes: map<u64, BlockType>, globals: seq<u64>, elementBlocks: seq<UIElementPropertyBlock>) returns (blocks: seq<PropertyBlockInfo>)
    requires AllRegistered(blockTypes, globals, elementBlocks)
    ensures SortedByHash(blocks)
    ensures multiset(blocks) == multiset(Collected(blockTypes, globals, elementBlocks))
  {
    blocks := [];
    for i := 0 to |globals|
      invariant blocks == Collected(blockTypes, globals[..i], [])
    {
      blocks := blocks + [GlobalInfo(blockTypes, globals[i])];
    }
    assert globals[..|globals|] == globals;
    for i := 0 to |elementBlocks|
      invariant blocks == Collected(blockTypes, globals, elementBlocks[..i])
    {
      blocks := blocks + [ElementInfo(blockTypes, elementBlocks[i])];
    }
    assert elementBlocks[..|elementBlocks|] == elementBlocks;
    blocks := SortByHash(blocks);
  }

  /**
   * What the sorted list holds: each global block (required), each declared
   * block (required as declared), and nothing else.
   */
  lemma GetPropertyBlocksContents(blockTypes: map<u64, BlockType>, globals: seq<u64>, elementBlocks: seq<UIElementPropertyBlock>, blocks: seq<PropertyBlockInfo>)
    requires AllRegistered(blockTypes, globals, elementBlocks)
    requires multiset(blocks) == multiset(Collected(blockTypes, globals, elementBlocks))
    ensures |blocks| == |globals| + |elementBlocks|
    ensures forall i :: 0 <= i < |globals| ==> GlobalInfo(blockTypes, globals[i]) in blocks
    ensures forall i :: 0 <= i < |elementBlocks| ==> ElementInfo(blockTypes, elementBlocks[i]) in blocks
    ensures forall b :: b in blocks ==>
      (exists i :: 0 <= i < |globals| && b == GlobalInfo(blockTypes, globals[i]))
      || (exists i :: 0 <= i < |elementBlocks| && b == ElementInfo(blockTypes, elementBlocks[i]))
  {
    var c := Collected(blockTypes, globals, elementBlocks);
    assert |blocks| == |multiset(blocks)| == |multiset(c)| == |c|;
    forall i | 0 <= i < |globals| ensures GlobalInfo(blockTypes, globals[i]) in blocks {
      assert c[i] in multiset(c);
    }
    forall i | 0 <= i < |elementBlocks| ensures ElementInfo(blockTypes, elementBlocks[i]) in blocks {
      assert c[|globals| + i] in multiset(c);
    }
    forall b | b in blocks
      ensures (exists i :: 0 <= i < |globals| && b == GlobalInfo(blockTypes, globals[i]))
           || (exists i :: 0 <= i < |elementBlocks| && b == ElementInfo(blockTypes, elementBlocks[i]))
    {
      assert b in multiset(c);
      var k :| 0 <= k < |c| && c[k] == b;
      if k >= |globals| {
        assert c[|globals| + (k - |globals|)] == b;
      }
    }
  }

  /** The bytes the first n blocks take: each block's header plus its payload. */
  function Span(blocks: seq<PropertyBlockInfo>): (r: nat)
    ensures r >= BH * |blocks|
  {
    if blocks == [] then 0 else Span(blocks[..|blocks| - 1]) + BH + blocks[|blocks| - 1].blockType.size
  }

  /** List.FindIndex on the block's full name: the first match, or -1. */
  function FindIndex(blocks: seq<PropertyBlockInfo>, name: string): (r: int)
    ensures -1 <= r < |blocks|
    ensures r == -1 <==> forall i :: 0 <= i < |blocks| ==> blocks[i].blockType.fullName != name
    ensures r >= 0 ==> blocks[r].blockType.fullName == name && forall i :: 0 <= i < r ==> blocks[i].blockType.fullName != name
  {
    if blocks == [] then -1
    else if blocks[0].blockType.fullName == name then 0
    else
      var k := FindIndex(blocks[1..], name);
      if k == -1 then -1 else k + 1
  }

  /**
   * GetPropertyBlockOffset over the element's block list: -1 when no block has
   * the name, otherwise RH + CH plus header and payload of every earlier block.
   */
  method GetPropertyBlockOffset(blocks: seq<PropertyBlockInfo>, propertyBlockName: string) returns (offset: int)
    ensures offset == -1 <==> forall i :: 0 <= i < |blocks| ==> blocks[i].blockType.fullName != propertyBlockName
    ensures offset != -1 ==> offset == FirstBlock + Span(blocks[..FindIndex(blocks, propertyBlockName)])
  {
    offset := RH + CH;
    var index := FindIndex(blocks, propertyBlockName);
    if index < 0 {
      return -1;
    }
    for i := 0 to index
      invariant offset == FirstBlock + Span(blocks[..i])
    {
      assert blocks[..i + 1][..i] == blocks[..i];
      offset := offset + (BH + blocks[i].blockType.size);
    }
  }

  /** The byte a bit property lives in: its bit offset counts from the field's first byte. */
  function BitByte(offset: int, fieldOffset: int, bitOffset: nat): int
  {
    offset + fieldOffset + bitOffset / 8
  }

  /** The buffer after HandleProperty's bit path writes parsed value v. */
  function WithFlag(buffer: seq<byte>, at: nat, bitOffset: nat, v: bool): (r: seq<byte>)
    requires at < |buffer|
  {
    buffer[at := WithBit(buffer[at], bitOffset % 8, v)]
  }

  /**
   * The bit path writes exactly one bit: bit bitOffset % 8 of the byte at
   * offset + fieldOffset + bitOffset / 8 becomes v; every other bit of that byte
   * and every other byte keeps its value.
   */
  lemma WithFlagSpec(buffer: seq<byte>, at: nat, bitOffset: nat, v: bool)
    requires at < |buffer|
    ensures |WithFlag(buffer, at, bitOffset, v)| == |buffer|
    ensures Bit(WithFlag(buffer, at, bitOffset, v)[at], bitOffset % 8) == v
    ensures forall j :: 0 <= j < 8 && j != bitOffset % 8 ==> Bit(WithFlag(buffer, at, bitOffset, v)[at], j) == Bit(buffer[at], j)
    ensures forall i :: 0 <= i < |buffer| && i != at ==> WithFlag(buffer, at, bitOffset, v)[i] == buffer[i]
  {
    WithBitSpec(buffer[at], bitOffset % 8, v);
  }

  /** HandleProperty takes the bit path for UIBool (or bool) properties that have a bit offset. */
  predicate BitPath(isBoolType: bool, bitOffset: int)
  {
    isBoolType && bitOffset >= 0
  }

  /** The bytes that HandleProperty writes where: what it leaves in the buffer. */
  function Handled(buffer: seq<byte>, offset: int, fieldOffset: int, bitOffset: int, isBoolType: bool,
                   parsedBool: Option<bool>, parsedValue: Option<seq<byte>>): seq<byte>
    requires BitPath(isBoolType, bitOffset) && parsedBool.Some? ==> 0 <= BitByte(offset, fieldOffset, bitOffset) < |buffer|
    requires !BitPath(isBoolType, bitOffset) && parsedValue.Some? ==> 0 <= offset + fieldOffset && offset + fieldOffset + |parsedValue.value| <= |buffer|
  {
    if BitPath(isBoolType, bitOffset) then
      if parsedBool.Some? then WithFlag(buffer, BitByte(offset, fieldOffset, bitOffset), bitOffset, parsedBool.value) else buffer
    else if parsedValue.Some? then Splice(buffer, offset + fieldOffset, parsedValue.value)
    else buffer
  }

  /**
   * HandleProperty: writes a parsed property value into the node buffer. The
   * parser is the caller's: parsedBool is its answer on the bit path and
   * parsedValue the bytes of the value on the other, None when it fails, in
   * which case the error is only logged and nothing is written.
   */
  method HandleProperty(configBuffer: array<byte>, offset: int, fieldOffset: int, bitOffset: int, isBoolType: bool,
                        parsedBool: Option<bool>, parsedValue: Option<seq<byte>>)
    requires BitPath(isBoolType, bitOffset) && parsedBool.Some? ==> 0 <= BitByte(offset, fieldOffset, bitOffset) < configBuffer.Length
    requires !BitPath(isBoolType, bitOffset) && parsedValue.Some? ==> 0 <= offset + fieldOffset && offset + fieldOffset + |parsedValue.value| <= configBuffer.Length
    modifies configBuffer
    ensures configBuffer[..] == Handled(old(configBuffer[..]), offset, fieldOffset, bitOffset, isBoolType, parsedBool, parsedValue)
  {
    if isBoolType && bitOffset >= 0 {
      if parsedBool.Some? {
        var destination := offset + fieldOffset + bitOffset / 8;
        var output: byte;
        if parsedBool.value {
          output := WithBit(configBuffer[destination], bitOffset % 8, true);
        } else {
          output := WithBit(configBuffer[destination], bitOffset % 8, false);
        }
        configBuffer[destination] := output;
      }
    } else if parsedValue.Some? {
      CopyTo(configBuffer, offset + fieldOffset, parsedValue.value);
    }
  }

  /** The value path copies the value's bytes to offset + fieldOffset and touches nothing else. */
  lemma HandledValue(buffer: seq<byte>, offset: int, fieldOffset: int, bitOffset: int, isBoolType: bool, value: seq<byte>)
    requires !BitPath(isBoolType, bitOffset)
    requires 0 <= offset + fieldOffset && offset + fieldOffset + |value| <= |buffer|
    ensures var r := Handled(buffer, offset, fieldOffset, bitOffset, isBoolType, Option.None, Some(value));
      |r| == |buffer| && r[offset + fieldOffset..offset + fieldOffset + |value|] == value
      && forall i :: 0 <= i < |buffer| && !(offset + fieldOffset <= i < offset + fieldOffset + |value|) ==> r[i] == buffer[i]
  {
  }

  /** A failed parse writes nothing, on either path. */
  lemma HandledFailure(buffer: seq<byte>, offset: int, fieldOffset: int, bitOffset: int, isBoolType: bool)
    ensures Handled(buffer, offset, fieldOffset, bitOffset, isBoolType, Option.None, Option.None) == buffer
  {
  }

  /** Two bit properties of one byte written in turn: each holds its own value. */
  lemma TwoFlags(buffer: seq<byte>, at: nat, b1: nat, v1: bool, b2: nat, v2: bool)
    requires at < |buffer| && b1 % 8 != b2 % 8
    ensures Bit(WithFlag(WithFlag(buffer, at, b1, v1), at, b2, v2)[at], b1 % 8) == v1
    ensures Bit(WithFlag(WithFlag(buffer, at, b1, v1), at, b2, v2)[at], b2 % 8) == v2
  {
    WithFlagSpec(buffer, at, b1, v1);
    WithFlagSpec(WithFlag(buffer, at, b1, v1), at, b2, v2);
  }

  /** MemoryBinaryWriter: an append-only byte stream. */
  class BinaryStream {
    var bytes: seq<byte>

    constructor ()
      ensures bytes == []
    {
      bytes := [];
    }

    function Length(): nat
      reads this
    {
      |bytes|
    }

    method Write(b: seq<byte>)
      modifies this
      ensures bytes == old(bytes) + b
    {
      bytes := bytes + b;
    }
  }

  /** C#'s str?.Length ?? 0: the UTF-16 length, 0 for null. */
  function TextLength(str: Option<string>): nat
  {
    if str.None? then 0 else Utf16Length(str.value)
  }

  /** The UTF-8 bytes that are written: none for a null or empty string. */
  function TextBytes(str: Option<string>): seq<byte>
  {
    if str.None? || str.value == [] then [] else Utf8Encode(str.value)
  }

  /** What TryParseUIText appends: the int32 length, the UTF-8 mark, the UTF-8 bytes and a NUL. */
  function TextRecord(str: Option<string>): seq<byte>
  {
    Int32Bytes(TextLength(str)) + Preamble + TextBytes(str) + [0]
  }

  /**
   * TryParseUIText: the text's offset is the stream length before anything is
   * written, and then the record is appended. It never fails.
   */
  method TryParseUIText(str: Option<string>, extraDataStream: BinaryStream) returns (ok: bool, text: UIText)
    modifies extraDataStream
    ensures ok && text == UIText(old(extraDataStream.Length()))
    ensures extraDataStream.bytes == old(extraDataStream.bytes) + TextRecord(str)
  {
    text := UIText(extraDataStream.Length());
    extraDataStream.Write(Int32Bytes(if str.None? then 0 else Utf16Length(str.value)));
    extraDataStream.Write(Preamble);
    if !(str.None? || str.value == []) {
      extraDataStream.Write(Utf8Encode(str.value));
    }
    extraDataStream.Write([0]);
    ok := true;
  }

  /** A null or empty string appends exactly eight bytes: length 0, the mark, and the NUL. */
  lemma EmptyTextRecord(str: Option<string>)
    requires str.None? || str.value == []
    ensures TextRecord(str) == [0, 0, 0, 0, 0xEF, 0xBB, 0xBF, 0]
  {
    assert TextLength(str) == 0;
  }

  /** Where the parts of a text record sit once it is placed after before. */
  lemma RecordLayout(before: seq<byte>, s: string, after: seq<byte>)
    ensures var extra := before + TextRecord(Some(s)) + after;
      var at := |before|;
      at + 4 <= |extra|
      && extra[at..at + 4] == Int32Bytes(Utf16Length(s))
      && extra[at + 4..] == Preamble + (Utf8Encode(s) + ([0] + after))
  {
    var u := TextBytes(Some(s));
    assert u == Utf8Encode(s) by {
      if s == [] { assert Utf8Encode(s) == []; }
    }
    var len := Int32Bytes(Utf16Length(s));
    var extra := before + TextRecord(Some(s)) + after;
    assert extra == (before + len) + (Preamble + (u + ([0] + after)));
  }

  /** The UTF-8 mark at the start of what follows the length is recognised. */
  lemma MarkIsUtf8(rest: seq<byte>)
    ensures GetEncoding(Preamble + rest) == UTF8
  {
    assert StartsWith(Preamble + rest, Bom(UTF8));
  }

  /**
   * The writer and the readers agree: in extra data that holds a text record
   * at offset at, GetTextLength reads the string's UTF-16 length, the mark is
   * recognised as UTF-8, and a UTF8CodePointEnumerator made at that offset
   * (skipping the length and the mark) yields the string's scalar values and
   * stops at the NUL.
   */
  lemma TextRecordReadBack(before: seq<byte>, s: string, after: seq<byte>)
    requires NoNul(s) && Utf16Length(s) < TwoTo31
    ensures var extra := before + TextRecord(Some(s)) + after;
      var at := |before|;
      at + 4 <= |extra|
      && GetTextLength(extra, at) == Utf16Length(s)
      && HandleEncoding(extra, at) == UTF8
      && GetTextContent(extra, at) == at + CharacterOffset
      && CodePoints(Tail(extra, at + LengthSize + PreambleSize), 0, 0) == Scalars(s)
  {
    RecordLayout(before, s, after);
    ReadBackAt(before + TextRecord(Some(s)) + after, |before|, s, after);
  }

  /** The read-back facts for a record whose length and preamble sit at at, whatever surrounds it. */
  lemma ReadBackAt(extra: seq<byte>, at: nat, s: string, after: seq<byte>)
    requires NoNul(s) && Utf16Length(s) < TwoTo31
    requires at + 4 <= |extra| && extra[at..at + 4] == Int32Bytes(Utf16Length(s))
    requires extra[at + 4..] == Preamble + (Utf8Encode(s) + ([0] + after))
    ensures GetTextLength(extra, at) == Utf16Length(s)
      && HandleEncoding(extra, at) == UTF8
      && GetTextContent(extra, at) == at + CharacterOffset
      && CodePoints(Tail(extra, at + LengthSize + PreambleSize), 0, 0) == Scalars(s)
  {
    LengthRead(extra, at, Utf16Length(s));
    MarkRead(extra, at, Utf8Encode(s) + ([0] + after));
    ContentRead(extra, at, s, after);
  }

  lemma LengthRead(extra: seq<byte>, at: nat, n: int)
    requires -TwoTo31 <= n < TwoTo31 && at + 4 <= |extra| && extra[at..at + 4] == Int32Bytes(n)
    ensures GetTextLength(extra, at) == n
  {
    Int32RoundTrip(n);
  }

  lemma MarkRead(extra: seq<byte>, at: nat, tail: seq<byte>)
    requires at + 4 <= |extra| && extra[at + 4..] == Preamble + tail
    ensures HandleEncoding(extra, at) == UTF8 && GetTextContent(extra, at) == at + CharacterOffset
  {
    MarkIsUtf8(tail);
  }

  lemma ContentRead(extra: seq<byte>, at: nat, s: string, after: seq<byte>)
    requires NoNul(s)
    requires at + 4 <= |extra| && extra[at + 4..] == Preamble + (Utf8Encode(s) + ([0] + after))
    ensures CodePoints(Tail(extra, at + LengthSize + PreambleSize), 0, 0) == Scalars(s)
  {
    var tail := Utf8Encode(s) + ([0] + after);
    assert extra[at + 7..] == tail by {
      assert extra[at + 7..] == extra[at + 4..][3..];
    }
    DecodeEncoded([], s, [0] + after, 0);
    assert [] + Utf8Encode(s) + ([0] + after) == tail;
  }
}
