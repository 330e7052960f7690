/**
 * The packed node buffer
 *   [UIRuntimeDataHeader][UIModelConfigHeader]([UIModelConfigPropertyBlockHeader][payload])*
 * with its three header records, the header chain that runs through the
 * blocks, and UIConfigHandleEnumerator, which walks that chain.
 */
module ConfigHandle {
  import opened Bytes
  import opened Floats

  /** sizeof(UIRuntimeDataHeader): float4 constraints, float2 size, float2 position. */
  const RH: nat := 32
  /** sizeof(UIModelConfigHeader): int length, ulong element, int count (8-byte aligned). */
  const CH: nat := 24
  /** sizeof(UIModelConfigPropertyBlockHeader): int length, ulong hash, byte enabled (8-byte aligned). */
  const BH: nat := 24

  /** Field offsets inside the config header and inside a block header. */
  const LengthAt: nat := 0
  const HashAt: nat := 8
  const FlagAt: nat := 16

  /** Where the first block header sits. */
  const FirstBlock: nat := RH + CH

  /** UIRuntimeDataHeader; its floats are kept as values (see README). */
  datatype RuntimeHeader = RuntimeHeader(constraints: Float4, size: Float2, position: Float2)

  const DefaultRuntime: RuntimeHeader := RuntimeHeader(Zero4, Zero2, Zero2)

  /** UIModelConfigHeader. */
  datatype ConfigHeader = ConfigHeader(length: int, element: u64, count: int)

  /** UIModelConfigPropertyBlockHeader. */
  datatype BlockHeader = BlockHeader(length: int, hash: u64, enabled: byte)

  function EncodeConfigHeader(h: ConfigHeader): (r: seq<byte>)
    ensures |r| == CH
  {
    Int32Bytes(h.length) + Zeros(4) + LE(h.element, 8) + Int32Bytes(h.count) + Zeros(4)
  }

  function EncodeBlockHeader(h: BlockHeader): (r: seq<byte>)
    ensures |r| == BH
  {
    Int32Bytes(h.length) + Zeros(4) + LE(h.hash, 8) + [h.enabled] + Zeros(7)
  }

  function DecodeConfigHeader(b: seq<byte>): ConfigHeader
    requires |b| == CH
  {
    ConfigHeader(Int32Of(b[LengthAt..LengthAt + 4]), UInt64Of(b[HashAt..HashAt + 8]), Int32Of(b[FlagAt..FlagAt + 4]))
  }

  function DecodeBlockHeader(b: seq<byte>): BlockHeader
    requires |b| == BH
  {
    BlockHeader(Int32Of(b[LengthAt..LengthAt + 4]), UInt64Of(b[HashAt..HashAt + 8]), b[FlagAt])
  }

  /** The config header as read from the buffer. */
  function ReadConfigHeader(data: seq<byte>): ConfigHeader
    requires |data| >= FirstBlock
  {
    DecodeConfigHeader(data[RH..FirstBlock])
  }

  /** The block header at offset at, as read from the buffer. */
  function ReadBlockHeader(data: seq<byte>, at: nat): BlockHeader
    requires at + BH <= |data|
  {
    DecodeBlockHeader(data[at..at + BH])
  }

  /** Decoding an encoded config header gives it back, its ints wrapped to 32 bits. */
  lemma ConfigHeaderRoundTrip(h: ConfigHeader)
    ensures DecodeConfigHeader(EncodeConfigHeader(h)) == ConfigHeader(Wrap32(h.length), h.element, Wrap32(h.count))
  {
    var e := EncodeConfigHeader(h);
    assert e[LengthAt..LengthAt + 4] == Int32Bytes(h.length);
    assert e[HashAt..HashAt + 8] == LE(h.element, 8);
    assert e[FlagAt..FlagAt + 4] == Int32Bytes(h.count);
    Int32RoundTrip(h.length);
    UInt64RoundTrip(h.element);
    Int32RoundTrip(h.count);
  }

  /** Decoding an encoded block header gives it back, its length wrapped to 32 bits. */
  lemma BlockHeaderRoundTrip(h: BlockHeader)
    ensures DecodeBlockHeader(EncodeBlockHeader(h)) == BlockHeader(Wrap32(h.length), h.hash, h.enabled)
  {
    var e := EncodeBlockHeader(h);
    assert e[LengthAt..LengthAt + 4] == Int32Bytes(h.length);
    assert e[HashAt..HashAt + 8] == LE(h.hash, 8);
    Int32RoundTrip(h.length);
    UInt64RoundTrip(h.hash);
  }

  /** UIConfigHandle.PropertyBlockCount: the count field of the config header after the runtime header. */
  function PropertyBlockCount(data: seq<byte>): (r: int)
    requires |data| >= FirstBlock
    ensures -TwoTo31 <= r < TwoTo31
  {
    ReadConfigHeader(data).count
  }

  /** A buffer whose config header was written from h reports h's count, wrapped to 32 bits, whatever the other bytes hold. */
  lemma PropertyBlockCountWritten(data: seq<byte>, h: ConfigHeader)
    requires |data| >= FirstBlock && data[RH..FirstBlock] == EncodeConfigHeader(h)
    ensures PropertyBlockCount(data) == Wrap32(h.count)
  {
    ConfigHeaderRoundTrip(h);
  }

  /** How many headers the chain holds: a negative count means none. */
  function BlockTotal(data: seq<byte>): nat
    requires |data| >= FirstBlock
  {
    var c := PropertyBlockCount(data);
    if c < 0 then 0 else c
  }

  /** The offset after the header at at: its length plus the header itself. */
  function NextHeader(data: seq<byte>, at: nat): int
    requires at + BH <= |data|
  {
    at + ReadBlockHeader(data, at).length + BH
  }

  /** n block headers can be read one after another starting at offset at. */
  ghost predicate Chain(data: seq<byte>, at: int, n: nat)
    decreases n
  {
    n == 0 || (0 <= at && at + BH <= |data| && Chain(data, NextHeader(data, at), n - 1))
  }

  /** A header of the chain with the offset it sits at. */
  datatype Entry = Entry(at: nat, header: BlockHeader)

  /** The n headers of the chain that starts at at. */
  function Headers(data: seq<byte>, at: int, n: nat): (r: seq<Entry>)
    requires Chain(data, at, n)
    ensures |r| == n
    ensures n > 0 ==> r[0] == Entry(at, ReadBlockHeader(data, at))
    decreases n
  {
    if n == 0 then [] else [Entry(at, ReadBlockHeader(data, at))] + Headers(data, NextHeader(data, at), n - 1)
  }

  /** A buffer the runtime can walk: complete headers and a readable chain of count block headers. */
  ghost predicate WellFormed(data: seq<byte>)
  {
    |data| >= FirstBlock && Chain(data, FirstBlock, BlockTotal(data))
  }

  /** The block headers of a well-formed buffer in buffer order. */
  function Blocks(data: seq<byte>): (r: seq<Entry>)
    requires WellFormed(data)
    ensures |r| == BlockTotal(data)
  {
    Headers(data, FirstBlock, BlockTotal(data))
  }

  /**
   * Offset of the i-th header of a chain: the chain start plus, for every
   * earlier header, its length and the header size. Index n is one past the end.
   */
  function HeaderOffset(data: seq<byte>, at: int, n: nat, i: nat): (r: int)
    requires Chain(data, at, n) && i <= n
    decreases i
  {
    if i == 0 then at else HeaderOffset(data, NextHeader(data, at), n - 1, i - 1)
  }

  /** Each chain entry sits at its HeaderOffset, and each next offset adds length + BH. */
  lemma {:induction false} HeaderOffsets(data: seq<byte>, at: int, n: nat, i: nat)
    requires Chain(data, at, n) && i < n
    ensures Headers(data, at, n)[i].at == HeaderOffset(data, at, n, i)
    ensures HeaderOffset(data, at, n, i + 1)
         == HeaderOffset(data, at, n, i) + Headers(data, at, n)[i].header.length + BH
    decreases i
  {
    if i > 0 {
      HeaderOffsets(data, NextHeader(data, at), n - 1, i - 1);
    }
  }

  /** The tail of a chain is the chain from the next header on. */
  lemma {:induction false} HeadersTail(data: seq<byte>, at: int, n: nat, i: nat)
    requires Chain(data, at, n) && i <= n
    ensures Chain(data, HeaderOffset(data, at, n, i), n - i)
    ensures Headers(data, at, n)[i..] == Headers(data, HeaderOffset(data, at, n, i), n - i)
    decreases i
  {
    if i > 0 {
      HeadersTail(data, NextHeader(data, at), n - 1, i - 1);
    }
  }

  /** The pointer pair of UIConfigHandleEnumerator.Item; NoItem is the default (null) item. */
  datatype Item = NoItem | Item(header: int, data: int)

  /** UIConfigHandleEnumerator: a cursor over the block headers of one buffer. */
  class ConfigEnumerator {
    const data: seq<byte>
    const blockCount: int
    var offset: int
    var index: int
    var current: Item

    ghost predicate Valid()
      reads this
    {
      WellFormed(data) && blockCount == PropertyBlockCount(data)
      && -1 <= index <= BlockTotal(data)
      && (index == -1 ==> offset == 0 && current == NoItem)
      && (index >= 0 ==> offset == HeaderOffset(data, FirstBlock, BlockTotal(data), index)
                         && current == Item(offset, offset + BH))
    }

    constructor (buffer: seq<byte>)
      requires WellFormed(buffer)
      ensures Valid() && data == buffer && index == -1
    {
      data := buffer;
      blockCount := PropertyBlockCount(buffer);
      index := -1;
      offset := 0;
      current := NoItem;
    }

    /**
     * MoveNext: the first call moves to RH + CH, each later call moves past the
     * current header's length and the header itself; true for the first count calls.
     * It may be called until it has returned false once.
     */
    method MoveNext() returns (more: bool)
      requires Valid() && (index < BlockTotal(data) || index == -1)
      modifies this
      ensures Valid() && index == old(index) + 1
      ensures old(index) < 0 ==> offset == FirstBlock
      ensures old(index) >= 0 ==> offset == old(offset) + Blocks(data)[old(index)].header.length + BH
      ensures current == Item(offset, offset + BH)
      ensures index < BlockTotal(data) ==> current.header == Blocks(data)[index].at
      ensures more <==> index < blockCount
    {
      ghost var n := BlockTotal(data);
      if index < 0 {
        offset := offset + (RH + CH);
      } else {
        HeaderOffsets(data, FirstBlock, n, index);
        HeadersTail(data, FirstBlock, n, index);
        offset := offset + (ReadBlockHeader(data, offset).length + BH);
      }
      index := index + 1;
      current := Item(offset, offset + BH);
      if index < n {
        HeaderOffsets(data, FirstBlock, n, index);
      }
      more := index < blockCount;
    }

    /** Reset: back to the state the constructor left. */
    method Reset()
      requires Valid()
      modifies this
      ensures Valid() && index == -1 && offset == 0 && current == NoItem
    {
      index := -1;
      offset := 0;
      current := NoItem;
    }
  }

  /** The items a full enumeration yields: each header address with its payload right after it. */
  function Yielded(data: seq<byte>): (r: seq<Item>)
    requires WellFormed(data)
    ensures |r| == BlockTotal(data)
    ensures forall i :: 0 <= i < |r| ==> r[i] == Item(Blocks(data)[i].at, Blocks(data)[i].at + BH)
  {
    var b := Blocks(data);
    seq(|b|, i requires 0 <= i < |b| => Item(b[i].at, b[i].at + BH))
  }

  /** Enumerating the whole buffer: the items of the calls that returned true are Yielded(data). */
  method EnumerateAll(data: seq<byte>) returns (items: seq<Item>)
    requires WellFormed(data)
    ensures items == Yielded(data)
  {
    var e := new ConfigEnumerator(data);
    items := [];
    var more := e.MoveNext();
    while more
      invariant e.Valid() && e.data == data && 0 <= e.index
      invariant |items| == e.index
      invariant more <==> e.index < BlockTotal(data)
      invariant more ==> e.current == Item(Blocks(data)[e.index].at, Blocks(data)[e.index].at + BH)
      invariant items == Yielded(data)[..e.index]
      decreases BlockTotal(data) - e.index
    {
      items := items + [e.current];
      more := e.MoveNext();
    }
  }
}
