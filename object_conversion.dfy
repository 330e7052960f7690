/**
 * UIObjectConversionSystem.CreateNodeConfigBuffers, the producer of the node
 * buffer: one pass over the sorted block list computes every header offset,
 * the buffer size and the headers; then the buffer is cleared and the
 * runtime header, the config header and the block headers are written. The
 * lemmas close the loop with the runtime: the buffer it builds is one the
 * header walk accepts, the walk meets the blocks in list order at the offsets
 * the producer chose, and the early-exit scan finds every block.
 */
module ObjectConversion {
  import opened Bytes
  import opened ConfigHandle
  import Ext = ConfigHandleExtensions
  import opened EditorUtility
  import opened UiText
  import TextEncoding

  /** The header written for a block: its size cast to ushort, its hash, and 1 iff it is required. */
  function HeaderOf(b: PropertyBlockInfo): BlockHeader
  {
    BlockHeader(b.blockType.size % TwoTo16, b.hash, if b.required then 1 else 0)
  }

  /** The config header: the length of all blocks with their headers, the element, and the count cast to byte. */
  function ConfigHeaderOf(blocks: seq<PropertyBlockInfo>, element: u64): ConfigHeader
  {
    ConfigHeader(Span(blocks), element, |blocks| % TwoTo8)
  }

  /** The blocks as they follow the config header once their headers are written: header, then zeroed payload. */
  function Body(blocks: seq<PropertyBlockInfo>): (r: seq<byte>)
    ensures |r| == Span(blocks)
  {
    if blocks == [] then []
    else
      var last := blocks[|blocks| - 1];
      Body(blocks[..|blocks| - 1]) + EncodeBlockHeader(HeaderOf(last)) + Zeros(last.blockType.size)
  }

  /** The whole buffer before defaults and property values: zeroed runtime header, config header, blocks. */
  function Layout(blocks: seq<PropertyBlockInfo>, element: u64): (r: seq<byte>)
    ensures |r| == FirstBlock + Span(blocks)
  {
    Zeros(RH) + EncodeConfigHeader(ConfigHeaderOf(blocks, element)) + Body(blocks)
  }

  /** The offsets dictionary, keyed by block type: a later block of the same type overwrites the entry. */
  function Offsets(blocks: seq<PropertyBlockInfo>): map<string, nat>
  {
    if blocks == [] then map[]
    else
      var last := blocks[|blocks| - 1];
      Offsets(blocks[..|blocks| - 1])[last.blockType.fullName := FirstBlock + Span(blocks[..|blocks| - 1])]
  }

  predicate DistinctTypes(blocks: seq<PropertyBlockInfo>)
  {
    forall i, j :: 0 <= i < j < |blocks| ==> blocks[i].blockType.fullName != blocks[j].blockType.fullName
  }

  predicate DistinctHashes(blocks: seq<PropertyBlockInfo>)
  {
    forall i, j :: 0 <= i < j < |blocks| ==> blocks[i].hash != blocks[j].hash
  }

  /** The list fits the header fields: the count fits a byte and each size a ushort. */
  predicate Encodable(blocks: seq<PropertyBlockInfo>)
  {
    |blocks| < TwoTo8 && forall i :: 0 <= i < |blocks| ==> blocks[i].blockType.size < TwoTo16
  }

  /**
   * The layout loop: block i's header goes at RH + CH plus the header and payload of
   * every earlier block, the buffer is that sum over all blocks, the config header's
   * length is the same sum without the two fixed headers, and its count is the block
   * count cast to a byte.
   */
  method ComputeLayout(blocks: seq<PropertyBlockInfo>, element: u64)
    returns (configHeader: ConfigHeader, blockHeaders: seq<BlockHeader>, offsets: map<string, nat>, configBufferSize: nat)
    ensures configHeader == ConfigHeaderOf(blocks, element)
    ensures configBufferSize == FirstBlock + Span(blocks)
    ensures |blockHeaders| == |blocks| && forall i :: 0 <= i < |blocks| ==> blockHeaders[i] == HeaderOf(blocks[i])
    ensures offsets == Offsets(blocks)
  {
    configHeader := ConfigHeader(0, element, |blocks| % TwoTo8);
    configBufferSize := RH + CH;
    offsets := map[];
    blockHeaders := [];
    for i := 0 to |blocks|
      invariant configBufferSize == FirstBlock + Span(blocks[..i])
      invariant configHeader == ConfigHeader(Span(blocks[..i]), element, |blocks| % TwoTo8)
      invariant offsets == Offsets(blocks[..i])
      invariant |blockHeaders| == i && forall j :: 0 <= j < i ==> blockHeaders[j] == HeaderOf(blocks[j])
    {
      assert blocks[..i + 1][..i] == blocks[..i];
      var size := blocks[i].blockType.size;
      offsets := offsets[blocks[i].blockType.fullName := configBufferSize];
      configBufferSize := configBufferSize + (BH + size);
      configHeader := configHeader.(length := configHeader.length + (size + BH));
      blockHeaders := blockHeaders + [BlockHeader(size % TwoTo16, blocks[i].hash, if blocks[i].required then 1 else 0)];
    }
    assert blocks[..|blocks|] == blocks;
  }

  lemma {:induction false} SpanPrefix(blocks: seq<PropertyBlockInfo>, i: nat)
    requires i < |blocks|
    ensures Span(blocks[..i + 1]) == Span(blocks[..i]) + BH + blocks[i].blockType.size
    ensures Span(blocks[..i + 1]) <= Span(blocks)
    decreases |blocks|
  {
    assert blocks[..i + 1][..i] == blocks[..i];
    if i + 1 < |blocks| {
      var init := blocks[..|blocks| - 1];
      assert init[..i + 1] == blocks[..i + 1] && init[..i] == blocks[..i];
      SpanPrefix(init, i);
    } else {
      assert blocks[..i + 1] == blocks;
    }
  }

  /** Every offset in the dictionary leaves room for a whole header inside the buffer. */
  lemma {:induction false} OffsetsFit(blocks: seq<PropertyBlockInfo>)
    ensures forall i :: 0 <= i < |blocks| ==> blocks[i].blockType.fullName in Offsets(blocks)
    ensures forall k :: k in Offsets(blocks) ==> FirstBlock <= Offsets(blocks)[k] && Offsets(blocks)[k] + BH <= FirstBlock + Span(blocks)
  {
    if blocks != [] {
      var init := blocks[..|blocks| - 1];
      OffsetsFit(init);
      forall i | 0 <= i < |init| ensures blocks[i] == init[i] { }
    }
  }

  /** With one block per type, the dictionary maps each block's type to where its header goes. */
  lemma {:induction false} OffsetsOfDistinct(blocks: seq<PropertyBlockInfo>)
    requires DistinctTypes(blocks)
    ensures forall i :: 0 <= i < |blocks| ==>
      blocks[i].blockType.fullName in Offsets(blocks) && Offsets(blocks)[blocks[i].blockType.fullName] == FirstBlock + Span(blocks[..i])
  {
    if blocks != [] {
      var n := |blocks|;
      var init := blocks[..n - 1];
      assert DistinctTypes(init);
      OffsetsOfDistinct(init);
      forall i | 0 <= i < n
        ensures blocks[i].blockType.fullName in Offsets(blocks) && Offsets(blocks)[blocks[i].blockType.fullName] == FirstBlock + Span(blocks[..i])
      {
        if i < n - 1 {
          assert blocks[i] == init[i] && init[..i] == blocks[..i];
        }
      }
    }
  }

  /**
   * The block-header loop: the headers written one after another at the
   * dictionary's offsets. The layout pass leaves an entry in range for every
   * block (OffsetsFit), so the guard only keeps the function total.
   */
  function WriteBlockHeaders(buffer: seq<byte>, blocks: seq<PropertyBlockInfo>, offsets: map<string, nat>, i: nat): (r: seq<byte>)
    requires i <= |blocks|
    ensures |r| == |buffer|
  {
    if i == 0 then buffer
    else
      var prev := WriteBlockHeaders(buffer, blocks, offsets, i - 1);
      var key := blocks[i - 1].blockType.fullName;
      if key in offsets && offsets[key] + BH <= |prev| then Splice(prev, offsets[key], EncodeBlockHeader(HeaderOf(blocks[i - 1])))
      else prev
  }

  /** What MemClear and the two fixed-header copies leave: the zeroed runtime header, the config header, zeros. */
  function Cleared(blocks: seq<PropertyBlockInfo>, element: u64): (r: seq<byte>)
    ensures |r| == FirstBlock + Span(blocks)
  {
    Zeros(RH) + EncodeConfigHeader(ConfigHeaderOf(blocks, element)) + Zeros(Span(blocks))
  }

  /** The buffer after the header writes of CreateNodeConfigBuffers. */
  function Built(blocks: seq<PropertyBlockInfo>, element: u64): (r: seq<byte>)
    ensures |r| == FirstBlock + Span(blocks)
  {
    WriteBlockHeaders(Cleared(blocks, element), blocks, Offsets(blocks), |blocks|)
  }

  /**
   * CreateNodeConfigBuffers up to the default values: the layout pass, then a
   * buffer of the computed size is zero-filled and the zero runtime header, the
   * config header and each block header are copied to their offsets.
   */
  method BuildConfigBuffer(blocks: seq<PropertyBlockInfo>, element: u64) returns (configBuffer: array<byte>)
    ensures fresh(configBuffer)
    ensures configBuffer[..] == Built(blocks, element)
  {
    var configHeader, blockHeaders, offsets, configBufferSize := ComputeLayout(blocks, element);
    configBuffer := new byte[configBufferSize];
    MemClear(configBuffer, configBufferSize);
    CopyTo(configBuffer, 0, Zeros(RH));
    assert configBuffer[..] == Zeros(configBufferSize) by {
      assert Zeros(configBufferSize)[..0] + Zeros(RH) + Zeros(configBufferSize)[RH..] == Zeros(configBufferSize);
    }
    CopyTo(configBuffer, RH, EncodeConfigHeader(configHeader));
    assert configBuffer[..] == Cleared(blocks, element) by {
      assert Zeros(configBufferSize)[..RH] == Zeros(RH) && Zeros(configBufferSize)[FirstBlock..] == Zeros(Span(blocks));
    }
    OffsetsFit(blocks);
    for i := 0 to |blocks|
      invariant configBuffer[..] == WriteBlockHeaders(Cleared(blocks, element), blocks, offsets, i)
    {
      CopyTo(configBuffer, offsets[blocks[i].blockType.fullName], EncodeBlockHeader(blockHeaders[i]));
    }
  }

  lemma ZerosAppend(a: nat, b: nat)
    ensures Zeros(a) + Zeros(b) == Zeros(a + b)
  {
  }

  /** A run written into a zero tail leaves the rest of the tail zero. */
  lemma SpliceZeros(p: seq<byte>, e: seq<byte>, rest: nat)
    requires |e| <= rest
    ensures Splice(p + Zeros(rest), |p|, e) == p + e + Zeros(rest - |e|)
  {
    var s := p + Zeros(rest);
    assert s[..|p|] == p;
    assert s[|p| + |e|..] == Zeros(rest - |e|);
  }

  /** Block i + 1's prefix of the body: block i's header and zero payload after the first i blocks. */
  lemma BodyStep(blocks: seq<PropertyBlockInfo>, i: nat)
    requires i < |blocks|
    ensures Body(blocks[..i + 1]) == Body(blocks[..i]) + EncodeBlockHeader(HeaderOf(blocks[i])) + Zeros(blocks[i].blockType.size)
  {
    assert blocks[..i + 1][..i] == blocks[..i];
  }

  lemma SpanPrefixLe(blocks: seq<PropertyBlockInfo>, i: nat)
    requires i <= |blocks|
    ensures Span(blocks[..i]) <= Span(blocks)
  {
    if i < |blocks| {
      SpanPrefix(blocks, i);
    } else {
      assert blocks[..i] == blocks;
    }
  }

  lemma Reassociate(a: seq<byte>, b: seq<byte>, c: seq<byte>, d: seq<byte>)
    ensures a + b + c + d == a + (b + c + d)
  {
  }

  /** One header written at the start of a zero tail: the written prefix grows by the header and its zero payload. */
  lemma WriteStep(q: seq<byte>, e: seq<byte>, size: nat, rest: nat)
    requires |e| + size <= rest
    ensures Splice(q + Zeros(rest), |q|, e) == q + e + Zeros(size) + Zeros(rest - |e| - size)
  {
    SpliceZeros(q, e, rest);
    ZerosAppend(size, rest - |e| - size);
  }

  /** With one block per type, block k's dictionary entry is its span offset. */
  lemma OffsetOfDistinct(blocks: seq<PropertyBlockInfo>, k: nat)
    requires DistinctTypes(blocks) && k < |blocks|
    ensures blocks[k].blockType.fullName in Offsets(blocks)
    ensures Offsets(blocks)[blocks[k].blockType.fullName] == FirstBlock + Span(blocks[..k])
  {
    OffsetsOfDistinct(blocks);
  }

  /** The buffer once the first i headers are written: the fixed headers p, the first i blocks, then zeros. */
  function Prefix(p: seq<byte>, blocks: seq<PropertyBlockInfo>, i: nat): (r: seq<byte>)
    requires i <= |blocks|
  {
    SpanPrefixLe(blocks, i);
    p + Body(blocks[..i]) + Zeros(Span(blocks) - Span(blocks[..i]))
  }

  /** WriteStep with every part named: the write that lands at the end of q in a zero tail extends the prefix. */
  lemma StepInTail(written: seq<byte>, w: seq<byte>, q: seq<byte>, e: seq<byte>, size: nat, rest: nat, p: seq<byte>, body: seq<byte>, tail: nat)
    requires w == q + Zeros(rest) && |e| + size <= rest && written == Splice(w, |q|, e)
    requires q + e + Zeros(size) == p + body && tail == rest - |e| - size
    ensures written == p + body + Zeros(tail)
  {
    WriteStep(q, e, size, rest);
  }

  /** The header loop's step: the next header lands right after the body written so far. */
  lemma WrittenStep(buffer: seq<byte>, blocks: seq<PropertyBlockInfo>, k: nat, p: seq<byte>)
    requires k < |blocks| && |p| == FirstBlock && buffer == p + Zeros(Span(blocks))
    requires blocks[k].blockType.fullName in Offsets(blocks) && Offsets(blocks)[blocks[k].blockType.fullName] == FirstBlock + Span(blocks[..k])
    requires WriteBlockHeaders(buffer, blocks, Offsets(blocks), k) == Prefix(p, blocks, k)
    ensures WriteBlockHeaders(buffer, blocks, Offsets(blocks), k + 1) == Prefix(p, blocks, k + 1)
  {
    SpanPrefix(blocks, k);
    var q := p + Body(blocks[..k]);
    var e := EncodeBlockHeader(HeaderOf(blocks[k]));
    var size := blocks[k].blockType.size;
    var rest := Span(blocks) - Span(blocks[..k]);
    var w := WriteBlockHeaders(buffer, blocks, Offsets(blocks), k);
    var written := WriteBlockHeaders(buffer, blocks, Offsets(blocks), k + 1);
    assert |e| == BH && |q| == FirstBlock + Span(blocks[..k]) && |w| == |buffer|;
    assert written == Splice(w, |q|, e);
    assert q + e + Zeros(size) == p + Body(blocks[..k + 1]) by {
      BodyStep(blocks, k);
      Reassociate(p, Body(blocks[..k]), e, Zeros(size));
    }
    StepInTail(written, w, q, e, size, rest, p, Body(blocks[..k + 1]), Span(blocks) - Span(blocks[..k + 1]));
  }

  lemma NothingWritten(buffer: seq<byte>, blocks: seq<PropertyBlockInfo>, p: seq<byte>)
    requires buffer == p + Zeros(Span(blocks))
    ensures WriteBlockHeaders(buffer, blocks, Offsets(blocks), 0) == Prefix(p, blocks, 0)
  {
    assert blocks[..0] == [];
  }

  /** With one block per type the header loop writes every header where the layout has it. */
  lemma {:induction false} WrittenPrefix(buffer: seq<byte>, blocks: seq<PropertyBlockInfo>, p: seq<byte>, i: nat)
    requires DistinctTypes(blocks) && i <= |blocks|
    requires |p| == FirstBlock && buffer == p + Zeros(Span(blocks))
    ensures WriteBlockHeaders(buffer, blocks, Offsets(blocks), i) == Prefix(p, blocks, i)
  {
    if i == 0 {
      NothingWritten(buffer, blocks, p);
    } else {
      WrittenPrefix(buffer, blocks, p, i - 1);
      OffsetOfDistinct(blocks, i - 1);
      WrittenStep(buffer, blocks, i - 1, p);
    }
  }

  /** The headers land exactly where the layout says: the built buffer is the layout. */
  lemma BuiltIsLayout(blocks: seq<PropertyBlockInfo>, element: u64)
    requires DistinctTypes(blocks)
    ensures Built(blocks, element) == Layout(blocks, element)
  {
    WrittenPrefix(Cleared(blocks, element), blocks, Zeros(RH) + EncodeConfigHeader(ConfigHeaderOf(blocks, element)), |blocks|);
    assert blocks[..|blocks|] == blocks;
  }

  /** The byte span of a list, taken from the front: the first block, then the rest. */
  lemma {:induction false} SpanCons(blocks: seq<PropertyBlockInfo>)
    requires blocks != []
    ensures Span(blocks) == BH + blocks[0].blockType.size + Span(blocks[1..])
    decreases |blocks|
  {
    var n := |blocks|;
    if n > 1 {
      var init := blocks[..n - 1];
      SpanCons(init);
      assert init[1..] == blocks[1..][..n - 2];
      assert blocks[1..][n - 2] == blocks[n - 1];
    } else {
      assert blocks[..0] == [] && blocks[1..] == [];
    }
  }

  /** The body taken from the front: block 0's header and payload, then the body of the rest. */
  lemma {:induction false} BodyCons(blocks: seq<PropertyBlockInfo>)
    requires blocks != []
    ensures Body(blocks) == EncodeBlockHeader(HeaderOf(blocks[0])) + Zeros(blocks[0].blockType.size) + Body(blocks[1..])
    decreases |blocks|
  {
    var n := |blocks|;
    if n > 1 {
      var init := blocks[..n - 1];
      var last := blocks[n - 1];
      var tail := blocks[1..];
      BodyCons(init);
      assert init[0] == blocks[0];
      assert tail[..|tail| - 1] == init[1..] && tail[|tail| - 1] == last;
      BodySnoc(tail, init[1..], last);
      Regroup5(EncodeBlockHeader(HeaderOf(blocks[0])), Zeros(blocks[0].blockType.size), Body(init[1..]), EncodeBlockHeader(HeaderOf(last)), Zeros(last.blockType.size));
    } else {
      assert blocks[..0] == [] && blocks[1..] == [];
    }
  }

  /** Body's own equation, for a list given as its front and its last block. */
  lemma BodySnoc(blocks: seq<PropertyBlockInfo>, front: seq<PropertyBlockInfo>, last: PropertyBlockInfo)
    requires blocks != [] && blocks[..|blocks| - 1] == front && blocks[|blocks| - 1] == last
    ensures Body(blocks) == Body(front) + EncodeBlockHeader(HeaderOf(last)) + Zeros(last.blockType.size)
  {
  }

  lemma Regroup5(a: seq<byte>, b: seq<byte>, c: seq<byte>, d: seq<byte>, e: seq<byte>)
    ensures a + b + c + d + e == a + b + (c + d + e)
  {
  }

  /** A sub-range that holds three parts in turn holds each at its place. */
  lemma SliceParts(data: seq<byte>, at: nat, x: seq<byte>, y: seq<byte>, z: seq<byte>)
    requires at + |x| + |y| + |z| <= |data| && data[at..at + |x| + |y| + |z|] == x + y + z
    ensures data[at..at + |x|] == x
    ensures data[at + |x| + |y|..at + |x| + |y| + |z|] == z
  {
    var w := data[at..at + |x| + |y| + |z|];
    assert data[at..at + |x|] == w[..|x|];
    assert data[at + |x| + |y|..at + |x| + |y| + |z|] == w[|x| + |y|..];
  }

  /** The header a block declares: its size, its hash, and 1 iff it is required. */
  function Declared(b: PropertyBlockInfo): BlockHeader
  {
    BlockHeader(b.blockType.size, b.hash, if b.required then 1 else 0)
  }

  /** A size that fits a ushort survives the cast and the 32-bit read. */
  lemma HeaderOfFits(b: PropertyBlockInfo)
    requires b.blockType.size < TwoTo16
    ensures HeaderOf(b) == Declared(b)
    ensures Wrap32(HeaderOf(b).length) == b.blockType.size
  {
  }

  /** An encoded block header at at reads back, its length wrapped to 32 bits. */
  lemma HeaderAt(data: seq<byte>, at: nat, h: BlockHeader)
    requires at + BH <= |data| && data[at..at + BH] == EncodeBlockHeader(h)
    ensures ReadBlockHeader(data, at) == BlockHeader(Wrap32(h.length), h.hash, h.enabled)
  {
    BlockHeaderRoundTrip(h);
  }

  /** Step of the walk: the header at at is the first block's, and the rest of the body follows its payload. */
  lemma ReadFirst(data: seq<byte>, at: nat, blocks: seq<PropertyBlockInfo>)
    requires blocks != [] && blocks[0].blockType.size < TwoTo16
    requires at + Span(blocks) <= |data| && data[at..at + Span(blocks)] == Body(blocks)
    ensures Span(blocks) == BH + blocks[0].blockType.size + Span(blocks[1..])
    ensures at + BH <= |data| && ReadBlockHeader(data, at) == HeaderOf(blocks[0])
    ensures HeaderOf(blocks[0]).length == blocks[0].blockType.size
    ensures data[at + BH + blocks[0].blockType.size..at + Span(blocks)] == Body(blocks[1..])
  {
    var h := HeaderOf(blocks[0]);
    var size := blocks[0].blockType.size;
    BodyCons(blocks);
    SpanCons(blocks);
    SliceParts(data, at, EncodeBlockHeader(h), Zeros(size), Body(blocks[1..]));
    HeaderAt(data, at, h);
    HeaderOfFits(blocks[0]);
  }

  /** Block i's place in the walk that starts at block 0 is its place in the walk from block 1, moved. */
  lemma SpanShift(blocks: seq<PropertyBlockInfo>, i: nat)
    requires 0 < i < |blocks|
    ensures Span(blocks[..i]) == BH + blocks[0].blockType.size + Span(blocks[1..][..i - 1])
  {
    SpanCons(blocks[..i]);
    assert blocks[..i][1..] == blocks[1..][..i - 1];
  }

  /** The header walk over a laid-out run of blocks reads one header per block. */
  lemma {:induction false} ChainOfBody(data: seq<byte>, at: nat, blocks: seq<PropertyBlockInfo>)
    requires Encodable(blocks)
    requires at + Span(blocks) <= |data| && data[at..at + Span(blocks)] == Body(blocks)
    ensures Chain(data, at, |blocks|)
    decreases |blocks|
  {
    if blocks != [] {
      ReadFirst(data, at, blocks);
      assert NextHeader(data, at) == at + BH + blocks[0].blockType.size;
      assert Encodable(blocks[1..]);
      ChainOfBody(data, NextHeader(data, at), blocks[1..]);
    }
  }

  /** The walk's i-th entry is block i's header, at the run's start plus the spans of the blocks before it. */
  lemma {:induction false} HeadersOfBody(data: seq<byte>, at: nat, blocks: seq<PropertyBlockInfo>)
    requires Encodable(blocks)
    requires at + Span(blocks) <= |data| && data[at..at + Span(blocks)] == Body(blocks)
    ensures (ChainOfBody(data, at, blocks);
      forall i {:trigger Headers(data, at, |blocks|)[i]} :: 0 <= i < |blocks| ==>
        Headers(data, at, |blocks|)[i] == Entry(at + Span(blocks[..i]), Declared(blocks[i])))
    decreases |blocks|
  {
    ChainOfBody(data, at, blocks);
    if blocks != [] {
      var rest := blocks[1..];
      ReadFirst(data, at, blocks);
      HeaderOfFits(blocks[0]);
      var next := NextHeader(data, at);
      assert next == at + BH + blocks[0].blockType.size;
      assert Encodable(rest);
      HeadersOfBody(data, next, rest);
      var hs := Headers(data, at, |blocks|);
      var ts := Headers(data, next, |rest|);
      assert hs == [Entry(at, Declared(blocks[0]))] + ts;
      forall i | 0 < i < |blocks|
        ensures hs[i] == Entry(at + Span(blocks[..i]), Declared(blocks[i]))
      {
        EntryShift(hs, ts, blocks, at, i);
      }
      assert blocks[..0] == [];
    }
  }

  /** Entry i of the walk is entry i - 1 of the walk that starts after block 0. */
  lemma EntryShift(hs: seq<Entry>, ts: seq<Entry>, blocks: seq<PropertyBlockInfo>, at: nat, i: nat)
    requires 0 < i < |blocks| && |ts| == |blocks| - 1 && hs != [] && hs == [hs[0]] + ts
    requires ts[i - 1] == Entry(at + BH + blocks[0].blockType.size + Span(blocks[1..][..i - 1]), Declared(blocks[1..][i - 1]))
    ensures hs[i] == Entry(at + Span(blocks[..i]), Declared(blocks[i]))
  {
    SpanShift(blocks, i);
  }


  /** An encoded config header after the runtime header reads back, its ints wrapped to 32 bits. */
  lemma ConfigAt(data: seq<byte>, h: ConfigHeader)
    requires |data| >= FirstBlock && data[RH..FirstBlock] == EncodeConfigHeader(h)
    ensures ReadConfigHeader(data) == ConfigHeader(Wrap32(h.length), h.element, Wrap32(h.count))
  {
    ConfigHeaderRoundTrip(h);
  }

  lemma PartsOf(data: seq<byte>, x: seq<byte>, y: seq<byte>, z: seq<byte>)
    requires data == x + y + z
    ensures data[|x|..|x| + |y|] == y
    ensures data[|x| + |y|..|x| + |y| + |z|] == z
  {
  }

  /** A count below 256 survives the byte cast and the 32-bit read. */
  lemma CountFits(n: nat)
    requires n < TwoTo8
    ensures Wrap32(n % TwoTo8) == n
  {
  }

  /** A config header whose count is a byte cast of n < 256 reads back with count n. */
  lemma HeaderFromParts(data: seq<byte>, h: ConfigHeader, n: nat)
    requires |data| >= FirstBlock && data[RH..FirstBlock] == EncodeConfigHeader(h)
    requires n < TwoTo8 && h.count == n % TwoTo8
    ensures ReadConfigHeader(data) == ConfigHeader(Wrap32(h.length), h.element, n)
  {
    ConfigAt(data, h);
    CountFits(n);
  }

  /** The config header reads back as written, its count being the block count. */
  lemma ReadLayoutHeader(blocks: seq<PropertyBlockInfo>, element: u64, data: seq<byte>)
    requires |blocks| < TwoTo8 && data == Layout(blocks, element)
    ensures ReadConfigHeader(data) == ConfigHeader(Wrap32(Span(blocks)), element, |blocks|)
  {
    var h := ConfigHeaderOf(blocks, element);
    PartsOf(data, Zeros(RH), EncodeConfigHeader(h), Body(blocks));
    HeaderFromParts(data, h, |blocks|);
  }

  /** The blocks follow the two fixed headers. */
  lemma LayoutBody(blocks: seq<PropertyBlockInfo>, element: u64, data: seq<byte>)
    requires data == Layout(blocks, element)
    ensures data[FirstBlock..FirstBlock + Span(blocks)] == Body(blocks)
  {
    PartsOf(data, Zeros(RH), EncodeConfigHeader(ConfigHeaderOf(blocks, element)), Body(blocks));
  }

  /**
   * Build, then walk: the laid-out buffer is well-formed, holds one header per
   * block, and the i-th header the walk meets is block i's (its size, hash and
   * enabled flag), at RH + CH plus the spans of the blocks before it, which is
   * where GetPropertyBlockOffset says the block is.
   */
  lemma LayoutBlocks(blocks: seq<PropertyBlockInfo>, element: u64)
    requires Encodable(blocks)
    ensures var data := Layout(blocks, element);
      WellFormed(data) && |Blocks(data)| == |blocks|
      && forall i {:trigger Blocks(data)[i]} :: 0 <= i < |blocks| ==>
           Blocks(data)[i] == Entry(FirstBlock + Span(blocks[..i]), Declared(blocks[i]))
  {
    var data := Layout(blocks, element);
    ReadLayoutHeader(blocks, element, data);
    LayoutBody(blocks, element, data);
    BlocksOfRun(data, blocks);
  }

  /** A buffer whose count is the list's length and whose block region is the list's body. */
  lemma BlocksOfRun(data: seq<byte>, blocks: seq<PropertyBlockInfo>)
    requires Encodable(blocks) && |data| >= FirstBlock && BlockTotal(data) == |blocks|
    requires FirstBlock + Span(blocks) <= |data| && data[FirstBlock..FirstBlock + Span(blocks)] == Body(blocks)
    ensures WellFormed(data) && |Blocks(data)| == |blocks|
    ensures forall i {:trigger Blocks(data)[i]} :: 0 <= i < |blocks| ==>
      Blocks(data)[i] == Entry(FirstBlock + Span(blocks[..i]), Declared(blocks[i]))
  {
    ChainOfBody(data, FirstBlock, blocks);
    HeadersOfBody(data, FirstBlock, blocks);
    assert Blocks(data) == Headers(data, FirstBlock, |blocks|);
  }



  /** The fixed-header readers on a laid-out buffer: count, element, and the total length. */
  lemma LayoutTotals(blocks: seq<PropertyBlockInfo>, element: u64)
    requires Encodable(blocks) && FirstBlock + Span(blocks) < TwoTo31
    ensures var data := Layout(blocks, element);
      PropertyBlockCount(data) == |blocks| && Ext.Element(data) == element
      && Ext.Length(data) == Span(blocks) && Ext.TotalLength(data) == |data|
  {
    ReadLayoutHeader(blocks, element, Layout(blocks, element));
    LayoutBody(blocks, element, Layout(blocks, element));
  }

  /** Hash order carries over from the block list to the headers in the buffer. */
  lemma LayoutSorted(blocks: seq<PropertyBlockInfo>, element: u64)
    requires Encodable(blocks) && SortedByHash(blocks)
    ensures WellFormed(Layout(blocks, element)) && Ext.SortedByHash(Blocks(Layout(blocks, element)))
  {
    LayoutBlocks(blocks, element);
  }

  /** Block b is what a scan for target looks for: its hash, and required when enabled blocks are asked for. */
  predicate Wanted(b: PropertyBlockInfo, target: u64, checkEnabled: bool)
  {
    b.hash == target && (b.required || !checkEnabled)
  }

  /**
   * Build, then scan (the early-exit walk of TryGetPropertyBlock and its
   * siblings): over the buffer built from a hash-sorted list, the scan for a
   * hash succeeds exactly when a block has that hash (and is required, when
   * enabled blocks are asked for), and it returns the header of the first such
   * block in the list.
   */
  lemma BuildThenScan(blocks: seq<PropertyBlockInfo>, element: u64, target: u64, checkEnabled: bool)
    requires Encodable(blocks) && SortedByHash(blocks)
    ensures var data := Layout(blocks, element);
      WellFormed(data)
      && (Ext.ScanSpec(Blocks(data), target, checkEnabled).Some?
          <==> exists i :: 0 <= i < |blocks| && Wanted(blocks[i], target, checkEnabled))
      && (Ext.ScanSpec(Blocks(data), target, checkEnabled).Some? ==>
          exists i :: 0 <= i < |blocks| && Wanted(blocks[i], target, checkEnabled)
            && Ext.ScanSpec(Blocks(data), target, checkEnabled).value == FirstBlock + Span(blocks[..i])
            && forall j :: 0 <= j < i ==> !Wanted(blocks[j], target, checkEnabled))
  {
    LayoutBlocks(blocks, element);
    LayoutSorted(blocks, element);
    ScanOfHeaders(Blocks(Layout(blocks, element)), blocks, target, checkEnabled);
  }

  /** The scan over headers that mirror the block list, one for one. */
  lemma ScanOfHeaders(hs: seq<Entry>, blocks: seq<PropertyBlockInfo>, target: u64, checkEnabled: bool)
    requires Ext.SortedByHash(hs) && |hs| == |blocks|
    requires forall k {:trigger hs[k]} :: 0 <= k < |blocks| ==>
      hs[k] == Entry(FirstBlock + Span(blocks[..k]), Declared(blocks[k]))
    ensures Ext.ScanSpec(hs, target, checkEnabled).Some? <==> exists i :: 0 <= i < |blocks| && Wanted(blocks[i], target, checkEnabled)
    ensures Ext.ScanSpec(hs, target, checkEnabled).Some? ==>
      exists i :: 0 <= i < |blocks| && Wanted(blocks[i], target, checkEnabled)
        && Ext.ScanSpec(hs, target, checkEnabled).value == FirstBlock + Span(blocks[..i])
        && forall j :: 0 <= j < i ==> !Wanted(blocks[j], target, checkEnabled)
  {
    forall i | 0 <= i < |blocks|
      ensures Ext.Matches(hs[i], target, checkEnabled) <==> Wanted(blocks[i], target, checkEnabled)
    {
    }
    Ext.ScanFindsFirstMatch(hs, target, checkEnabled);
  }

  /**
   * With distinct hashes, looking up block i's hash finds block i's header:
   * always when enabled is ignored, and exactly when block i is required when
   * it is checked.
   */
  lemma BuildThenFind(blocks: seq<PropertyBlockInfo>, element: u64, i: nat, checkEnabled: bool)
    requires Encodable(blocks) && SortedByHash(blocks) && DistinctHashes(blocks) && i < |blocks|
    ensures var data := Layout(blocks, element);
      WellFormed(data)
      && Ext.ScanSpec(Blocks(data), blocks[i].hash, checkEnabled)
         == if checkEnabled && !blocks[i].required then None else Some(FirstBlock + Span(blocks[..i]))
  {
    LayoutBlocks(blocks, element);
    LayoutSorted(blocks, element);
    FindOfHeaders(Blocks(Layout(blocks, element)), blocks, i, checkEnabled);
  }

  /** With distinct hashes, the scan over mirroring headers for block i's hash stops at block i. */
  lemma FindOfHeaders(hs: seq<Entry>, blocks: seq<PropertyBlockInfo>, i: nat, checkEnabled: bool)
    requires Ext.SortedByHash(hs) && |hs| == |blocks| && DistinctHashes(blocks) && i < |blocks|
    requires forall k {:trigger hs[k]} :: 0 <= k < |blocks| ==>
      hs[k] == Entry(FirstBlock + Span(blocks[..k]), Declared(blocks[k]))
    ensures Ext.ScanSpec(hs, blocks[i].hash, checkEnabled) == if checkEnabled && !blocks[i].required then None else Some(FirstBlock + Span(blocks[..i]))
  {
    var target := blocks[i].hash;
    ScanOfHeaders(hs, blocks, target, checkEnabled);
    var r := Ext.ScanSpec(hs, target, checkEnabled);
    assert forall j :: 0 <= j < |blocks| && Wanted(blocks[j], target, checkEnabled) ==> j == i;
    if r.Some? {
      var j :| 0 <= j < |blocks| && Wanted(blocks[j], target, checkEnabled) && r.value == FirstBlock + Span(blocks[..j])
        && forall k :: 0 <= k < j ==> !Wanted(blocks[k], target, checkEnabled);
      assert j == i;
    } else {
      assert !Wanted(blocks[i], target, checkEnabled);
    }
  }

  /** Build, then iterate: the enumerator yields block i's header and payload addresses as its i-th item. */
  lemma BuildThenIterate(blocks: seq<PropertyBlockInfo>, element: u64)
    requires Encodable(blocks)
    ensures var data := Layout(blocks, element);
      WellFormed(data) && |Yielded(data)| == |blocks|
      && forall i :: 0 <= i < |blocks| ==>
           Yielded(data)[i] == Item(FirstBlock + Span(blocks[..i]), FirstBlock + Span(blocks[..i]) + BH)
  {
    LayoutBlocks(blocks, element);
  }

  /** With one block per type, GetPropertyBlockOffset finds block i where its header was written. */
  lemma OffsetAgrees(blocks: seq<PropertyBlockInfo>, i: nat)
    requires DistinctTypes(blocks) && i < |blocks|
    ensures FindIndex(blocks, blocks[i].blockType.fullName) == i
    ensures blocks[i].blockType.fullName in Offsets(blocks)
    ensures Offsets(blocks)[blocks[i].blockType.fullName] == FirstBlock + Span(blocks[..FindIndex(blocks, blocks[i].blockType.fullName)])
  {
    OffsetsOfDistinct(blocks);
  }

  /** A buffer that starts with a + b + c is a + b followed by c and the rest. */
  lemma Reattach(extra: seq<byte>, a: seq<byte>, b: seq<byte>, c: seq<byte>)
    requires |a + b + c| <= |extra| && extra[..|a + b + c|] == a + b + c
    ensures extra == a + b + (c + extra[|a + b + c|..])
  {
    assert extra == extra[..|a + b + c|] + extra[|a + b + c|..];
  }

  /**
   * The extra-data buffer: empty when nothing was written to the stream;
   * otherwise its length is set to the config buffer size plus the stream length
   * and only the stream is copied to its start, so the last configBufferSize
   * bytes are whatever the resized buffer held (fill).
   */
  method BuildExtraData(stream: seq<byte>, configBufferSize: nat, fill: seq<byte>) returns (extra: seq<byte>)
    requires |fill| == configBufferSize
    ensures |stream| == 0 ==> extra == []
    ensures |stream| > 0 ==> |extra| == configBufferSize + |stream| && extra[..|stream|] == stream
  {
    extra := [];
    if |stream| > 0 {
      var buffer := stream + fill;
      extra := buffer;
    }
  }

  /**
   * A text value written to the stream while the buffer was built reads back from
   * the extra data at its offset, whatever the fill after the stream.
   */
  lemma ExtraDataText(before: seq<byte>, s: string, after: seq<byte>, extra: seq<byte>)
    requires NoNul(s) && Utf16Length(s) < TwoTo31
    requires var stream := before + TextRecord(Some(s)) + after;
      |stream| <= |extra| && extra[..|stream|] == stream
    ensures var at := |before|;
      at + 4 <= |extra|
      && TextEncoding.GetTextLength(extra, at) == Utf16Length(s)
      && TextEncoding.HandleEncoding(extra, at) == TextEncoding.UTF8
      && TextEncoding.GetTextContent(extra, at) == at + CharacterOffset
      && CodePoints(Tail(extra, at + LengthSize + PreambleSize), 0, 0) == Scalars(s)
  {
    var rest := extra[|before + TextRecord(Some(s)) + after|..];
    Reattach(extra, before, TextRecord(Some(s)), after);
    TextRecordReadBack(before, s, after + rest);
  }

  /** Each child's parent entry becomes node, and no other entry changes. */
  function SetParents(parents: seq<int>, children: seq<nat>, node: nat): (r: seq<int>)
    ensures |r| == |parents|
  {
    seq(|parents|, k requires 0 <= k < |parents| => if k in children then node as int else parents[k])
  }

  /** The parent entries after nodes 0 .. n-1 have been linked, in order. */
  function LinkedParents(parents: seq<int>, children: seq<seq<nat>>, n: nat): (r: seq<int>)
    requires n <= |children|
    ensures |r| == |parents|
  {
    if n == 0 then parents else SetParents(LinkedParents(parents, children, n - 1), children[n - 1], n - 1)
  }

  /**
   * The linking loops of OnUpdate for node index: the child list holds the
   * children's entities in order and each child's parent becomes the node.
   * Entities are modelled by their node index.
   */
  method LinkNode(index: nat, children: seq<nat>, parents: array<int>) returns (childBuffer: seq<nat>)
    requires forall j :: 0 <= j < |children| ==> children[j] < parents.Length
    modifies parents
    ensures childBuffer == children
    ensures parents[..] == SetParents(old(parents[..]), children, index)
  {
    childBuffer := [];
    for j := 0 to |children|
      invariant childBuffer == children[..j]
    {
      childBuffer := childBuffer + [children[j]];
    }
    for j := 0 to |children|
      invariant parents[..] == SetParents(old(parents[..]), children[..j], index)
    {
      parents[children[j]] := index;
      assert children[..j + 1] == children[..j] + [children[j]];
    }
  }

  /** No node is listed as a child twice, in one list or across lists: the importer's tree. */
  predicate UniqueChildren(children: seq<seq<nat>>)
  {
    forall p, q, j, k ::
      (0 <= p < |children| && 0 <= q < |children| && 0 <= j < |children[p]| && 0 <= k < |children[q]|
       && children[p][j] == children[q][k]) ==> p == q && j == k
  }

  /** In a tree, linking every node in turn makes each listed child point at its parent. */
  lemma {:induction false} LinkedParentsOfTree(parents: seq<int>, children: seq<seq<nat>>, n: nat)
    requires n <= |children| && UniqueChildren(children)
    requires forall p, j :: 0 <= p < |children| && 0 <= j < |children[p]| ==> children[p][j] < |parents|
    ensures forall p, j :: 0 <= p < n && 0 <= j < |children[p]| ==> LinkedParents(parents, children, n)[children[p][j]] == p
    ensures forall k :: 0 <= k < |parents| && (forall p :: 0 <= p < n ==> k !in children[p]) ==> LinkedParents(parents, children, n)[k] == parents[k]
  {
    if n > 0 {
      LinkedParentsOfTree(parents, children, n - 1);
      forall p, j | 0 <= p < n && 0 <= j < |children[p]|
        ensures LinkedParents(parents, children, n)[children[p][j]] == p
      {
        if p < n - 1 {
          assert children[p][j] !in children[n - 1];
        }
      }
    }
  }
}
