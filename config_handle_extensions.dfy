/**
 * UIConfigHandleExtensions: the runtime's lookups into a node buffer. Every
 * lookup walks the block headers from RH + CH, at most count of them, and gives
 * up at the first header whose hash exceeds the one it wants, which is correct
 * because the converter writes the blocks in ascending hash order.
 */
module ConfigHandleExtensions {
  import opened Bytes
  import opened Floats
  import opened ConfigHandle

  /** The header accepts the lookup: the hash matches and, when asked, the block is enabled. */
  predicate Matches(e: Entry, target: u64, checkEnabled: bool)
  {
    e.header.hash == target && ((checkEnabled && e.header.enabled != 0) || !checkEnabled)
  }

  /**
   * What the scan loop computes over the headers in buffer order: the offset
   * of the first accepted header met before any header with a larger hash.
   */
  function ScanSpec(hs: seq<Entry>, target: u64, checkEnabled: bool): (r: Option<nat>)
  {
    if hs == [] then None
    else if hs[0].header.hash > target then None
    else if Matches(hs[0], target, checkEnabled) then Some(hs[0].at)
    else ScanSpec(hs[1..], target, checkEnabled)
  }

  /** Whatever the order, a scan that succeeds returns the address of an accepted header. */
  lemma {:induction false} ScanSpecSound(hs: seq<Entry>, target: u64, checkEnabled: bool)
    ensures ScanSpec(hs, target, checkEnabled).Some? ==>
      exists i :: 0 <= i < |hs| && Matches(hs[i], target, checkEnabled) && hs[i].at == ScanSpec(hs, target, checkEnabled).value
  {
    if hs != [] && hs[0].header.hash <= target && !Matches(hs[0], target, checkEnabled) {
      ScanSpecSound(hs[1..], target, checkEnabled);
      if ScanSpec(hs, target, checkEnabled).Some? {
        var i :| 0 <= i < |hs[1..]| && Matches(hs[1..][i], target, checkEnabled) && hs[1..][i].at == ScanSpec(hs, target, checkEnabled).value;
        assert hs[i + 1] == hs[1..][i];
      }
    }
  }

  ghost predicate SortedByHash(hs: seq<Entry>)
  {
    forall i, j :: 0 <= i < j < |hs| ==> hs[i].header.hash <= hs[j].header.hash
  }

  /**
   * Scan correctness: over headers in ascending hash order the scan succeeds
   * exactly when some header is accepted, and it returns the first accepted one.
   */
  lemma {:induction false} ScanFindsFirstMatch(hs: seq<Entry>, target: u64, checkEnabled: bool)
    requires SortedByHash(hs)
    ensures ScanSpec(hs, target, checkEnabled).Some? <==> exists i :: 0 <= i < |hs| && Matches(hs[i], target, checkEnabled)
    ensures ScanSpec(hs, target, checkEnabled).Some? ==>
      exists i :: 0 <= i < |hs| && Matches(hs[i], target, checkEnabled)
        && ScanSpec(hs, target, checkEnabled).value == hs[i].at
        && forall j :: 0 <= j < i ==> !Matches(hs[j], target, checkEnabled)
  {
    if hs != [] {
      var rest := hs[1..];
      assert SortedByHash(rest);
      ScanFindsFirstMatch(rest, target, checkEnabled);
      if hs[0].header.hash > target {
        assert forall i :: 0 <= i < |hs| ==> !Matches(hs[i], target, checkEnabled);
      } else if !Matches(hs[0], target, checkEnabled) {
        if ScanSpec(rest, target, checkEnabled).Some? {
          var k :| 0 <= k < |rest| && Matches(rest[k], target, checkEnabled)
            && ScanSpec(rest, target, checkEnabled).value == rest[k].at
            && forall j :: 0 <= j < k ==> !Matches(rest[j], target, checkEnabled);
          assert Matches(hs[k + 1], target, checkEnabled);
          assert forall j :: 0 <= j < k + 1 ==> !Matches(hs[j], target, checkEnabled) by {
            forall j | 0 <= j < k + 1 ensures !Matches(hs[j], target, checkEnabled) {
              if j > 0 { assert hs[j] == rest[j - 1]; }
            }
          }
        } else {
          forall i | 0 <= i < |hs| ensures !Matches(hs[i], target, checkEnabled) {
            if i > 0 { assert hs[i] == rest[i - 1]; }
          }
        }
      }
    }
  }

  /** The scan never looks at or past a header whose hash exceeds the target. */
  lemma {:induction false} ScanStopsAtLargerHash(hs: seq<Entry>, target: u64, checkEnabled: bool, k: nat)
    requires k < |hs| && hs[k].header.hash > target
    ensures ScanSpec(hs, target, checkEnabled) == ScanSpec(hs[..k], target, checkEnabled)
  {
    if k > 0 {
      assert hs[1..][..k - 1] == hs[..k][1..];
      ScanStopsAtLargerHash(hs[1..], target, checkEnabled, k - 1);
    }
  }

  /**
   * The header walk shared by TryGetPropertyBlock and its siblings: it reads at
   * most count headers and returns the address of the accepted header.
   */
  method FindBlockHeader(data: seq<byte>, target: u64, checkEnabled: bool) returns (r: Option<nat>)
    requires WellFormed(data)
    ensures r == ScanSpec(Blocks(data), target, checkEnabled)
  {
    ghost var n := BlockTotal(data);
    var totalBlocks := PropertyBlockCount(data);
    var start := FirstBlock;
    var i := 0;
    while i < totalBlocks && ReadBlockHeader(data, start).hash <= target
      invariant 0 <= i <= n
      invariant Chain(data, start, n - i)
      invariant ScanSpec(Blocks(data), target, checkEnabled) == ScanSpec(Headers(data, start, n - i), target, checkEnabled)
      decreases n - i
    {
      var header := ReadBlockHeader(data, start);
      if Matches(Entry(start, header), target, checkEnabled) {
        ScanHit(data, start, n - i, target, checkEnabled);
        return Some(start);
      }
      ScanPast(data, start, n - i, target, checkEnabled);
      start := NextHeader(data, start);
      i := i + 1;
    }
    ScanExit(data, start, n - i, target, checkEnabled);
    return None;
  }

  /** Where the scan succeeds: the header at hand is accepted. */
  lemma ScanHit(data: seq<byte>, at: int, m: nat, target: u64, checkEnabled: bool)
    requires Chain(data, at, m) && m > 0
    requires Matches(Entry(at, ReadBlockHeader(data, at)), target, checkEnabled)
    ensures ScanSpec(Headers(data, at, m), target, checkEnabled) == Some(at)
  {
  }

  /** Where the scan gives up: no headers are left, or the next one is past the target. */
  lemma ScanExit(data: seq<byte>, at: int, m: nat, target: u64, checkEnabled: bool)
    requires Chain(data, at, m)
    requires m == 0 || ReadBlockHeader(data, at).hash > target
    ensures ScanSpec(Headers(data, at, m), target, checkEnabled) == None
  {
  }

  /** One step of the scan: a header that is not accepted and not past the target is skipped. */
  lemma ScanPast(data: seq<byte>, at: int, m: nat, target: u64, checkEnabled: bool)
    requires Chain(data, at, m) && m > 0
    requires ReadBlockHeader(data, at).hash <= target
    requires !Matches(Entry(at, ReadBlockHeader(data, at)), target, checkEnabled)
    ensures Chain(data, NextHeader(data, at), m - 1)
    ensures ScanSpec(Headers(data, at, m), target, checkEnabled)
         == ScanSpec(Headers(data, NextHeader(data, at), m - 1), target, checkEnabled)
  {
    assert Headers(data, at, m)[1..] == Headers(data, NextHeader(data, at), m - 1);
  }

  function AddOffset(p: Option<nat>, k: nat): (r: Option<nat>)
    ensures r.Some? <==> p.Some?
    ensures r.Some? ==> r.value == p.value + k
  {
    if p.Some? then Some(p.value + k) else None
  }

  /**
   * TryGetPropertyBlock<TBlock>: blockHash is the hash the element manager
   * registered for TBlock. On success the pointer is the payload right after the
   * header; on failure it is null.
   */
  method TryGetPropertyBlock(data: seq<byte>, blockHash: u64, checkEnabled: bool) returns (found: bool, block: Option<nat>)
    requires WellFormed(data)
    ensures found <==> block.Some?
    ensures block == AddOffset(ScanSpec(Blocks(data), blockHash, checkEnabled), BH)
  {
    var h := FindBlockHeader(data, blockHash, checkEnabled);
    block := AddOffset(h, BH);
    found := block.Some?;
  }

  /** GetPropertyFromOffset<TBlock>: the payload of the accepted block plus offset, or null. */
  method GetPropertyFromOffset(data: seq<byte>, blockHash: u64, offset: nat, checkEnabled: bool) returns (p: Option<nat>)
    requires WellFormed(data)
    ensures p == AddOffset(ScanSpec(Blocks(data), blockHash, checkEnabled), BH + offset)
  {
    var h := FindBlockHeader(data, blockHash, checkEnabled);
    p := AddOffset(h, BH + offset);
  }

  /** GetPropertyBlock<TBlock>: the payload of the first block with TBlock's hash; enabled is ignored. */
  method GetPropertyBlock(data: seq<byte>, blockHash: u64) returns (p: Option<nat>)
    requires WellFormed(data)
    ensures p == AddOffset(ScanSpec(Blocks(data), blockHash, false), BH)
  {
    p := GetPropertyBlockFromHash(data, blockHash);
  }

  /** GetPropertyBlockFromHash: as GetPropertyBlock, with the hash given directly. */
  method GetPropertyBlockFromHash(data: seq<byte>, targetHash: u64) returns (p: Option<nat>)
    requires WellFormed(data)
    ensures p.Some? ==> exists i :: 0 <= i < |Blocks(data)| && Blocks(data)[i].header.hash == targetHash
                                   && p.value == Blocks(data)[i].at + BH
    ensures p == AddOffset(ScanSpec(Blocks(data), targetHash, false), BH)
  {
    var h := FindBlockHeader(data, targetHash, false);
    ScanSpecSound(Blocks(data), targetHash, false);
    p := AddOffset(h, BH);
  }

  /** GetPropertyBlockHeader<TBlock>: the address of the header itself; enabled is ignored. */
  method GetPropertyBlockHeader(data: seq<byte>, blockHash: u64) returns (p: Option<nat>)
    requires WellFormed(data)
    ensures p == ScanSpec(Blocks(data), blockHash, false)
  {
    p := FindBlockHeader(data, blockHash, false);
  }

  /** The part of a UIProperty a lookup needs: its block and its offset inside the block. */
  datatype PropertyRef = PropertyRef(blockHash: u64, offset: nat)

  /** TryGetProperty<TProperty>: the block of the property, then the field offset; enabled is ignored. */
  method TryGetProperty(data: seq<byte>, property: PropertyRef) returns (found: bool, location: Option<nat>)
    requires WellFormed(data)
    ensures found <==> location.Some?
    ensures location == AddOffset(ScanSpec(Blocks(data), property.blockHash, false), BH + property.offset)
  {
    var h := FindBlockHeader(data, property.blockHash, false);
    location := AddOffset(h, BH + property.offset);
    found := location.Some?;
  }

  /** Length: the config header's length field. */
  function Length(data: seq<byte>): (r: int)
    requires |data| >= FirstBlock
    ensures -TwoTo31 <= r < TwoTo31
  {
    ReadConfigHeader(data).length
  }

  /** TotalLength: (uint)(Length + RH + CH), so Length plus both fixed headers whenever Length is not negative. */
  function TotalLength(data: seq<byte>): (r: nat)
    requires |data| >= FirstBlock
    ensures r < TwoTo32
    ensures Length(data) >= 0 ==> r == Length(data) + RH + CH
  {
    (Length(data) + RH + CH) % TwoTo32
  }

  /** Element: the element hash of the config header. */
  function Element(data: seq<byte>): (r: u64)
    requires |data| >= FirstBlock
  {
    ReadConfigHeader(data).element
  }

  /*
   * The runtime header accessors. A handle designates one node's buffer; the
   * runtime headers of the nodes of a tree are modelled as one table indexed by node.
   */

  method SetConstraints(headers: array<RuntimeHeader>, node: nat, value: Float4)
    requires node < headers.Length
    modifies headers
    ensures headers[..] == old(headers[..])[node := old(headers[node]).(constraints := value)]
  {
    headers[node] := headers[node].(constraints := value);
  }

  method SetSize(headers: array<RuntimeHeader>, node: nat, value: Float2)
    requires node < headers.Length
    modifies headers
    ensures headers[..] == old(headers[..])[node := old(headers[node]).(size := value)]
  {
    headers[node] := headers[node].(size := value);
  }

  method SetPosition(headers: array<RuntimeHeader>, node: nat, value: Float2)
    requires node < headers.Length
    modifies headers
    ensures headers[..] == old(headers[..])[node := old(headers[node]).(position := value)]
  {
    headers[node] := headers[node].(position := value);
  }

  function GetConstraints(h: RuntimeHeader): Float4 { h.constraints }
  function GetSize(h: RuntimeHeader): Float2 { h.size }
  function GetPosition(h: RuntimeHeader): Float2 { h.position }
  function GetWidth(h: RuntimeHeader): Float { h.size.x }
  function GetHeight(h: RuntimeHeader): Float { h.size.y }

  /**
   * Each setter followed by its getter gives back the value set, and leaves the
   * other two fields and every other node's header as they were.
   */
  lemma SetThenGet(before: seq<RuntimeHeader>, node: nat, c: Float4, s: Float2, p: Float2)
    requires node < |before|
    ensures var a := before[node := before[node].(constraints := c)];
      GetConstraints(a[node]) == c && GetSize(a[node]) == GetSize(before[node]) && GetPosition(a[node]) == GetPosition(before[node])
    ensures var a := before[node := before[node].(size := s)];
      GetSize(a[node]) == s && GetWidth(a[node]) == s.x && GetHeight(a[node]) == s.y
      && GetConstraints(a[node]) == GetConstraints(before[node]) && GetPosition(a[node]) == GetPosition(before[node])
    ensures var a := before[node := before[node].(position := p)];
      GetPosition(a[node]) == p && GetSize(a[node]) == GetSize(before[node]) && GetConstraints(a[node]) == GetConstraints(before[node])
  {
  }
}

/**
 * UIExtraDataHandleTextExtensions: recognising the text encoding of the extra
 * data from its byte-order mark (RFC 3629 section 6 for UTF-8) and the fixed
 * sizes that go with each encoding.
 */
module TextEncoding {
  import opened Bytes

  /** UnicodeEncodingType, in declaration order. */
  datatype Encoding = None | UTF8 | UTF16BE | UTF16LE | UTF32BE | UTF32LE | Unknown

  /** The byte-order mark of each encoding. */
  function Bom(e: Encoding): seq<int>
  {
    match e
    case UTF8 => [0xEF, 0xBB, 0xBF]
    case UTF16BE => [0xFE, 0xFF]
    case UTF16LE => [0xFF, 0xFE]
    case UTF32BE => [0x00, 0x00, 0xFE, 0xFF]
    case UTF32LE => [0xFF, 0xFE, 0x00, 0x00]
    case _ => []
  }

  /** Byte i of s, or -1 past the end: a byte the source would read out of bounds matches no mark. */
  function At(s: seq<byte>, i: int): int
  {
    if 0 <= i < |s| then s[i] as int else -1
  }

  predicate StartsWith(s: seq<byte>, p: seq<int>)
  {
    |p| <= |s| && forall i :: 0 <= i < |p| ==> s[i] as int == p[i]
  }

  /**
   * GetEncoding: UTF16BE, UTF16LE, UTF8 and UTF32BE are recognised by their marks;
   * the UTF16LE check comes first and also accepts every UTF32LE mark, so UTF32LE
   * is never returned.
   */
  function GetEncoding(bytes: seq<byte>): (r: Encoding)
    ensures r != UTF32LE && r != Encoding.None
    ensures r == UTF16BE <==> StartsWith(bytes, Bom(UTF16BE))
    ensures r == UTF16LE <==> StartsWith(bytes, Bom(UTF16LE))
    ensures r == UTF8 <==> StartsWith(bytes, Bom(UTF8))
    ensures r == UTF32BE <==> StartsWith(bytes, Bom(UTF32BE))
    ensures StartsWith(bytes, Bom(r))
  {
    if At(bytes, 0) == 0xFE && At(bytes, 1) == 0xFF then UTF16BE
    else if At(bytes, 0) == 0xFF && At(bytes, 1) == 0xFE then UTF16LE
    else if At(bytes, 0) == 0xEF && At(bytes, 1) == 0xBB && At(bytes, 2) == 0xBF then UTF8
    else if At(bytes, 0) == 0x00 && At(bytes, 1) == 0x00 && At(bytes, 2) == 0xFE && At(bytes, 3) == 0xFF then UTF32BE
    else if At(bytes, 0) == 0xFF && At(bytes, 1) == 0xFE && At(bytes, 2) == 0x00 && At(bytes, 3) == 0x00 then UTF32LE
    else Unknown
  }

  /** A UTF-32LE mark is taken for a UTF-16LE one. */
  lemma Utf32LeReadAsUtf16Le(bytes: seq<byte>)
    requires StartsWith(bytes, Bom(UTF32LE))
    ensures GetEncoding(bytes) == UTF16LE
  {
  }

  /** GetPreambleSize: the length of the encoding's mark (0 for None and Unknown). */
  function GetPreambleSize(e: Encoding): (r: nat)
    ensures r == |Bom(e)|
  {
    match e
    case UTF8 => 3
    case UTF16BE => 2
    case UTF16LE => 2
    case UTF32BE => 4
    case UTF32LE => 4
    case _ => 0
  }

  /** GetMinCharSize: the code unit size. */
  function GetMinCharSize(e: Encoding): (r: nat)
    ensures r <= GetMaxCharSize(e)
    ensures r == 0 <==> e.None? || e.Unknown?
  {
    match e
    case UTF8 => 1
    case UTF16BE => 2
    case UTF16LE => 2
    case UTF32BE => 4
    case UTF32LE => 4
    case _ => 0
  }

  /** GetMaxCharSize: 4 for every known encoding, 0 otherwise. */
  function GetMaxCharSize(e: Encoding): (r: nat)
    ensures r == (if e.None? || e.Unknown? then 0 else 4)
  {
    match e
    case UTF8 => 4
    case UTF16BE => 4
    case UTF16LE => 4
    case UTF32BE => 4
    case UTF32LE => 4
    case _ => 0
  }

  /** GetTextLength: the int the extra data starts with. */
  function GetTextLength(extra: seq<byte>, at: nat): int
    requires at + 4 <= |extra|
  {
    ReadInt32(extra, at)
  }

  /** GetEncoding on a handle: the mark is looked for after the 4-byte length. */
  function HandleEncoding(extra: seq<byte>, at: nat): Encoding
  {
    GetEncoding(if at + 4 <= |extra| then extra[at + 4..] else [])
  }

  /** GetTextContent: the text starts after the length and the mark of the detected encoding. */
  function GetTextContent(extra: seq<byte>, at: nat): (r: nat)
    ensures r == at + 4 + |Bom(HandleEncoding(extra, at))|
  {
    at + 4 + GetPreambleSize(HandleEncoding(extra, at))
  }
}
