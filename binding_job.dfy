/**
 * UIBindingJob: copies one property of every node of a batch into a
 * material-property component, as vectorLength floats per node. Each float
 * is read from the node's buffer with the property's source type, converted
 * to float and divided by a normaliser chosen from four hints.
 *
 * The single and double formats are decoded by functions given as
 * parameters (the IEEE-754 bit layouts are not modelled); the integer
 * formats are decoded little-endian, two's complement for the signed ones.
 */
module BindingJob {
  import opened Bytes
  import opened Floats
  import opened ConfigHandle
  import opened ConfigHandleExtensions

  /** System.TypeCode. */
  datatype TypeCode = Empty | Object | DBNull | Boolean | Char | SByte | Byte | Int16 | UInt16
    | Int32 | UInt32 | Int64 | UInt64 | Single | Double | Decimal | DateTime | String

  /** NormalizerHint: what a component is divided by. */
  datatype NormalizerHint = NoHint | ColorHint | WidthHint | HeightHint

  /** BindingHintData: the four hints, in order x, y, z, w. */
  datatype BindingHintData = BindingHintData(value: seq<NormalizerHint>)
  {
    ghost predicate Valid() { |value| == HintSize }

    /** The indexer: the index-th hint (the fixed buffer is not bounds-checked, so the caller keeps index below 4). */
    function Get(index: int): (r: NormalizerHint)
      requires Valid() && 0 <= index < HintSize
    {
      value[index]
    }
  }

  const HintSize: nat := 4

  /** Create and the constructor: the hints laid out as given. */
  function CreateHints(x: NormalizerHint, y: NormalizerHint, z: NormalizerHint, w: NormalizerHint): (r: BindingHintData)
    ensures r.Valid()
  {
    BindingHintData([x, y, z, w])
  }

  /** The indexer gives back the hints in the order Create took them. */
  lemma HintsInOrder(x: NormalizerHint, y: NormalizerHint, z: NormalizerHint, w: NormalizerHint)
    ensures var h := CreateHints(x, y, z, w);
      h.Get(0) == x && h.Get(1) == y && h.Get(2) == z && h.Get(3) == w
  {
  }

  /** The decoders for the two floating-point source types. */
  datatype FloatCodec = FloatCodec(single: seq<byte> -> Float, double: seq<byte> -> Float)

  /** The fields of the job that stay fixed for the whole batch. */
  datatype Binding = Binding(property: PropertyRef, sourceTypeCode: TypeCode, fieldOffset: int, vectorLength: int,
                             hints: BindingHintData, propertySize: int)

  /** GetSize: the bytes of one value of the type, 0 for a type it does not know. */
  function GetSize(code: TypeCode): (r: nat)
  {
    match code
    case Byte => 1
    case Double => 8
    case Int16 => 2
    case Int32 => 4
    case Int64 => 8
    case SByte => 1
    case Single => 4
    case UInt16 => 2
    case UInt32 => 4
    case UInt64 => 8
    case _ => 0
  }

  /** n bytes of data from at; a byte outside the buffer reads as 0. */
  function ReadBytes(data: seq<byte>, at: int, n: nat): (r: seq<byte>)
    ensures |r| == n
  {
    seq(n, k requires 0 <= k < n => if 0 <= at + k < |data| then data[at + k] else 0)
  }

  /** The two's complement reading of an unsigned w-byte value. */
  function Signed(n: int, w: nat): int
  {
    if n >= Pow256(w) / 2 then n - Pow256(w) else n
  }

  /** An integer source type: its width and whether it is signed. */
  predicate IsInteger(code: TypeCode)
  {
    code.Byte? || code.SByte? || code.Int16? || code.UInt16? || code.Int32? || code.UInt32? || code.Int64? || code.UInt64?
  }

  predicate IsSigned(code: TypeCode)
  {
    code.SByte? || code.Int16? || code.Int32? || code.Int64?
  }

  /** ToFloat: the value at `at` read with the source type, as a float; 0 for a type it does not know. */
  function ToFloat(code: TypeCode, codec: FloatCodec, data: seq<byte>, at: int): Float
  {
    var b := ReadBytes(data, at, GetSize(code));
    if code.Single? then codec.single(b)
    else if code.Double? then codec.double(b)
    else if IsSigned(code) then Fin(Signed(FromLE(b), GetSize(code)) as real)
    else if IsInteger(code) then Fin(FromLE(b) as real)
    else Zero
  }

  /** GetNormalizerValue: 255 for colours, the node's width or height when positive (else 1), 1 otherwise. */
  function GetNormalizerValue(hint: NormalizerHint, header: RuntimeHeader): Float
  {
    match hint
    case ColorHint => Fin(255.0)
    case WidthHint => var w := GetWidth(header); if Less(Zero, w) then w else One
    case HeightHint => var h := GetHeight(header); if Less(Zero, h) then h else One
    case NoHint => One
  }

  /** BuildNormalizer: the normaliser of each hint. */
  function BuildNormalizer(hints: BindingHintData, header: RuntimeHeader): Float4
    requires hints.Valid()
  {
    Float4(GetNormalizerValue(hints.Get(0), header), GetNormalizerValue(hints.Get(1), header),
           GetNormalizerValue(hints.Get(2), header), GetNormalizerValue(hints.Get(3), header))
  }

  /** GetNormalizerForIndex: 1 -> x, 2 -> y, 3 -> z, 4 -> w and 1 for anything else, 0 included. */
  function GetNormalizerForIndex(normalizer: Float4, i: int): Float
  {
    if i == 1 then normalizer.x
    else if i == 2 then normalizer.y
    else if i == 3 then normalizer.z
    else if i == 4 then normalizer.w
    else One
  }

  /** The step between two components: sizeof(TUIProperty) - fieldOffset - GetSize. */
  function Stride(job: Binding): int
  {
    job.propertySize - job.fieldOffset - GetSize(job.sourceTypeCode)
  }

  /** i strides from the start, added one at a time as the loop's ptr += stride does. */
  function Steps(i: nat, stride: int): int
  {
    if i == 0 then 0 else Steps(i - 1, stride) + stride
  }

  /** So component i is read i * stride bytes past the first. */
  lemma {:induction false} StepsIsMul(i: nat, stride: int)
    ensures Steps(i, stride) == i * stride
  {
    if i > 0 {
      StepsIsMul(i - 1, stride);
    }
  }

  /**
   * An integer field holding n, written little-endian in the type's width,
   * converts to exactly n: the unsigned types for 0 <= n < 256^w and the
   * signed types for -256^w/2 <= n < 256^w/2 (stored as n modulo 256^w).
   */
  lemma {:induction false} IntegerRoundTrip(code: TypeCode, codec: FloatCodec, data: seq<byte>, at: nat, n: int)
    requires IsInteger(code)
    requires at + GetSize(code) <= |data|
    requires IsSigned(code) ==> -(Pow256(GetSize(code)) / 2) <= n < Pow256(GetSize(code)) / 2
    requires !IsSigned(code) ==> 0 <= n < Pow256(GetSize(code))
    requires data[at..at + GetSize(code)] == LE(n % Pow256(GetSize(code)), GetSize(code))
    ensures ToFloat(code, codec, data, at) == Fin(n as real)
  {
    var w := GetSize(code);
    ModRange(n, Pow256(w));
    ReadLE(data, at, w, n % Pow256(w));
    if IsSigned(code) {
      assert Signed(n % Pow256(w), w) == n;
    } else {
      assert n % Pow256(w) == n;
    }
  }

  /** n modulo p is n itself on [0, p) and n + p on [-p, 0). */
  lemma ModRange(n: int, p: nat)
    requires p > 0 && -(p as int) <= n < p
    ensures 0 <= n ==> n % p == n
    ensures n < 0 ==> n % p == n + p
  {
    if n < 0 {
      DivModUnique(n, p, -1, n + p);
    } else {
      DivModUnique(n, p, 0, n);
    }
  }

  /** The w bytes read at `at` are the little-endian form of u, so they decode to u. */
  lemma ReadLE(data: seq<byte>, at: nat, w: nat, u: nat)
    requires at + w <= |data| && u < Pow256(w)
    requires data[at..at + w] == LE(u, w)
    ensures FromLE(ReadBytes(data, at, w)) == u
  {
    assert ReadBytes(data, at, w) == data[at..at + w];
    FromLEOfLE(u, w);
  }

  /** Every normaliser is positive: a finite value above 0 or +infinity, never 0 or NaN. */
  lemma NormalizerPositive(hint: NormalizerHint, header: RuntimeHeader)
    ensures var r := GetNormalizerValue(hint, header); (r.Fin? && r.v > 0.0) || r.PosInf?
    ensures hint.WidthHint? ==> (GetNormalizerValue(hint, header) == GetWidth(header) <==> Less(Zero, GetWidth(header)))
    ensures hint.HeightHint? ==> (GetNormalizerValue(hint, header) == GetHeight(header) <==> Less(Zero, GetHeight(header)))
  {
  }

  /**
   * Component 0 is divided by 1 and component i, for 1 <= i < 4, by the
   * normaliser of hint i - 1: the hints are taken one place late, and the
   * fourth hint only normalises a fifth component.
   */
  lemma NormalizerShift(hints: BindingHintData, header: RuntimeHeader, i: int)
    requires hints.Valid()
    ensures i <= 0 || i > HintSize ==> GetNormalizerForIndex(BuildNormalizer(hints, header), i) == One
    ensures 1 <= i <= HintSize ==> GetNormalizerForIndex(BuildNormalizer(hints, header), i) == GetNormalizerValue(hints.Get(i - 1), header)
  {
  }

  /** Dividing by a positive normaliser: a finite value stays finite, and component 0 is the raw value. */
  lemma DivideByNormalizer(a: Float, n: Float)
    requires (n.Fin? && n.v > 0.0) || n.PosInf?
    ensures a.Fin? ==> Div(a, n).Fin?
    ensures a.Fin? && n.Fin? ==> Div(a, n) == Fin(a.v / n.v)
    ensures Div(a, One) == a
  {
  }

  /**
   * A node whose property is found gets the value of each of its components
   * over that component's normaliser, finite whenever the value is, and
   * component 0 is the value itself; a node without it gets 0 everywhere.
   */
  lemma ComponentValue(job: Binding, codec: FloatCodec, data: seq<byte>, header: RuntimeHeader, location: Option<nat>, i: nat)
    requires job.hints.Valid()
    ensures location.None? ==> Component(job, codec, data, header, location, i) == Zero
    ensures location.Some? && i == 0 ==>
      Component(job, codec, data, header, location, i) == ToFloat(job.sourceTypeCode, codec, data, location.value + job.fieldOffset)
    ensures location.Some? && ToFloat(job.sourceTypeCode, codec, data, location.value + Steps(i, Stride(job)) + job.fieldOffset).Fin? ==>
      Component(job, codec, data, header, location, i).Fin?
  {
    var normalizer := BuildNormalizer(job.hints, header);
    NormalizerShift(job.hints, header, i);
    if 1 <= i <= HintSize {
      NormalizerPositive(job.hints.Get(i - 1), header);
    }
    DivideByNormalizer(ToFloat(job.sourceTypeCode, codec, data, (if location.Some? then location.value else 0) + Steps(i, Stride(job)) + job.fieldOffset),
                       GetNormalizerForIndex(normalizer, i));
  }

  /** Where TryGetProperty finds the property in a buffer, if it does. */
  function PropertyAt(data: seq<byte>, property: PropertyRef): Option<nat>
    requires WellFormed(data)
  {
    AddOffset(ScanSpec(Blocks(data), property.blockHash, false), BH + property.offset)
  }

  /** Component i of a node whose property lies at location: 0 without it, else the i-th value over its normaliser. */
  function Component(job: Binding, codec: FloatCodec, data: seq<byte>, header: RuntimeHeader, location: Option<nat>, i: nat): Float
    requires job.hints.Valid()
  {
    if location.None? then Zero
    else
      var value := ToFloat(job.sourceTypeCode, codec, data, location.value + Steps(i, Stride(job)) + job.fieldOffset);
      Div(value, GetNormalizerForIndex(BuildNormalizer(job.hints, header), i))
  }

  /** Component i of a node, with the property looked up in its buffer. */
  function Slot(job: Binding, codec: FloatCodec, data: seq<byte>, header: RuntimeHeader, i: nat): Float
    requires WellFormed(data) && job.hints.Valid()
  {
    Component(job, codec, data, header, PropertyAt(data, job.property), i)
  }

  /** The buffer is well formed and location is where the property lies in it. */
  ghost predicate Located(data: seq<byte>, property: PropertyRef, location: Option<nat>)
  {
    WellFormed(data) && location == PropertyAt(data, property)
  }

  /** Where the property lies in each buffer of the batch. */
  ghost function Locations(property: PropertyRef, buffers: seq<seq<byte>>): (r: seq<Option<nat>>)
    requires forall k {:trigger WellFormed(buffers[k])} :: 0 <= k < |buffers| ==> WellFormed(buffers[k])
    ensures |r| == |buffers|
    ensures forall k {:trigger Located(buffers[k], property, r[k])} :: 0 <= k < |buffers| ==> Located(buffers[k], property, r[k])
  {
    seq(|buffers|, k requires 0 <= k < |buffers| => PropertyAt(buffers[k], property))
  }

  /** What the batch leaves in the component array: the rows of all its nodes, one after another. */
  ghost function Expected(job: Binding, codec: FloatCodec, buffers: seq<seq<byte>>, headers: seq<RuntimeHeader>): seq<Float>
    requires |headers| == |buffers| && job.hints.Valid() && job.vectorLength > 0
    requires forall k {:trigger WellFormed(buffers[k])} :: 0 <= k < |buffers| ==> WellFormed(buffers[k])
  {
    Flatten(Rows(job, codec, buffers, headers, Locations(job.property, buffers)))
  }

  /**
   * Execute: the component array starts with the rows of the batch's nodes
   * (ExecutedComponent reads float index * vectorLength + i off it), and no
   * float past the last row changes. With no components per node nothing is
   * written.
   */
  method Execute(job: Binding, codec: FloatCodec, buffers: seq<seq<byte>>, headers: seq<RuntimeHeader>, components: array<Float>)
    requires |headers| == |buffers| && job.hints.Valid()
    requires forall k {:trigger WellFormed(buffers[k])} :: 0 <= k < |buffers| ==> WellFormed(buffers[k])
    requires job.vectorLength > 0 ==> RowStart(|buffers|, job.vectorLength) <= components.Length
    modifies components
    ensures job.vectorLength > 0 ==>
      components[..RowStart(|buffers|, job.vectorLength)] == Expected(job, codec, buffers, headers)
    ensures job.vectorLength > 0 ==>
      forall j :: RowStart(|buffers|, job.vectorLength) <= j < components.Length ==> components[j] == old(components[j])
    ensures job.vectorLength <= 0 ==> components[..] == old(components[..])
  {
    if job.vectorLength <= 0 {
      return;
    }
    ExecuteRows(job, codec, buffers, headers, Locations(job.property, buffers), components);
  }

  /**
   * After Execute, float RowStart(index, vectorLength) + i, that is
   * index * vectorLength + i, is component i of node index.
   */
  lemma ExecutedComponent(job: Binding, codec: FloatCodec, buffers: seq<seq<byte>>, headers: seq<RuntimeHeader>,
                          c: seq<Float>, index: nat, i: nat)
    requires |headers| == |buffers| && job.hints.Valid() && job.vectorLength > 0
    requires forall k {:trigger WellFormed(buffers[k])} :: 0 <= k < |buffers| ==> WellFormed(buffers[k])
    requires RowStart(|buffers|, job.vectorLength) <= |c| && c[..RowStart(|buffers|, job.vectorLength)] == Expected(job, codec, buffers, headers)
    requires index < |buffers| && i < job.vectorLength
    ensures RowStart(index, job.vectorLength) + i < |c|
    ensures c[RowStart(index, job.vectorLength) + i] == Slot(job, codec, buffers[index], headers[index], i)
  {
    var locations := Locations(job.property, buffers);
    var rows := Rows(job, codec, buffers, headers, locations);
    FlatRowAt(c, rows, job.vectorLength, index, i);
    assert Located(buffers[index], job.property, locations[index]);
  }

  /** The components of one node, in order. */
  ghost function Row(job: Binding, codec: FloatCodec, data: seq<byte>, header: RuntimeHeader, location: Option<nat>): (r: seq<Float>)
    requires job.hints.Valid() && job.vectorLength > 0
    ensures |r| == job.vectorLength
    ensures forall i :: 0 <= i < job.vectorLength ==> r[i] == Component(job, codec, data, header, location, i)
  {
    seq(job.vectorLength, i requires 0 <= i < job.vectorLength => Component(job, codec, data, header, location, i))
  }

  /** The rows of every node of the batch. */
  ghost function Rows(job: Binding, codec: FloatCodec, buffers: seq<seq<byte>>, headers: seq<RuntimeHeader>,
                      locations: seq<Option<nat>>): (r: seq<seq<Float>>)
    requires |headers| == |buffers| == |locations| && job.hints.Valid() && job.vectorLength > 0
    ensures |r| == |buffers|
    ensures forall b :: 0 <= b < |buffers| ==> r[b] == Row(job, codec, buffers[b], headers[b], locations[b])
  {
    seq(|buffers|, b requires 0 <= b < |buffers| => Row(job, codec, buffers[b], headers[b], locations[b]))
  }

  /** The loop over the nodes of the batch: row index is written at base = index * vectorLength. */
  method ExecuteRows(job: Binding, codec: FloatCodec, buffers: seq<seq<byte>>, headers: seq<RuntimeHeader>,
                     ghost locations: seq<Option<nat>>, components: array<Float>)
    requires |headers| == |buffers| == |locations| && job.hints.Valid() && job.vectorLength > 0
    requires forall k {:trigger Located(buffers[k], job.property, locations[k])} ::
      0 <= k < |buffers| ==> Located(buffers[k], job.property, locations[k])
    requires RowStart(|buffers|, job.vectorLength) <= components.Length
    modifies components
    ensures components[..RowStart(|buffers|, job.vectorLength)] == Flatten(Rows(job, codec, buffers, headers, locations))
    ensures forall j :: RowStart(|buffers|, job.vectorLength) <= j < components.Length ==> components[j] == old(components[j])
  {
    ghost var rows := Rows(job, codec, buffers, headers, locations);
    var vl := job.vectorLength;
    var index := 0;
    var base := 0;
    while index < |buffers|
      invariant 0 <= index <= |buffers| && base == RowStart(index, vl) && base <= components.Length
      invariant components[..base] == Flatten(rows[..index])
      invariant forall j :: base <= j < components.Length ==> components[j] == old(components[j])
    {
      RowsInOrder(index, |buffers|, vl, vl - 1);
      assert Located(buffers[index], job.property, locations[index]);
      ghost var before := components[..];
      ExecuteNode(job, codec, buffers[index], headers[index], locations[index], components, base);
      RowAppended(before, components[..], rows, index, base);
      index := index + 1;
      base := base + vl;
    }
    assert rows[..|buffers|] == rows;
  }

  /** One node of the batch: its row of components, from the property when the buffer has it and 0 otherwise. */
  method ExecuteNode(job: Binding, codec: FloatCodec, data: seq<byte>, header: RuntimeHeader, ghost location: Option<nat>,
                     components: array<Float>, base: nat)
    requires Located(data, job.property, location) && job.hints.Valid()
    requires base + job.vectorLength <= components.Length
    modifies components
    ensures forall j :: base <= j < base + job.vectorLength ==> components[j] == Component(job, codec, data, header, location, j - base)
    ensures forall j :: 0 <= j < components.Length && !(base <= j < base + job.vectorLength) ==> components[j] == old(components[j])
  {
    var normalizer := BuildNormalizer(job.hints, header);
    var found, loc := TryGetProperty(data, job.property);
    if found {
      WriteValues(job, codec, data, header, normalizer, loc.value, components, base);
    } else {
      WriteZeros(job, codec, data, header, components, base);
    }
  }

  /** Where row n of rows of w floats starts: n * w, added up one row at a time as the loop does. */
  function RowStart(n: nat, w: nat): nat
  {
    if n == 0 then 0 else RowStart(n - 1, w) + w
  }

  lemma {:induction false} RowStartIsProduct(n: nat, w: nat)
    ensures RowStart(n, w) == n * w
  {
    if n > 0 {
      RowStartIsProduct(n - 1, w);
    }
  }

  /** Float i of an earlier row comes before the start of a later row. */
  lemma {:induction false} RowsInOrder(b: nat, n: nat, w: nat, i: nat)
    requires b < n && i < w
    ensures RowStart(b, w) + i < RowStart(n, w)
  {
    if b < n - 1 {
      RowsInOrder(b, n - 1, w, i);
    }
  }

  /** The rows one after another. */
  function Flatten(rows: seq<seq<Float>>): seq<Float>
  {
    if |rows| == 0 then [] else Flatten(rows[..|rows| - 1]) + rows[|rows| - 1]
  }

  /** Rows of w floats flatten to RowStart(|rows|, w) floats. */
  lemma {:induction false} FlattenLength(rows: seq<seq<Float>>, w: nat)
    requires forall b :: 0 <= b < |rows| ==> |rows[b]| == w
    ensures |Flatten(rows)| == RowStart(|rows|, w)
  {
    if |rows| > 0 {
      FlattenLength(rows[..|rows| - 1], w);
    }
  }

  /** Float i of row b of the flattened rows is at RowStart(b, w) + i. */
  lemma {:induction false} FlattenAt(rows: seq<seq<Float>>, w: nat, b: nat, i: nat)
    requires forall k :: 0 <= k < |rows| ==> |rows[k]| == w
    requires b < |rows| && i < w
    ensures RowStart(b, w) + i < |Flatten(rows)| && Flatten(rows)[RowStart(b, w) + i] == rows[b][i]
  {
    var init := rows[..|rows| - 1];
    FlattenLength(init, w);
    if b < |rows| - 1 {
      FlattenAt(init, w, b, i);
    }
  }

  /** A sequence that starts with the flattened rows holds float i of row b at RowStart(b, w) + i. */
  lemma FlatRowAt(c: seq<Float>, rows: seq<seq<Float>>, w: nat, b: nat, i: nat)
    requires forall k :: 0 <= k < |rows| ==> |rows[k]| == w
    requires RowStart(|rows|, w) <= |c| && c[..RowStart(|rows|, w)] == Flatten(rows)
    requires b < |rows| && i < w
    ensures RowStart(b, w) + i < |c| && c[RowStart(b, w) + i] == rows[b][i]
  {
    FlattenAt(rows, w, b, i);
    FlattenLength(rows, w);
    assert c[RowStart(b, w) + i] == c[..RowStart(|rows|, w)][RowStart(b, w) + i];
  }

  /** Writing row index at base, and nothing below it, extends the flattened rows before it by that row. */
  lemma RowAppended(before: seq<Float>, after: seq<Float>, rows: seq<seq<Float>>, index: nat, base: nat)
    requires index < |rows| && |after| == |before| && base + |rows[index]| <= |after|
    requires before[..base] == Flatten(rows[..index])
    requires forall j :: base <= j < base + |rows[index]| ==> after[j] == rows[index][j - base]
    requires forall j :: 0 <= j < base ==> after[j] == before[j]
    ensures after[..base + |rows[index]|] == Flatten(rows[..index + 1])
  {
    assert rows[..index + 1][..index] == rows[..index];
    assert after[..base + |rows[index]|] == before[..base] + rows[index];
  }

  /** The inner loop when the property is found: ptr starts at the property and moves by the stride. */
  method WriteValues(job: Binding, codec: FloatCodec, data: seq<byte>, header: RuntimeHeader, normalizer: Float4,
                     location: nat, components: array<Float>, base: nat)
    requires job.hints.Valid() && normalizer == BuildNormalizer(job.hints, header)
    requires base + job.vectorLength <= components.Length
    modifies components
    ensures forall j :: base <= j < base + job.vectorLength ==> components[j] == Component(job, codec, data, header, Some(location), j - base)
    ensures forall j :: 0 <= j < components.Length && !(base <= j < base + job.vectorLength) ==> components[j] == old(components[j])
  {
    var stride := Stride(job);
    var ptr: int := location;
    var i := 0;
    while i < job.vectorLength
      invariant 0 <= i <= if job.vectorLength > 0 then job.vectorLength else 0
      invariant ptr == location + Steps(i, stride)
      invariant forall j :: 0 <= j < components.Length ==>
        components[j] == if base <= j < base + i then Component(job, codec, data, header, Some(location), j - base) else old(components[j])
    {
      components[base + i] := Div(ToFloat(job.sourceTypeCode, codec, data, ptr + job.fieldOffset), GetNormalizerForIndex(normalizer, i));
      ptr := ptr + stride;
      i := i + 1;
    }
  }

  /** The inner loop when the property is missing: default floats. */
  method WriteZeros(job: Binding, codec: FloatCodec, data: seq<byte>, header: RuntimeHeader, components: array<Float>, base: nat)
    requires job.hints.Valid()
    requires base + job.vectorLength <= components.Length
    modifies components
    ensures forall j :: base <= j < base + job.vectorLength ==> components[j] == Component(job, codec, data, header, None, j - base)
    ensures forall j :: 0 <= j < components.Length && !(base <= j < base + job.vectorLength) ==> components[j] == old(components[j])
  {
    var i := 0;
    while i < job.vectorLength
      invariant 0 <= i <= if job.vectorLength > 0 then job.vectorLength else 0
      invariant forall j :: 0 <= j < components.Length ==>
        components[j] == if base <= j < base + i then Zero else old(components[j])
    {
      components[base + i] := Zero;
      i := i + 1;
    }
  }
}
