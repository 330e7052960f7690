/**
 * PropertyTypeConverters: the array conversions a material binding applies
 * to a property's values before they reach the shader. Each converter reads
 * length elements of one struct type and writes element i of the result
 * from element i of the input; colours in bytes are scaled to [0, 1] by
 * dividing by 255, lengths give their normalised realValue.
 */
module PropertyTypeConverter {
  import opened Bytes
  import opened Floats
  import opened VertexData
  import opened UiLength
  import opened CompositeData

  /** UnityEngine.Color: four float channels. */
  datatype FloatColor = FloatColor(r: Float, g: Float, b: Float, a: Float)

  /** float4x4 built from four float4 columns. */
  datatype Float4x4 = Float4x4(c0: Float4, c1: Float4, c2: Float4, c3: Float4)

  /** The BindingType a converter is chosen by. */
  datatype BindingType = Color32Binding | ColorBinding | UILengthBinding
    | CompositeData2UILength | CompositeData3UILength | CompositeData4UILength
    | CompositeData4Color | CompositeData4Color32

  /** A channel byte over 255f: in [0, 1], and 255 times it is the byte again. */
  function Unit(b: byte): (r: Float)
    ensures r.Fin? && 0.0 <= r.v <= 1.0 && r.v * 255.0 == b as real
  {
    Fin(b as real / 255.0)
  }

  function Color32Value(c: Color32): Float4
  {
    Float4(Unit(c.r), Unit(c.g), Unit(c.b), Unit(c.a))
  }

  function ColorValue(c: FloatColor): Float4
  {
    Float4(c.r, c.g, c.b, c.a)
  }

  function LengthValue(l: UILength): Float
  {
    l.realValue
  }

  function Length2Value(c: CompositeData2<UILength>): Float2
  {
    Float2(c.x.realValue, c.y.realValue)
  }

  function Length3Value(c: CompositeData3<UILength>): Float3
  {
    Float3(c.x.realValue, c.y.realValue, c.z.realValue)
  }

  function Length4Value(c: CompositeData4<UILength>): Float4
  {
    Float4(c.x.realValue, c.y.realValue, c.z.realValue, c.w.realValue)
  }

  function Color4Value(c: CompositeData4<FloatColor>): Float4x4
  {
    Float4x4(ColorValue(c.x), ColorValue(c.y), ColorValue(c.z), ColorValue(c.w))
  }

  function Color32x4Value(c: CompositeData4<Color32>): Float4x4
  {
    Float4x4(Color32Value(c.x), Color32Value(c.y), Color32Value(c.z), Color32Value(c.w))
  }

  /**
   * The loop every converter runs: result[i] := f(input[i]) for i below
   * length, nothing for a negative length, and no other element of result
   * changes.
   */
  method Convert<S, T>(input: array<S>, result: array<T>, length: int, f: S -> T)
    requires length <= input.Length && length <= result.Length
    modifies result
    ensures forall i :: 0 <= i < length ==> result[i] == f(old(input[i]))
    ensures forall i :: 0 <= i < result.Length && !(0 <= i < length) ==> result[i] == old(result[i])
  {
    var i := 0;
    while i < length
      invariant 0 <= i <= if length < 0 then 0 else length
      invariant forall j :: 0 <= j < i ==> result[j] == f(old(input[j]))
      invariant forall j :: i <= j < length ==> input[j] == old(input[j])
      invariant forall j :: 0 <= j < result.Length && !(0 <= j < i) ==> result[j] == old(result[j])
    {
      result[i] := f(input[i]);
      i := i + 1;
    }
  }

  method ConvertColor32(color: array<Color32>, result: array<Float4>, length: int)
    requires length <= color.Length && length <= result.Length
    modifies result
    ensures forall i :: 0 <= i < length ==> result[i] == Color32Value(color[i])
    ensures forall i :: 0 <= i < result.Length && !(0 <= i < length) ==> result[i] == old(result[i])
  {
    Convert(color, result, length, Color32Value);
  }

  method ConvertColor(color: array<FloatColor>, result: array<Float4>, length: int)
    requires length <= color.Length && length <= result.Length
    modifies result
    ensures forall i :: 0 <= i < length ==> result[i] == ColorValue(color[i])
    ensures forall i :: 0 <= i < result.Length && !(0 <= i < length) ==> result[i] == old(result[i])
  {
    Convert(color, result, length, ColorValue);
  }

  method ConvertUILength(uiLength: array<UILength>, result: array<Float>, length: int)
    requires length <= uiLength.Length && length <= result.Length
    modifies result
    ensures forall i :: 0 <= i < length ==> result[i] == uiLength[i].realValue
    ensures forall i :: 0 <= i < result.Length && !(0 <= i < length) ==> result[i] == old(result[i])
  {
    Convert(uiLength, result, length, LengthValue);
  }

  method ConvertLength2(uiLengths: array<CompositeData2<UILength>>, result: array<Float2>, length: int)
    requires length <= uiLengths.Length && length <= result.Length
    modifies result
    ensures forall i :: 0 <= i < length ==> result[i] == Length2Value(uiLengths[i])
    ensures forall i :: 0 <= i < result.Length && !(0 <= i < length) ==> result[i] == old(result[i])
  {
    Convert(uiLengths, result, length, Length2Value);
  }

  method ConvertLength3(uiLengths: array<CompositeData3<UILength>>, result: array<Float3>, length: int)
    requires length <= uiLengths.Length && length <= result.Length
    modifies result
    ensures forall i :: 0 <= i < length ==> result[i] == Length3Value(uiLengths[i])
    ensures forall i :: 0 <= i < result.Length && !(0 <= i < length) ==> result[i] == old(result[i])
  {
    Convert(uiLengths, result, length, Length3Value);
  }

  method ConvertLength4(uiLengths: array<CompositeData4<UILength>>, result: array<Float4>, length: int)
    requires length <= uiLengths.Length && length <= result.Length
    modifies result
    ensures forall i :: 0 <= i < length ==> result[i] == Length4Value(uiLengths[i])
    ensures forall i :: 0 <= i < result.Length && !(0 <= i < length) ==> result[i] == old(result[i])
  {
    Convert(uiLengths, result, length, Length4Value);
  }

  method ConvertColor4(colors: array<CompositeData4<FloatColor>>, result: array<Float4x4>, length: int)
    requires length <= colors.Length && length <= result.Length
    modifies result
    ensures forall i :: 0 <= i < length ==> result[i] == Color4Value(colors[i])
    ensures forall i :: 0 <= i < result.Length && !(0 <= i < length) ==> result[i] == old(result[i])
  {
    Convert(colors, result, length, Color4Value);
  }

  method ConvertColor32x4(colors: array<CompositeData4<Color32>>, result: array<Float4x4>, length: int)
    requires length <= colors.Length && length <= result.Length
    modifies result
    ensures forall i :: 0 <= i < length ==> result[i] == Color32x4Value(colors[i])
    ensures forall i :: 0 <= i < result.Length && !(0 <= i < length) ==> result[i] == old(result[i])
  {
    Convert(colors, result, length, Color32x4Value);
  }

  /**
   * The byte colour converters are their float counterparts after scaling
   * each channel: a Color32 converts like the Color with its channels over
   * 255, and the composite converters apply the single-colour conversion to
   * X, Y, Z and W in that order.
   */
  lemma ByteColoursScale(c: Color32, cs: CompositeData4<Color32>)
    ensures Color32Value(c) == ColorValue(FloatColor(Unit(c.r), Unit(c.g), Unit(c.b), Unit(c.a)))
    ensures Color32x4Value(cs) == Color4Value(CompositeData4(
      FloatColor(Unit(cs.x.r), Unit(cs.x.g), Unit(cs.x.b), Unit(cs.x.a)), FloatColor(Unit(cs.y.r), Unit(cs.y.g), Unit(cs.y.b), Unit(cs.y.a)),
      FloatColor(Unit(cs.z.r), Unit(cs.z.g), Unit(cs.z.b), Unit(cs.z.a)), FloatColor(Unit(cs.w.r), Unit(cs.w.g), Unit(cs.w.b), Unit(cs.w.a))))
  {
  }

  /** A byte channel maps to 0 and 1 exactly at 0 and 255, and larger bytes give larger values. */
  lemma UnitEnds(a: byte, b: byte)
    ensures Unit(0) == Zero && Unit(255) == One
    ensures a < b ==> Unit(a).v < Unit(b).v
  {
  }

  /** The UILength converters read only realValue: two lengths with the same normalised values convert alike. */
  lemma LengthsIgnoreRaw(a: CompositeData4<UILength>, b: CompositeData4<UILength>)
    requires a.x.realValue == b.x.realValue && a.y.realValue == b.y.realValue
    requires a.z.realValue == b.z.realValue && a.w.realValue == b.w.realValue
    ensures Length4Value(a) == Length4Value(b)
    ensures Length2Value(CompositeData2(a.x, a.y)) == Length2Value(CompositeData2(b.x, b.y))
    ensures Length3Value(CompositeData3(a.x, a.y, a.z)) == Length3Value(CompositeData3(b.x, b.y, b.z))
    ensures LengthValue(a.x) == LengthValue(b.x)
  {
  }
}
