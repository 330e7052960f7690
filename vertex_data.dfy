/**
 * UIVertexData: the vertex every element writes into the mesh, and the
 * vertex layout the render job hands to the mesh. The 2D position of the UI
 * (y down) is flipped into the mesh's space (y up) by multiplying with (1, -1).
 */
module VertexData {
  import opened Bytes
  import opened Floats

  datatype Float3 = Float3(x: Float, y: Float, z: Float)

  /** Color32: four bytes r, g, b, a. */
  datatype Color32 = Color32(r: byte, g: byte, b: byte, a: byte)

  const Clear32: Color32 := Color32(0, 0, 0, 0)

  datatype Vertex = Vertex(position: Float3, normal: Float3, color: Color32, uv1: Float4, uv2: Float4)

  /** The all-zero vertex MemClear leaves behind. */
  const ZeroVertex: Vertex := Vertex(Float3(Zero, Zero, Zero), Float3(Zero, Zero, Zero), Clear32, Zero4, Zero4)

  /** flipVector = (1, -1). */
  const FlipVector: Float2 := Float2(One, Fin(-1.0))

  /** math.forward() = (0, 0, 1). */
  const ForwardNormal: Float3 := Float3(Zero, Zero, One)

  /** The UIVertexData constructor: position * flipVector with z = 0, the forward normal, uv1 = (background, foreground), uv2 = 0. */
  function MakeVertex(position: Float2, color: Color32, background: Float2, foreground: Float2): Vertex
  {
    Vertex(
      Float3(Mul(position.x, FlipVector.x), Mul(position.y, FlipVector.y), Zero),
      ForwardNormal, color,
      Float4(background.x, background.y, foreground.x, foreground.y),
      Zero4)
  }

  /** Multiplying by 1 keeps any value, NaN and the infinities included. */
  lemma MulOne(a: Float)
    ensures Mul(a, One) == a
  {
  }

  /** Multiplying by -1 negates any value, NaN and the infinities included. */
  lemma MulMinusOne(a: Float)
    ensures Mul(a, Fin(-1.0)) == Neg(a)
  {
  }

  /**
   * The flip keeps x and negates y, whatever the values (an infinite or NaN
   * coordinate stays infinite or NaN); the vertex lies in the z = 0 plane.
   */
  lemma FlipPosition(position: Float2, color: Color32, background: Float2, foreground: Float2)
    ensures MakeVertex(position, color, background, foreground).position == Float3(position.x, Neg(position.y), Zero)
  {
    MulOne(position.x);
    MulMinusOne(position.y);
  }

  /** Flipping twice gives the UI position back. */
  lemma FlipTwice(position: Float2, color: Color32, background: Float2, foreground: Float2)
    ensures var p := MakeVertex(position, color, background, foreground).position;
      Neg(p.y) == position.y && p.x == position.x
  {
    FlipPosition(position, color, background, foreground);
  }

  // ---------------------------------------------------------------- the vertex layout

  datatype VertexAttribute = Position | Normal | Color | TexCoord0 | TexCoord1
  datatype VertexAttributeFormat = Float32 | UNorm8

  datatype VertexAttributeDescriptor = VertexAttributeDescriptor(attribute: VertexAttribute, format: VertexAttributeFormat, dimension: nat)

  /** The bytes one component of a format takes. */
  function FormatSize(f: VertexAttributeFormat): nat
  {
    match f
    case Float32 => 4
    case UNorm8 => 1
  }

  /** The bytes a run of attributes takes, one after another in one stream. */
  function Stride(ds: seq<VertexAttributeDescriptor>): nat
  {
    if ds == [] then 0 else Stride(ds[..|ds| - 1]) + FormatSize(ds[|ds| - 1].format) * ds[|ds| - 1].dimension
  }

  /** The bytes of the UIVertexData struct: float3, float3, Color32, float4, float4, with no padding (every field is 4-aligned). */
  const VertexSize: nat := 12 + 12 + 4 + 16 + 16

  /**
   * A vertex attribute stream as the mesh reads it: attribute k starts where
   * attribute k - 1 ends.
   */
  function AttributeOffset(ds: seq<VertexAttributeDescriptor>, k: nat): nat
    requires k <= |ds|
  {
    Stride(ds[..k])
  }

  /** The layout AllocateVertexDescriptor produces. */
  const VertexLayout: seq<VertexAttributeDescriptor> := [
    VertexAttributeDescriptor(Position, Float32, 3),
    VertexAttributeDescriptor(Normal, Float32, 3),
    VertexAttributeDescriptor(Color, UNorm8, 4),
    VertexAttributeDescriptor(TexCoord0, Float32, 4),
    VertexAttributeDescriptor(TexCoord1, Float32, 4)]

  /** AllocateVertexDescriptor: a fresh array of the five descriptors. */
  method AllocateVertexDescriptor() returns (a: array<VertexAttributeDescriptor>)
    ensures fresh(a) && a[..] == VertexLayout
  {
    a := new VertexAttributeDescriptor[5];
    a[0] := VertexAttributeDescriptor(Position, Float32, 3);
    a[1] := VertexAttributeDescriptor(Normal, Float32, 3);
    a[2] := VertexAttributeDescriptor(Color, UNorm8, 4);
    a[3] := VertexAttributeDescriptor(TexCoord0, Float32, 4);
    a[4] := VertexAttributeDescriptor(TexCoord1, Float32, 4);
  }

  /**
   * The layout matches the struct: the attributes take exactly the struct's
   * bytes, and each one starts at the offset of its field (position 0,
   * normal 12, color 24, uv1 28, uv2 44).
   */
  lemma LayoutMatchesStruct()
    ensures Stride(VertexLayout) == VertexSize
    ensures AttributeOffset(VertexLayout, 1) == 12
    ensures AttributeOffset(VertexLayout, 2) == 24
    ensures AttributeOffset(VertexLayout, 3) == 28
    ensures AttributeOffset(VertexLayout, 4) == 44
  {
    var l := VertexLayout;
    assert l[..1] == [] + [l[0]];
    assert l[..2] == l[..1] + [l[1]];
    assert l[..3] == l[..2] + [l[2]];
    assert l[..4] == l[..3] + [l[3]];
    assert l == l[..4] + [l[4]];
    StrideSnoc([], l[0]);
    StrideSnoc(l[..1], l[1]);
    StrideSnoc(l[..2], l[2]);
    StrideSnoc(l[..3], l[3]);
    StrideSnoc(l[..4], l[4]);
  }

  lemma StrideSnoc(ds: seq<VertexAttributeDescriptor>, d: VertexAttributeDescriptor)
    ensures Stride(ds + [d]) == Stride(ds) + FormatSize(d.format) * d.dimension
  {
    assert (ds + [d])[..|ds|] == ds;
  }

  /** Each attribute appears once. */
  lemma AttributesDistinct()
    ensures forall i, j :: 0 <= i < j < |VertexLayout| ==> VertexLayout[i].attribute != VertexLayout[j].attribute
  {
  }
}
