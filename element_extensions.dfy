/**
 * UIElementExtensions: whether a constraint rectangle is bounded, and the
 * one-quad mesh of a box element (its layout rectangle inset by the margin,
 * textured with the background image's uv rectangle in the background colour).
 * Rectangles are (x, y, z, w) = (left, top, right, bottom).
 */
module ElementExtensions {
  import opened Floats
  import opened VertexData

  /** IsBoundedX: the maximum width is not an infinity (a NaN counts as bounded). */
  predicate IsBoundedX(c: Float4) { !IsInfinity(c.z) }

  predicate IsBoundedY(c: Float4) { !IsInfinity(c.w) }

  /** IsBounded checks both maxima directly. */
  predicate IsBounded(c: Float4) { !IsInfinity(c.z) && !IsInfinity(c.w) }

  /** IsBounded is IsBoundedX and IsBoundedY; an infinite maximum of either sign makes a side unbounded. */
  lemma BoundedBothWays(c: Float4)
    ensures IsBounded(c) <==> IsBoundedX(c) && IsBoundedY(c)
    ensures !IsBoundedX(c) <==> c.z == PosInf || c.z == NegInf
    ensures !IsBoundedY(c) <==> c.w == PosInf || c.w == NegInf
  {
  }

  /** Corner k of the quad, 0 top-left, 1 top-right, 2 bottom-left, 3 bottom-right. */
  function BoxCorner(layout: Float4, margin: Float4, uvData: Float4, color: Color32, k: nat): Vertex
    requires k < 4
  {
    var left := Add(layout.x, margin.x);
    var right := Sub(layout.z, margin.z);
    var top := Add(layout.y, margin.y);
    var bottom := Sub(layout.w, margin.w);
    if k == 0 then MakeVertex(Float2(left, top), color, Float2(uvData.x, uvData.y), Zero2)
    else if k == 1 then MakeVertex(Float2(right, top), color, Float2(uvData.z, uvData.y), Zero2)
    else if k == 2 then MakeVertex(Float2(left, bottom), color, Float2(uvData.x, uvData.w), Zero2)
    else MakeVertex(Float2(right, bottom), color, Float2(uvData.z, uvData.w), Zero2)
  }

  /** The four vertices GenerateBoxMesh writes, in order. */
  function BoxQuad(layout: Float4, margin: Float4, uvData: Float4, color: Color32): (r: seq<Vertex>)
    ensures |r| == 4
    ensures forall k :: 0 <= k < 4 ==> r[k] == BoxCorner(layout, margin, uvData, color, k)
  {
    [BoxCorner(layout, margin, uvData, color, 0), BoxCorner(layout, margin, uvData, color, 1),
     BoxCorner(layout, margin, uvData, color, 2), BoxCorner(layout, margin, uvData, color, 3)]
  }

  /**
   * GenerateBoxMesh: the four corners go to vertexData[at..at + 4]; margin and
   * uvData are the realValues of the box's margin and the background image's
   * uv rectangle.
   */
  method GenerateBoxMesh(layout: Float4, margin: Float4, uvData: Float4, color: Color32, vertexData: array<Vertex>, at: nat)
    requires at + 4 <= vertexData.Length
    modifies vertexData
    ensures vertexData[..] == old(vertexData[..at]) + BoxQuad(layout, margin, uvData, color) + old(vertexData[at + 4..])
  {
    ghost var before := vertexData[..];
    vertexData[at] := MakeVertex(Float2(Add(layout.x, margin.x), Add(layout.y, margin.y)), color, Float2(uvData.x, uvData.y), Zero2);
    vertexData[at + 1] := MakeVertex(Float2(Sub(layout.z, margin.z), Add(layout.y, margin.y)), color, Float2(uvData.z, uvData.y), Zero2);
    vertexData[at + 2] := MakeVertex(Float2(Add(layout.x, margin.x), Sub(layout.w, margin.w)), color, Float2(uvData.x, uvData.w), Zero2);
    vertexData[at + 3] := MakeVertex(Float2(Sub(layout.z, margin.z), Sub(layout.w, margin.w)), color, Float2(uvData.z, uvData.w), Zero2);
    assert vertexData[..] == before[..at] + BoxQuad(layout, margin, uvData, color) + before[at + 4..];
  }

  /**
   * The quad is an axis-aligned rectangle: corners 0 and 2 share the left
   * edge, 1 and 3 the right, 0 and 1 the top, 2 and 3 the bottom, and the
   * texture coordinates follow the same pattern; every corner has the colour,
   * the forward normal, z = 0 and no foreground or second uv.
   */
  lemma QuadIsRectangle(layout: Float4, margin: Float4, uvData: Float4, color: Color32)
    ensures var q := BoxQuad(layout, margin, uvData, color);
      q[0].position.x == q[2].position.x && q[1].position.x == q[3].position.x
      && q[0].position.y == q[1].position.y && q[2].position.y == q[3].position.y
      && q[0].uv1.x == q[2].uv1.x == uvData.x && q[1].uv1.x == q[3].uv1.x == uvData.z
      && q[0].uv1.y == q[1].uv1.y == uvData.y && q[2].uv1.y == q[3].uv1.y == uvData.w
    ensures forall k :: 0 <= k < 4 ==>
      var v := BoxQuad(layout, margin, uvData, color)[k];
      v.color == color && v.normal == ForwardNormal && v.position.z == Zero && v.uv1.z == Zero && v.uv1.w == Zero && v.uv2 == Zero4
  {
  }

  /**
   * On finite values the quad is the layout rectangle inset by the margin on
   * each side, with y negated: top-left (x + left margin, -(y + top margin)) and
   * bottom-right (z - right margin, -(w - bottom margin)).
   */
  lemma QuadCorners(x: real, y: real, z: real, w: real, mx: real, my: real, mz: real, mw: real, uvData: Float4, color: Color32)
    ensures var q := BoxQuad(Float4(Fin(x), Fin(y), Fin(z), Fin(w)), Float4(Fin(mx), Fin(my), Fin(mz), Fin(mw)), uvData, color);
      q[0].position.x == Fin(x + mx) && q[0].position.y == Fin(-(y + my))
      && q[3].position.x == Fin(z - mz) && q[3].position.y == Fin(-(w - mw))
  {
    var layout := Float4(Fin(x), Fin(y), Fin(z), Fin(w));
    var margin := Float4(Fin(mx), Fin(my), Fin(mz), Fin(mw));
    FiniteArithmetic(x, mx);
    FiniteArithmetic(y, my);
    FiniteArithmetic(z, mz);
    FiniteArithmetic(w, mw);
    FlipPosition(Float2(Fin(x + mx), Fin(y + my)), color, Float2(uvData.x, uvData.y), Zero2);
    FlipPosition(Float2(Fin(z - mz), Fin(w - mw)), color, Float2(uvData.z, uvData.w), Zero2);
  }
}
