/**
 * The Text element: its size and its mesh, both read from the code points
 * the UTF-8 enumerator yields from the text record in the extra data. Each
 * glyph advances a pen by (bearing.x + advance) * fontScale, where fontScale
 * is the font size over the face's line height times the face's scale; Size
 * sums the advances and GenerateMeshData puts one quad per glyph at the pen.
 */
module TextElement {
  import opened Bytes
  import opened Floats
  import opened VertexData
  import opened UiText
  import opened PropertyBlocks
  import opened EditorUtility

  /**
   * A Text element's blocks: the offset of its text record in the extra
   * data, the font blob (None when it is not created) and the font size's realValue.
   */
  datatype Text = Text(extraDataOffset: nat, fontInfo: Option<UIFontInfo>, fontSize: Float)

  /** A font blob the indexer can read: at least one bucket, every pair naming a glyph. */
  predicate Usable(font: UIFontInfo)
  {
    |font.glyphs.keys| > 0 && Indexed(font.glyphs)
  }

  predicate FontUsable(t: Text)
  {
    t.fontInfo.Some? ==> Usable(t.fontInfo.value)
  }

  predicate ValidCodePoints(cps: seq<int>)
  {
    forall i :: 0 <= i < |cps| ==> 0 <= cps[i] < TwoTo32
  }

  /** fontHeight / lineHeight * scale. */
  function FontScale(fontSize: Float, face: UIFaceInfo): Float
  {
    Mul(Div(fontSize, face.lineHeight), face.scale)
  }

  function GlyphOf(font: UIFontInfo, c: int): UIGlyph
    requires Usable(font)
  {
    if 0 <= c < TwoTo32 then GlyphFor(font.glyphs, c) else DefaultGlyph
  }

  /** How far one glyph moves the pen. */
  function Advance(g: UIGlyph, fontScale: Float): Float
  {
    Mul(Add(g.horizontalBearing.x, g.horizontalAdvance), fontScale)
  }

  /** The pen's x after the glyphs of cps, one after another, starting at x. */
  function PenAfter(font: UIFontInfo, cps: seq<int>, fontScale: Float, x: Float): Float
    requires Usable(font)
  {
    if cps == [] then x
    else PenAfter(font, cps[1..], fontScale, Add(x, Advance(GlyphOf(font, cps[0]), fontScale)))
  }

  /** The code points of the element's text: the enumerator starts past the length and the preamble. */
  function TextOf(t: Text, extraData: seq<byte>): (r: seq<int>)
  {
    CodePoints(Tail(extraData, t.extraDataOffset + LengthSize + PreambleSize), 0, 0)
  }

  /** The size Size computes: nothing without a font, else the summed advances by the font size. */
  function SizeOf(t: Text, extraData: seq<byte>): Float2
    requires FontUsable(t)
  {
    if t.fontInfo.None? then Zero2
    else
      var font := t.fontInfo.value;
      Float2(PenAfter(font, TextOf(t, extraData), FontScale(t.fontSize, font.faceInfo), Zero), t.fontSize)
  }

  /** Size: a loop over the enumerator that adds each glyph's advance to the width. */
  method Size(t: Text, extraData: seq<byte>) returns (size: Float2)
    requires FontUsable(t)
    ensures size == SizeOf(t, extraData)
  {
    if t.fontInfo.Some? {
      var fontInfo := t.fontInfo.value;
      var fontHeight := t.fontSize;
      var fontScale := FontScale(fontHeight, fontInfo.faceInfo);
      size := Float2(Zero, fontHeight);
      var iter := new CodePointEnumerator(extraData, t.extraDataOffset, true, true);
      ghost var all := TextOf(t, extraData);
      ghost var rem := all;
      while true
        invariant iter.Valid() && iter.offset <= |iter.location|
        invariant rem == CodePoints(iter.location, iter.offset, iter.current)
        invariant size.y == fontHeight
        invariant PenAfter(fontInfo, all, fontScale, Zero) == PenAfter(fontInfo, rem, fontScale, size.x)
        decreases |iter.location| - iter.offset
      {
        var more := NextCodePoint(iter, rem);
        if !more {
          break;
        }
        var charInfo := Lookup(fontInfo, iter.current);
        size := Float2(Add(size.x, Advance(charInfo, fontScale)), size.y);
        rem := rem[1..];
      }
    } else {
      size := Zero2;
    }
  }

  // ---------------------------------------------------------------- the mesh

  /**
   * The quad of one glyph with the pen at pen: the glyph box starts
   * bearing.x right of the pen and (ascentLine - bearing.y) below it, is
   * size wide and high, all scaled by fontScale; every corner takes the top-left of the glyph's uv rectangle.
   */
  function GlyphQuad(pen: Float2, g: UIGlyph, fontScale: Float, ascentLine: Float): (r: seq<Vertex>)
    ensures |r| == 4
  {
    var left := Add(pen.x, Mul(g.horizontalBearing.x, fontScale));
    var right := Add(pen.x, Mul(Add(g.horizontalBearing.x, g.size.x), fontScale));
    var top := Add(pen.y, Mul(Sub(ascentLine, g.horizontalBearing.y), fontScale));
    var bottom := Add(pen.y, Mul(Add(Sub(ascentLine, g.horizontalBearing.y), g.size.y), fontScale));
    var uv := Float2(Fin(g.uvs.x as real), Fin(g.uvs.y as real));
    [MakeVertex(Float2(left, top), Clear32, uv, Zero2), MakeVertex(Float2(right, top), Clear32, uv, Zero2),
     MakeVertex(Float2(left, bottom), Clear32, uv, Zero2), MakeVertex(Float2(right, bottom), Clear32, uv, Zero2)]
  }

  /** The quads of the glyphs of cps, the pen moving right by each glyph's advance. */
  function TextQuads(font: UIFontInfo, cps: seq<int>, fontScale: Float, pen: Float2): (r: seq<Vertex>)
    requires Usable(font)
    ensures |r| == 4 * |cps|
  {
    if cps == [] then []
    else
      var g := GlyphOf(font, cps[0]);
      GlyphQuad(pen, g, fontScale, font.faceInfo.ascentLine)
        + TextQuads(font, cps[1..], fontScale, Float2(Add(pen.x, Advance(g, fontScale)), pen.y))
  }

  /** The vertices GenerateMeshData writes from index 0 on. */
  function MeshOf(t: Text, layout: Float4, extraData: seq<byte>): (r: seq<Vertex>)
    requires FontUsable(t)
  {
    if t.fontInfo.None? then []
    else
      var font := t.fontInfo.value;
      TextQuads(font, TextOf(t, extraData), FontScale(t.fontSize, font.faceInfo), Float2(layout.x, layout.y))
  }

  /** Writes the quad of one glyph at 4 * index .. 4 * index + 3 and nothing else. */
  method WriteGlyphQuad(vertexData: array<Vertex>, index: nat, pen: Float2, g: UIGlyph, fontScale: Float, ascentLine: Float)
    requires 4 * index + 4 <= vertexData.Length
    modifies vertexData
    ensures forall j :: 4 * index <= j < 4 * index + 4 ==> vertexData[j] == GlyphQuad(pen, g, fontScale, ascentLine)[j - 4 * index]
    ensures forall j :: 0 <= j < vertexData.Length && !(4 * index <= j < 4 * index + 4) ==> vertexData[j] == old(vertexData[j])
  {
    var q := GlyphQuad(pen, g, fontScale, ascentLine);
    vertexData[index * 4] := q[0];
    vertexData[index * 4 + 1] := q[1];
    vertexData[index * 4 + 2] := q[2];
    vertexData[index * 4 + 3] := q[3];
  }

  /**
   * GenerateMeshData: with a font, glyph k's quad goes to vertexData[4k..4k + 4]
   * and the rest of the buffer is left alone; without one nothing is written.
   */
  method GenerateMeshData(t: Text, layout: Float4, vertexData: array<Vertex>, extraData: seq<byte>)
    requires FontUsable(t)
    requires t.fontInfo.Some? ==> 4 * |TextOf(t, extraData)| <= vertexData.Length
    modifies vertexData
    ensures |MeshOf(t, layout, extraData)| <= vertexData.Length
    ensures vertexData[..] == MeshOf(t, layout, extraData) + old(vertexData[|MeshOf(t, layout, extraData)|..])
  {
    if t.fontInfo.Some? {
      var fontInfo := t.fontInfo.value;
      var fontHeight := t.fontSize;
      var fontScale := FontScale(fontHeight, fontInfo.faceInfo);
      var iter := new CodePointEnumerator(extraData, t.extraDataOffset, true, true);
      EmitGlyphs(fontInfo, fontScale, Float2(layout.x, layout.y), iter, vertexData);
    }
  }

  method EmitGlyphs(fontInfo: UIFontInfo, fontScale: Float, pen: Float2, iter: CodePointEnumerator, vertexData: array<Vertex>)
    requires Usable(fontInfo) && iter.Valid() && iter.offset == 0 && iter.current == 0
    requires 4 * |CodePoints(iter.location, 0, 0)| <= vertexData.Length
    modifies iter, vertexData
    ensures vertexData[..] == TextQuads(fontInfo, CodePoints(iter.location, 0, 0), fontScale, pen)
      + old(vertexData[4 * |CodePoints(iter.location, 0, 0)|..])
  {
    var offset := pen;
    var index := 0;
    ghost var all := CodePoints(iter.location, 0, 0);
    ghost var target := TextQuads(fontInfo, all, fontScale, pen);
    ghost var old0 := vertexData[..];
    while true
      invariant iter.Valid() && iter.offset <= |iter.location|
      invariant index <= |all| && all[index..] == CodePoints(iter.location, iter.offset, iter.current)
      invariant offset == Float2(PenAfter(fontInfo, all[..index], fontScale, pen.x), pen.y)
      invariant forall j :: 0 <= j < vertexData.Length ==> vertexData[j] == if j < 4 * index then target[j] else old0[j]
      decreases |iter.location| - iter.offset
    {
      var more := NextCodePoint(iter, all[index..]);
      if !more {
        break;
      }
      offset := PlaceGlyph(fontInfo, fontScale, vertexData, index, offset, iter.current, all, pen, target);
      index := index + 1;
    }
    assert index == |all|;
    assert vertexData[..] == target + old0[4 * index..];
  }

  /**
   * The body of GenerateMeshData's loop for code point cp, glyph index of the
   * text: looks its glyph up, writes its quad and advances the pen.
   */
  method PlaceGlyph(fontInfo: UIFontInfo, fontScale: Float, vertexData: array<Vertex>, index: nat, offset: Float2, cp: int,
                    ghost all: seq<int>, ghost pen: Float2, ghost target: seq<Vertex>)
    returns (next: Float2)
    requires Usable(fontInfo) && index < |all| && all[index] == cp && 0 <= cp < TwoTo32
    requires 4 * |all| <= vertexData.Length && target == TextQuads(fontInfo, all, fontScale, pen)
    requires offset == Float2(PenAfter(fontInfo, all[..index], fontScale, pen.x), pen.y)
    modifies vertexData
    ensures next == Float2(PenAfter(fontInfo, all[..index + 1], fontScale, pen.x), pen.y)
    ensures forall j :: 4 * index <= j < 4 * index + 4 ==> vertexData[j] == target[j]
    ensures forall j :: 0 <= j < vertexData.Length && !(4 * index <= j < 4 * index + 4) ==> vertexData[j] == old(vertexData[j])
  {
    var charInfo := Lookup(fontInfo, cp);
    QuadAt(fontInfo, all, fontScale, pen, index);
    PenSnoc(fontInfo, all, fontScale, pen.x, index);
    WriteGlyphQuad(vertexData, index, offset, charInfo, fontScale, fontInfo.faceInfo.ascentLine);
    next := Float2(Add(offset.x, Advance(charInfo, fontScale)), offset.y);
  }

  /** The pen after one more glyph is the pen before it moved by that glyph's advance. */
  lemma {:induction false} PenSnoc(font: UIFontInfo, cps: seq<int>, fontScale: Float, x: Float, i: nat)
    requires Usable(font) && i < |cps|
    ensures PenAfter(font, cps[..i + 1], fontScale, x) == Add(PenAfter(font, cps[..i], fontScale, x), Advance(GlyphOf(font, cps[i]), fontScale))
    decreases i
  {
    var x1 := Add(x, Advance(GlyphOf(font, cps[0]), fontScale));
    assert cps[..i + 1][1..] == cps[1..][..i];
    if i > 0 {
      PenSnoc(font, cps[1..], fontScale, x1, i - 1);
      assert cps[..i][1..] == cps[1..][..i - 1];
    }
  }

  /**
   * One MoveNext, stated on the code points still to come: a true result
   * takes Current off their front, a false one means there were none.
   */
  method NextCodePoint(iter: CodePointEnumerator, ghost rem: seq<int>) returns (more: bool)
    requires iter.Valid() && iter.offset <= |iter.location| && rem == CodePoints(iter.location, iter.offset, iter.current)
    modifies iter
    ensures iter.Valid()
    ensures more ==> old(iter.offset) < iter.offset <= |iter.location|
    ensures more ==> rem != [] && rem[0] == iter.current && rem[1..] == CodePoints(iter.location, iter.offset, iter.current)
    ensures !more ==> rem == []
  {
    ghost var k, c := iter.offset, iter.current;
    more := iter.MoveNext();
    if more {
      CodePointsStep(iter.location, k, c, iter.current, iter.offset - k);
    }
  }

  // ---------------------------------------------------------------- what the two agree on

  /** Starting the pen further right moves every later pen by the same amount. */
  lemma {:induction false} PenShift(font: UIFontInfo, cps: seq<int>, fontScale: Float, a: Float, b: Float)
    requires Usable(font)
    ensures PenAfter(font, cps, fontScale, Add(a, b)) == Add(a, PenAfter(font, cps, fontScale, b))
    decreases |cps|
  {
    if cps != [] {
      var d := Advance(GlyphOf(font, cps[0]), fontScale);
      AddAssoc(a, b, d);
      PenShift(font, cps[1..], fontScale, a, Add(b, d));
    }
  }

  /** Where the mesh's pen ends is the layout's x plus the width Size reports. */
  lemma PenEndsAtWidth(t: Text, layout: Float4, extraData: seq<byte>)
    requires FontUsable(t) && t.fontInfo.Some?
    ensures var font := t.fontInfo.value;
      PenAfter(font, TextOf(t, extraData), FontScale(t.fontSize, font.faceInfo), layout.x) == Add(layout.x, SizeOf(t, extraData).x)
  {
    var font := t.fontInfo.value;
    AddZero(layout.x);
    PenShift(font, TextOf(t, extraData), FontScale(t.fontSize, font.faceInfo), layout.x, Zero);
  }

  /** Glyph i's quad is vertices 4i .. 4i + 3, drawn at the pen the glyphs before it leave. */
  lemma {:induction false} QuadAt(font: UIFontInfo, cps: seq<int>, fontScale: Float, pen: Float2, i: nat)
    requires Usable(font) && i < |cps|
    ensures forall j :: 4 * i <= j < 4 * i + 4 ==>
      TextQuads(font, cps, fontScale, pen)[j] == GlyphQuad(Float2(PenAfter(font, cps[..i], fontScale, pen.x), pen.y), GlyphOf(font, cps[i]), fontScale, font.faceInfo.ascentLine)[j - 4 * i]
    decreases i
  {
    var g := GlyphOf(font, cps[0]);
    var next := Float2(Add(pen.x, Advance(g, fontScale)), pen.y);
    var rest := TextQuads(font, cps[1..], fontScale, next);
    assert TextQuads(font, cps, fontScale, pen) == GlyphQuad(pen, g, fontScale, font.faceInfo.ascentLine) + rest;
    if i == 0 {
      assert cps[..0] == [];
    } else {
      QuadAt(font, cps[1..], fontScale, next, i - 1);
      PenCons(font, cps, fontScale, pen.x, i);
      assert cps[1..][i - 1] == cps[i];
    }
  }

  /** The pen after the first i glyphs is the pen after glyphs 1 .. i - 1 started one advance further. */
  lemma PenCons(font: UIFontInfo, cps: seq<int>, fontScale: Float, x: Float, i: nat)
    requires Usable(font) && 0 < i <= |cps|
    ensures PenAfter(font, cps[..i], fontScale, x)
      == PenAfter(font, cps[1..][..i - 1], fontScale, Add(x, Advance(GlyphOf(font, cps[0]), fontScale)))
  {
    assert cps[..i][1..] == cps[1..][..i - 1];
  }

  /** Without a font, Size is (0, 0) and the mesh is empty; with one, the height is the font size. */
  lemma SizeCases(t: Text, extraData: seq<byte>, layout: Float4)
    requires FontUsable(t)
    ensures t.fontInfo.None? ==> SizeOf(t, extraData) == Zero2 && MeshOf(t, layout, extraData) == []
    ensures t.fontInfo.Some? ==> SizeOf(t, extraData).y == t.fontSize
    ensures |MeshOf(t, layout, extraData)| == if t.fontInfo.Some? then 4 * |TextOf(t, extraData)| else 0
  {
  }

  /**
   * For a text record TryParseUIText wrote for s, Size and the mesh see exactly
   * the scalar values of s: one quad per character, none for the terminator.
   */
  lemma WrittenText(t: Text, before: seq<byte>, s: string, after: seq<byte>, layout: Float4)
    requires FontUsable(t) && t.fontInfo.Some? && t.extraDataOffset == |before|
    requires NoNul(s) && Utf16Length(s) < TwoTo31
    ensures TextOf(t, before + TextRecord(Some(s)) + after) == Scalars(s)
    ensures |MeshOf(t, layout, before + TextRecord(Some(s)) + after)| == 4 * |s|
  {
    TextRecordReadBack(before, s, after);
  }

  /** An empty text is as wide as nothing: Size gives (0, font size) and the mesh is empty. */
  lemma EmptyText(t: Text, before: seq<byte>, after: seq<byte>, layout: Float4)
    requires FontUsable(t) && t.fontInfo.Some? && t.extraDataOffset == |before|
    ensures SizeOf(t, before + TextRecord(Some("")) + after) == Float2(Zero, t.fontSize)
    ensures MeshOf(t, layout, before + TextRecord(Some("")) + after) == []
  {
    TextRecordReadBack(before, "", after);
    assert Scalars("") == [];
  }
}
