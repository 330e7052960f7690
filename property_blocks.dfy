/**
 * The font data the Text element reads: UIFontInfo holds the face metrics,
 * the glyph table and a hash-bucket map from unicode to glyph (bucket
 * unicode % bucketCount holds the (unicode, glyph index) pairs of the
 * characters that fall in it). CreateBlob builds it from a font asset's glyph
 * and character tables; the indexer looks a unicode up. The file also holds
 * the default values of the box, size, border and layout blocks.
 */
module PropertyBlocks {
  import opened Bytes
  import opened Floats
  import opened Strings
  import opened PropertyParsers

  /** uint: the unicode of a character. */
  type u32 = x: int | 0 <= x < 0x1_0000_0000

  datatype Int4 = Int4(x: int, y: int, z: int, w: int)

  /** The parts of a TextCore Glyph the blob keeps. */
  datatype GlyphRect = GlyphRect(x: int, y: int, width: int, height: int)
  datatype GlyphMetrics = GlyphMetrics(width: Float, height: Float, horizontalBearingX: Float, horizontalBearingY: Float, horizontalAdvance: Float)
  datatype Glyph = Glyph(glyphRect: GlyphRect, metrics: GlyphMetrics, scale: Float, atlasIndex: int)

  /** An entry of the character table: a unicode and the index of its glyph in the glyph table. */
  datatype Character = Character(unicode: u32, glyphIndex: nat)

  datatype UIGlyph = UIGlyph(uvs: Int4, size: Float2, horizontalBearing: Float2, horizontalAdvance: Float, scale: Float, atlasIndex: int)

  /** default(UIGlyph), what the indexer returns for a unicode it does not find. */
  const DefaultGlyph: UIGlyph := UIGlyph(Int4(0, 0, 0, 0), Zero2, Zero2, Zero, Zero, 0)

  /** The UIGlyph(Glyph) constructor. */
  function MakeGlyph(g: Glyph): (r: UIGlyph)
    ensures r.uvs.x == g.glyphRect.x && r.uvs.y == g.glyphRect.y
    ensures r.uvs.z - r.uvs.x == g.glyphRect.width && r.uvs.w - r.uvs.y == g.glyphRect.height
    ensures r.size == Float2(g.metrics.width, g.metrics.height)
    ensures r.horizontalBearing == Float2(g.metrics.horizontalBearingX, g.metrics.horizontalBearingY)
    ensures r.horizontalAdvance == g.metrics.horizontalAdvance && r.scale == g.scale && r.atlasIndex == g.atlasIndex
  {
    var rect := g.glyphRect;
    UIGlyph(Int4(rect.x, rect.y, rect.x + rect.width, rect.y + rect.height),
            Float2(g.metrics.width, g.metrics.height),
            Float2(g.metrics.horizontalBearingX, g.metrics.horizontalBearingY),
            g.metrics.horizontalAdvance, g.scale, g.atlasIndex)
  }

  datatype UIGlyphPair = UIGlyphPair(unicode: u32, index: int)

  /** values: the glyphs; keys: the buckets, each a glyphLocation array. */
  datatype UIGlyphMap = UIGlyphMap(values: seq<UIGlyph>, keys: seq<seq<UIGlyphPair>>)

  /** The face metrics the Text element reads; the other UIFaceInfo fields are plain copies and are not read by the core. */
  datatype UIFaceInfo = UIFaceInfo(lineHeight: Float, scale: Float, ascentLine: Float)

  datatype UIAtlasInfo = UIAtlasInfo(width: int, height: int, textureCount: int)

  datatype UIFontInfo = UIFontInfo(faceInfo: UIFaceInfo, glyphs: UIGlyphMap, atlasInfo: UIAtlasInfo)

  // ---------------------------------------------------------------- the indexer

  /** Every pair of every bucket names a glyph of the table. */
  predicate Indexed(m: UIGlyphMap)
  {
    forall b, j :: 0 <= b < |m.keys| && 0 <= j < |m.keys[b]| ==> 0 <= m.keys[b][j].index < |m.values|
  }

  /** The first position from i on of a pair with the unicode, if there is one. */
  function FindFrom(bucket: seq<UIGlyphPair>, unicode: u32, i: nat): (r: Option<nat>)
    requires i <= |bucket|
    ensures r.Some? ==> i <= r.value < |bucket| && bucket[r.value].unicode == unicode
    ensures r.Some? ==> forall j :: i <= j < r.value ==> bucket[j].unicode != unicode
    ensures r.None? ==> forall j :: i <= j < |bucket| ==> bucket[j].unicode != unicode
    decreases |bucket| - i
  {
    if i == |bucket| then None
    else if bucket[i].unicode == unicode then Some(i)
    else FindFrom(bucket, unicode, i + 1)
  }

  /** The glyph the indexer returns: the first match in bucket unicode % keys.Length, else the default. */
  function GlyphFor(m: UIGlyphMap, unicode: u32): UIGlyph
    requires |m.keys| > 0 && Indexed(m)
  {
    var bucket := m.keys[unicode % |m.keys|];
    match FindFrom(bucket, unicode, 0)
    case Some(i) => m.values[bucket[i].index]
    case None => DefaultGlyph
  }

  /** UIFontInfo[unicode]: scans the bucket in order. */
  method Lookup(font: UIFontInfo, unicode: u32) returns (glyph: UIGlyph)
    requires |font.glyphs.keys| > 0 && Indexed(font.glyphs)
    ensures glyph == GlyphFor(font.glyphs, unicode)
  {
    var bucketIndex := unicode % |font.glyphs.keys|;
    var bucket := font.glyphs.keys[bucketIndex];
    var i := 0;
    while i < |bucket|
      invariant 0 <= i <= |bucket|
      invariant FindFrom(bucket, unicode, 0) == FindFrom(bucket, unicode, i)
    {
      var glyphLocation := bucket[i];
      if glyphLocation.unicode == unicode {
        return font.glyphs.values[glyphLocation.index];
      }
      i := i + 1;
    }
    return DefaultGlyph;
  }

  // ---------------------------------------------------------------- CreateBlob

  function PairOf(c: Character): UIGlyphPair
  {
    UIGlyphPair(c.unicode, c.glyphIndex)
  }

  /** The pairs of the first n characters that fall in bucket b, in table order. */
  function BucketOf(chars: seq<Character>, bucketCount: nat, b: nat, n: nat): seq<UIGlyphPair>
    requires bucketCount > 0 && n <= |chars|
  {
    if n == 0 then []
    else BucketOf(chars, bucketCount, b, n - 1) + (if chars[n - 1].unicode % bucketCount == b then [PairOf(chars[n - 1])] else [])
  }

  /** Adding character n extends its own bucket by its pair and leaves every other bucket as it was. */
  lemma BucketStep(chars: seq<Character>, bucketCount: nat, n: nat)
    requires bucketCount > 0 && n < |chars|
    ensures BucketOf(chars, bucketCount, chars[n].unicode % bucketCount, n + 1)
      == BucketOf(chars, bucketCount, chars[n].unicode % bucketCount, n) + [PairOf(chars[n])]
    ensures forall b :: b != chars[n].unicode % bucketCount ==> BucketOf(chars, bucketCount, b, n + 1) == BucketOf(chars, bucketCount, b, n)
  {
  }

  /** The glyph table, converted entry by entry. */
  function GlyphValues(glyphTable: seq<Glyph>): (r: seq<UIGlyph>)
    ensures |r| == |glyphTable| && forall i :: 0 <= i < |glyphTable| ==> r[i] == MakeGlyph(glyphTable[i])
  {
    seq(|glyphTable|, i requires 0 <= i < |glyphTable| => MakeGlyph(glyphTable[i]))
  }

  /**
   * The buckets hold the characters of the table, each in the bucket of its
   * unicode, in some order (the multi-map's iteration order is not part of the model).
   */
  predicate BucketsOf(keys: seq<seq<UIGlyphPair>>, chars: seq<Character>, bucketCount: nat)
    requires bucketCount > 0
  {
    |keys| == bucketCount && forall b :: 0 <= b < bucketCount ==> multiset(keys[b]) == multiset(BucketOf(chars, bucketCount, b, |chars|))
  }

  /**
   * CreateBlob(bucketCount): the face and atlas info, the glyph table in order,
   * then each character added to the multi-map under unicode % bucketCount and
   * copied out bucket by bucket (here: straight into its bucket, in table order).
   */
  method CreateBlob(faceInfo: UIFaceInfo, atlasInfo: UIAtlasInfo, glyphTable: seq<Glyph>, characterTable: seq<Character>,
                    bucketCount: nat)
    returns (font: UIFontInfo)
    requires 0 < bucketCount < 0x1_0000
    ensures font.faceInfo == faceInfo && font.atlasInfo == atlasInfo
    ensures font.glyphs.values == GlyphValues(glyphTable)
    ensures |font.glyphs.keys| == bucketCount
    ensures forall b :: 0 <= b < bucketCount ==> font.glyphs.keys[b] == BucketOf(characterTable, bucketCount, b, |characterTable|)
  {
    ghost var values := GlyphValues(glyphTable);
    var glyphValueArray := new UIGlyph[|glyphTable|](_ => DefaultGlyph);
    var i := 0;
    while i < |glyphTable|
      invariant 0 <= i <= |glyphTable|
      invariant glyphValueArray[..i] == values[..i]
    {
      glyphValueArray[i] := MakeGlyph(glyphTable[i]);
      assert glyphValueArray[..i + 1] == glyphValueArray[..i] + [values[i]];
      i := i + 1;
    }
    assert glyphValueArray[..] == values;
    var glyphKeyArray := new seq<UIGlyphPair>[bucketCount](_ => []);
    i := 0;
    while i < |characterTable|
      invariant 0 <= i <= |characterTable|
      invariant forall b :: 0 <= b < bucketCount ==> glyphKeyArray[b] == BucketOf(characterTable, bucketCount, b, i)
      invariant glyphValueArray[..] == values
    {
      var key := characterTable[i].unicode % bucketCount;
      BucketStep(characterTable, bucketCount, i);
      glyphKeyArray[key] := glyphKeyArray[key] + [PairOf(characterTable[i])];
      i := i + 1;
    }
    font := UIFontInfo(faceInfo, UIGlyphMap(glyphValueArray[..], glyphKeyArray[..]), atlasInfo);
  }

  // ---------------------------------------------------------------- what a lookup finds

  /** The map was built from these tables: the buckets hold the characters in any order. */
  predicate FromTables(m: UIGlyphMap, glyphTable: seq<Glyph>, chars: seq<Character>)
  {
    m.values == GlyphValues(glyphTable) && |m.keys| > 0 && BucketsOf(m.keys, chars, |m.keys|)
    && forall i :: 0 <= i < |chars| ==> chars[i].glyphIndex < |glyphTable|
  }

  /** CreateBlob's buckets are one such order. */
  lemma BlobFromTables(faceInfo: UIFaceInfo, atlasInfo: UIAtlasInfo, glyphTable: seq<Glyph>, chars: seq<Character>,
                       bucketCount: nat, font: UIFontInfo)
    requires 0 < bucketCount && forall i :: 0 <= i < |chars| ==> chars[i].glyphIndex < |glyphTable|
    requires font.glyphs.values == GlyphValues(glyphTable) && |font.glyphs.keys| == bucketCount
    requires forall b :: 0 <= b < bucketCount ==> font.glyphs.keys[b] == BucketOf(chars, bucketCount, b, |chars|)
    ensures FromTables(font.glyphs, glyphTable, chars)
  {
  }

  /** A pair in a bucket comes from a character whose unicode falls in that bucket. */
  lemma {:induction false} BucketSource(chars: seq<Character>, bucketCount: nat, b: nat, n: nat, x: UIGlyphPair) returns (j: nat)
    requires bucketCount > 0 && n <= |chars| && x in BucketOf(chars, bucketCount, b, n)
    ensures j < n && PairOf(chars[j]) == x && chars[j].unicode % bucketCount == b
  {
    if x in BucketOf(chars, bucketCount, b, n - 1) {
      j := BucketSource(chars, bucketCount, b, n - 1, x);
    } else {
      j := n - 1;
    }
  }

  /** Every character is in the bucket of its unicode. */
  lemma {:induction false} BucketHas(chars: seq<Character>, bucketCount: nat, i: nat, n: nat)
    requires bucketCount > 0 && i < n <= |chars|
    ensures PairOf(chars[i]) in BucketOf(chars, bucketCount, chars[i].unicode % bucketCount, n)
  {
    if i < n - 1 {
      BucketHas(chars, bucketCount, i, n - 1);
    }
  }

  /** A map built from the tables indexes only glyphs of the table. */
  lemma TablesIndexed(m: UIGlyphMap, glyphTable: seq<Glyph>, chars: seq<Character>)
    requires FromTables(m, glyphTable, chars)
    ensures Indexed(m)
  {
    forall b, j | 0 <= b < |m.keys| && 0 <= j < |m.keys[b]|
      ensures 0 <= m.keys[b][j].index < |m.values|
    {
      assert m.keys[b][j] in multiset(BucketOf(chars, |m.keys|, b, |chars|));
      var k := BucketSource(chars, |m.keys|, b, |chars|, m.keys[b][j]);
    }
  }

  /** A unicode that only one character has looks up that character's glyph. */
  lemma LookupUnique(m: UIGlyphMap, glyphTable: seq<Glyph>, chars: seq<Character>, i: nat)
    requires FromTables(m, glyphTable, chars) && i < |chars|
    requires forall j :: 0 <= j < |chars| && chars[j].unicode == chars[i].unicode ==> j == i
    ensures Indexed(m)
    ensures GlyphFor(m, chars[i].unicode) == MakeGlyph(glyphTable[chars[i].glyphIndex])
  {
    TablesIndexed(m, glyphTable, chars);
    var u := chars[i].unicode;
    var b := u % |m.keys|;
    var bucket := m.keys[b];
    BucketHas(chars, |m.keys|, i, |chars|);
    assert PairOf(chars[i]) in multiset(bucket);
    var p :| 0 <= p < |bucket| && bucket[p] == PairOf(chars[i]);
    var f := FindFrom(bucket, u, 0);
    assert f.Some?;
    assert bucket[f.value] in multiset(BucketOf(chars, |m.keys|, b, |chars|));
    var j := BucketSource(chars, |m.keys|, b, |chars|, bucket[f.value]);
  }

  /** A unicode no character has looks up the default glyph. */
  lemma LookupAbsent(m: UIGlyphMap, glyphTable: seq<Glyph>, chars: seq<Character>, u: u32)
    requires FromTables(m, glyphTable, chars)
    requires forall j :: 0 <= j < |chars| ==> chars[j].unicode != u
    ensures Indexed(m)
    ensures GlyphFor(m, u) == DefaultGlyph
  {
    TablesIndexed(m, glyphTable, chars);
    var b := u % |m.keys|;
    var bucket := m.keys[b];
    var f := FindFrom(bucket, u, 0);
    if f.Some? {
      assert bucket[f.value] in multiset(BucketOf(chars, |m.keys|, b, |chars|));
      var j := BucketSource(chars, |m.keys|, b, |chars|, bucket[f.value]);
    }
  }

  /** A bucket no unicode falls in stays empty. */
  lemma {:induction false} EmptyBucket(chars: seq<Character>, bucketCount: nat, b: nat, n: nat)
    requires bucketCount > 0 && n <= |chars|
    requires forall j :: 0 <= j < n ==> chars[j].unicode % bucketCount != b
    ensures BucketOf(chars, bucketCount, b, n) == []
  {
    if n > 0 {
      EmptyBucket(chars, bucketCount, b, n - 1);
    }
  }

  // ---------------------------------------------------------------- block defaults

  /** The DefaultValue texts of the blocks. */
  const BoxMarginDefault: string := "0px 0px 0px 0px"
  const BoxPaddingDefault: string := "0px 0px 0px 0px"
  const BorderWidthDefault: string := "0px 0px 0px 0px"
  const BorderRadiusDefault: string := "0px 0px 0px 0px"
  const SizeWidthDefault: string := "0px Infinity"
  const SizeHeightDefault: string := "0px Infinity"
  const SpacingDefault: string := "0px"
  const AlignmentDefault: string := "TopLeft"

  /** CreateBlob's default bucket count. */
  const DefaultBucketCount: nat := 128
}
