/**
 * The HBox and VBox elements: how a box constrains each child, where it
 * places the children and how large it makes itself. A box reads the
 * realValues of its margin, padding, border width, spacing and size limits;
 * the children are seen through the sizes stored in their runtime headers.
 * Constraints are (min x, min y, max x, max y).
 */
module BoxElements {
  import opened Floats

  /** The realValues a box reads from its blocks: margin, padding and border are (top, right, bottom, left) as (x, y, z, w). */
  datatype BoxProps = BoxProps(
    margin: Float4, padding: Float4, border: Float4, spacing: Float,
    /** SizeConfigBlock: width and height as (min, max). */
    width: Float2, height: Float2)

  predicate Finite4(f: Float4)
  {
    f.x.Fin? && f.y.Fin? && f.z.Fin? && f.w.Fin?
  }

  predicate FiniteBox(b: BoxProps)
  {
    Finite4(b.margin) && Finite4(b.padding) && Finite4(b.border) && b.spacing.Fin?
  }

  predicate FiniteSizes(sizes: seq<Float2>)
  {
    forall i :: 0 <= i < |sizes| ==> sizes[i].x.Fin? && sizes[i].y.Fin?
  }

  /** Σ of the first n child widths, and of heights. */
  function SumW(sizes: seq<Float2>, n: nat): real
    requires n <= |sizes| && FiniteSizes(sizes)
  {
    if n == 0 then 0.0 else SumW(sizes, n - 1) + sizes[n - 1].x.v
  }

  function SumH(sizes: seq<Float2>, n: nat): real
    requires n <= |sizes| && FiniteSizes(sizes)
  {
    if n == 0 then 0.0 else SumH(sizes, n - 1) + sizes[n - 1].y.v
  }

  /** The largest of 0 and the first n child heights (widths). */
  function MaxH(sizes: seq<Float2>, n: nat): real
    requires n <= |sizes| && FiniteSizes(sizes)
  {
    if n == 0 then 0.0 else RMax(sizes[n - 1].y.v, MaxH(sizes, n - 1))
  }

  function MaxW(sizes: seq<Float2>, n: nat): real
    requires n <= |sizes| && FiniteSizes(sizes)
  {
    if n == 0 then 0.0 else RMax(sizes[n - 1].x.v, MaxW(sizes, n - 1))
  }

  function RMax(a: real, b: real): real
  {
    if a > b then a else b
  }

  // ---------------------------------------------------------------- finite steps

  lemma RemainStep(r: real, w: real, s: real)
    ensures Max(Zero, Sub(Fin(r), Add(Fin(w), Fin(s)))) == Fin(RMax(0.0, r - (w + s)))
  {
  }

  lemma AdvanceStep(x: real, w: real, s: real)
    ensures Add(Fin(x), Add(Fin(w), Fin(s))) == Fin(x + (w + s))
  {
  }

  lemma WidenStep(h: real, c: real)
    ensures Max(Fin(h), Fin(c)) == Fin(RMax(h, c))
  {
  }

  lemma SpacedStep(x: real, w: real, s: real)
    ensures Add(Fin(x), Add(Fin(w), Mul(Fin(s), One))) == Fin(x + (w + s))
  {
  }

  lemma UnspacedStep(x: real, w: real, s: real)
    ensures Add(Fin(x), Add(Fin(w), Mul(Fin(s), Zero))) == Fin(x + w)
  {
  }

  /** One more child adds its extent and a spacing: (s0 + g·sp) + (w + sp) = (s0 + w) + (g + 1)·sp. */
  lemma GapArith(s0: real, w: real, g: nat, sp: real)
    ensures (s0 + (g as real) * sp) + (w + sp) == (s0 + w) + ((g + 1) as real) * sp
  {
  }

  // ---------------------------------------------------------------- HBox

  /** The horizontal inset of an HBox: margin, padding and border, x and z. */
  function HInsetX(b: BoxProps): Float
  {
    Add(Add(Add(Add(Add(b.margin.x, b.margin.z), b.padding.x), b.padding.z), b.border.x), b.border.z)
  }

  /** The vertical inset of an HBox: margin, padding and border, y and w. */
  function HInsetY(b: BoxProps): Float
  {
    Add(Add(Add(Add(Add(b.margin.y, b.margin.w), b.padding.y), b.padding.w), b.border.y), b.border.w)
  }

  /** The HBox insets in reals, for finite props. */
  function HInsetXReal(b: BoxProps): real
    requires FiniteBox(b)
  {
    b.margin.x.v + b.margin.z.v + b.padding.x.v + b.padding.z.v + b.border.x.v + b.border.z.v
  }

  function HInsetYReal(b: BoxProps): real
    requires FiniteBox(b)
  {
    b.margin.y.v + b.margin.w.v + b.padding.y.v + b.padding.w.v + b.border.y.v + b.border.w.v
  }

  lemma HInsetXFinite(b: BoxProps)
    requires FiniteBox(b)
    ensures HInsetX(b) == Fin(HInsetXReal(b))
  {
    var m, p, d := b.margin, b.padding, b.border;
    assert m.x == Fin(m.x.v) && m.z == Fin(m.z.v) && p.x == Fin(p.x.v) && p.z == Fin(p.z.v) && d.x == Fin(d.x.v) && d.z == Fin(d.z.v);
  }

  lemma HInsetYFinite(b: BoxProps)
    requires FiniteBox(b)
    ensures HInsetY(b) == Fin(HInsetYReal(b))
  {
    var m, p, d := b.margin, b.padding, b.border;
    assert m.y == Fin(m.y.v) && m.w == Fin(m.w.v) && p.y == Fin(p.y.v) && p.w == Fin(p.w.v) && d.y == Fin(d.y.v) && d.w == Fin(d.w.v);
  }

  /** childConstraints.z after the subtraction loop has seen the first i children. */
  function HRemaining(b: BoxProps, start: Float, sizes: seq<Float2>, i: nat): Float
    requires i <= |sizes|
  {
    if i == 0 then start
    else Max(Zero, Sub(HRemaining(b, start, sizes, i - 1), Add(sizes[i - 1].x, b.spacing)))
  }

  function FloorZero(x: Float): Float
  {
    if Less(x, Zero) then Zero else x
  }

  /** On a finite value FloorZero is the real maximum with 0. */
  lemma FloorFinite(x: real)
    ensures FloorZero(Fin(x)) == Fin(RMax(x, 0.0))
  {
  }

  /** HBox.Constrain for child childIndex, given the box's own constraints c. */
  function HConstraints(b: BoxProps, c: Float4, sizes: seq<Float2>, childIndex: nat): Float4
    requires childIndex <= |sizes|
  {
    if c.z.PosInf? then Float4(Zero, Zero, c.z, c.w)
    else
      var z := HRemaining(b, Sub(c.z, HInsetX(b)), sizes, childIndex);
      Float4(Zero, Zero, FloorZero(z), FloorZero(Sub(c.w, HInsetY(b))))
  }

  method HBoxConstrain(b: BoxProps, c: Float4, sizes: seq<Float2>, childIndex: nat) returns (childConstraints: Float4)
    requires childIndex <= |sizes|
    ensures childConstraints == HConstraints(b, c, sizes, childIndex)
    ensures childConstraints.x == Zero && childConstraints.y == Zero
  {
    childConstraints := Float4(Zero, Zero, c.z, c.w);
    if !c.z.PosInf? {
      childConstraints := childConstraints.(z := Sub(childConstraints.z, HInsetX(b)));
      childConstraints := childConstraints.(w := Sub(childConstraints.w, HInsetY(b)));
      var i := 0;
      while i < childIndex
        invariant 0 <= i <= childIndex
        invariant childConstraints == Float4(Zero, Zero, HRemaining(b, Sub(c.z, HInsetX(b)), sizes, i), Sub(c.w, HInsetY(b)))
      {
        var childSize := sizes[i];
        childConstraints := childConstraints.(z := Max(Zero, Sub(childConstraints.z, Add(childSize.x, b.spacing))));
        i := i + 1;
      }
      if Less(childConstraints.z, Zero) {
        childConstraints := childConstraints.(z := Zero);
      }
      if Less(childConstraints.w, Zero) {
        childConstraints := childConstraints.(w := Zero);
      }
    }
  }

  /** An unbounded width passes the maximum through untouched, with no inset taken off either axis. */
  lemma HUnbounded(b: BoxProps, c: Float4, sizes: seq<Float2>, childIndex: nat)
    requires childIndex <= |sizes| && c.z.PosInf?
    ensures HConstraints(b, c, sizes, childIndex) == Float4(Zero, Zero, PosInf, c.w)
  {
  }

  /** The remaining width in reals: every step subtracts the child's width and the spacing and floors at 0. */
  function HRemainingReal(b: BoxProps, start: real, sizes: seq<Float2>, i: nat): real
    requires i <= |sizes| && FiniteBox(b) && FiniteSizes(sizes)
  {
    if i == 0 then start else RMax(0.0, HRemainingReal(b, start, sizes, i - 1) - (sizes[i - 1].x.v + b.spacing.v))
  }

  lemma {:induction false} HRemainingFinite(b: BoxProps, start: real, sizes: seq<Float2>, i: nat)
    requires i <= |sizes| && FiniteBox(b) && FiniteSizes(sizes)
    ensures HRemaining(b, Fin(start), sizes, i) == Fin(HRemainingReal(b, start, sizes, i))
    ensures i > 0 ==> HRemainingReal(b, start, sizes, i) >= 0.0
  {
    if i > 0 {
      HRemainingFinite(b, start, sizes, i - 1);
      var w := sizes[i - 1].x.v;
      assert sizes[i - 1].x == Fin(w);
      assert b.spacing == Fin(b.spacing.v);
      RemainStep(HRemainingReal(b, start, sizes, i - 1), w, b.spacing.v);
    }
  }

  /** Earlier children only take width away, as long as widths plus spacing are not negative. */
  lemma {:induction false} HRemainingShrinks(b: BoxProps, start: real, sizes: seq<Float2>, i: nat)
    requires i < |sizes| && FiniteBox(b) && FiniteSizes(sizes) && start >= 0.0
    requires sizes[i].x.v + b.spacing.v >= 0.0
    ensures HRemainingReal(b, start, sizes, i + 1) <= HRemainingReal(b, start, sizes, i)
  {
    if i > 0 {
      HRemainingFinite(b, start, sizes, i);
    }
  }

  /**
   * With a finite maximum width the child gets the box's maximum less its
   * insets, less width plus spacing of every earlier child, floored at 0 on
   * both axes.
   */
  lemma HBounded(b: BoxProps, c: Float4, sizes: seq<Float2>, childIndex: nat)
    requires childIndex <= |sizes| && FiniteBox(b) && FiniteSizes(sizes) && c.z.Fin? && c.w.Fin?
    ensures HConstraints(b, c, sizes, childIndex).x == Zero && HConstraints(b, c, sizes, childIndex).y == Zero
    ensures HConstraints(b, c, sizes, childIndex).z == Fin(RMax(HRemainingReal(b, c.z.v - HInsetXReal(b), sizes, childIndex), 0.0))
    ensures HConstraints(b, c, sizes, childIndex).w == Fin(RMax(c.w.v - HInsetYReal(b), 0.0))
  {
    HBoundedWidth(b, c, sizes, childIndex);
    HBoundedHeight(b, c);
  }

  lemma HBoundedWidth(b: BoxProps, c: Float4, sizes: seq<Float2>, childIndex: nat)
    requires childIndex <= |sizes| && FiniteBox(b) && FiniteSizes(sizes) && c.z.Fin?
    ensures FloorZero(HRemaining(b, Sub(c.z, HInsetX(b)), sizes, childIndex))
         == Fin(RMax(HRemainingReal(b, c.z.v - HInsetXReal(b), sizes, childIndex), 0.0))
  {
    var z := HRemainingReal(b, c.z.v - HInsetXReal(b), sizes, childIndex);
    HInsetXFinite(b);
    assert c.z == Fin(c.z.v);
    FiniteArithmetic(c.z.v, HInsetXReal(b));
    HRemainingFinite(b, c.z.v - HInsetXReal(b), sizes, childIndex);
    FloorFinite(z);
  }

  lemma HBoundedHeight(b: BoxProps, c: Float4)
    requires FiniteBox(b) && c.w.Fin?
    ensures FloorZero(Sub(c.w, HInsetY(b))) == Fin(RMax(c.w.v - HInsetYReal(b), 0.0))
  {
    HInsetYFinite(b);
    assert c.w == Fin(c.w.v);
    FiniteArithmetic(c.w.v, HInsetYReal(b));
    FloorFinite(c.w.v - HInsetYReal(b));
  }

  /** start.x after the first i children: the left inset, then each width plus spacing. */
  function HStartX(b: BoxProps, sizes: seq<Float2>, i: nat): Float
    requires i <= |sizes|
  {
    if i == 0 then Add(Add(b.margin.x, b.padding.x), b.border.x)
    else Add(HStartX(b, sizes, i - 1), Add(sizes[i - 1].x, b.spacing))
  }

  /** HBox.Layout: child i at (start.x, top inset). */
  function HPosition(b: BoxProps, sizes: seq<Float2>, i: nat): Float2
    requires i <= |sizes|
  {
    Float2(HStartX(b, sizes, i), Add(Add(b.margin.y, b.padding.y), b.border.y))
  }

  method HBoxLayout(b: BoxProps, sizes: seq<Float2>, positions: array<Float2>)
    requires positions.Length == |sizes|
    modifies positions
    ensures forall i :: 0 <= i < |sizes| ==> positions[i] == HPosition(b, sizes, i)
  {
    var start := Float2(Add(Add(b.margin.x, b.padding.x), b.border.x), Add(Add(b.margin.y, b.padding.y), b.border.y));
    var i := 0;
    while i < |sizes|
      invariant 0 <= i <= |sizes|
      invariant start == HPosition(b, sizes, i)
      invariant forall j :: 0 <= j < i ==> positions[j] == HPosition(b, sizes, j)
    {
      var childSize := sizes[i];
      positions[i] := start;
      start := start.(x := Add(start.x, Add(childSize.x, b.spacing)));
      i := i + 1;
    }
  }

  /** Child i's x is the left inset plus width and spacing of every earlier child. */
  lemma {:induction false} HPositionFinite(b: BoxProps, sizes: seq<Float2>, i: nat)
    requires i <= |sizes| && FiniteBox(b) && FiniteSizes(sizes)
    ensures HPosition(b, sizes, i).x == Fin(b.margin.x.v + b.padding.x.v + b.border.x.v + SumW(sizes, i) + (i as real) * b.spacing.v)
    ensures HPosition(b, sizes, i).y == Fin(b.margin.y.v + b.padding.y.v + b.border.y.v)
  {
    var m, p, bd := b.margin, b.padding, b.border;
    assert m.x == Fin(m.x.v) && p.x == Fin(p.x.v) && bd.x == Fin(bd.x.v);
    assert m.y == Fin(m.y.v) && p.y == Fin(p.y.v) && bd.y == Fin(bd.y.v);
    if i > 0 {
      HPositionFinite(b, sizes, i - 1);
      var w := sizes[i - 1].x.v;
      assert sizes[i - 1].x == Fin(w);
      assert b.spacing == Fin(b.spacing.v);
      var s0 := m.x.v + p.x.v + bd.x.v + SumW(sizes, i - 1);
      AdvanceStep(s0 + ((i - 1) as real) * b.spacing.v, w, b.spacing.v);
      GapArith(s0, w, i - 1, b.spacing.v);
    }
  }

  /** contentSize after the first i children of HBox.Size: spacing follows every child but the last. */
  function HContent(b: BoxProps, sizes: seq<Float2>, i: nat): Float2
    requires i <= |sizes|
  {
    if i == 0 then Zero2
    else
      var c := HContent(b, sizes, i - 1);
      var s := sizes[i - 1];
      Float2(Add(c.x, Add(s.x, Mul(b.spacing, if i < |sizes| then One else Zero))), Max(s.y, c.y))
  }

  /** HBox.Size: the insets plus the clamped content size. */
  function HSize(b: BoxProps, sizes: seq<Float2>): Float2
  {
    var c := HContent(b, sizes, |sizes|);
    Add2(Float2(HInsetX(b), HInsetY(b)), Float2(Clamp(c.x, b.width.x, b.width.y), Clamp(c.y, b.height.x, b.height.y)))
  }

  method HBoxSize(b: BoxProps, sizes: seq<Float2>) returns (size: Float2)
    ensures size == HSize(b, sizes)
  {
    size := Float2(HInsetX(b), HInsetY(b));
    var contentSize := Zero2;
    var i := 0;
    while i < |sizes|
      invariant 0 <= i <= |sizes|
      invariant contentSize == HContent(b, sizes, i)
    {
      var childSize := sizes[i];
      var k := if i + 1 < |sizes| then One else Zero;
      contentSize := Float2(Add(contentSize.x, Add(childSize.x, Mul(b.spacing, k))), Max(childSize.y, contentSize.y));
      assert contentSize == HContent(b, sizes, i + 1);
      i := i + 1;
    }
    contentSize := contentSize.(x := Clamp(contentSize.x, b.width.x, b.width.y));
    contentSize := contentSize.(y := Clamp(contentSize.y, b.height.x, b.height.y));
    size := Add2(size, contentSize);
  }

  /** The number of spacings among the first i of n children: one after every child but the last. */
  function Gaps(i: nat, n: nat): nat
  {
    if i == 0 then 0 else if i < n then i else i - 1
  }

  lemma {:induction false} HContentFinite(b: BoxProps, sizes: seq<Float2>, i: nat)
    requires i <= |sizes| && FiniteBox(b) && FiniteSizes(sizes)
    ensures HContent(b, sizes, i).x == Fin(SumW(sizes, i) + (Gaps(i, |sizes|) as real) * b.spacing.v)
    ensures HContent(b, sizes, i).y == Fin(MaxH(sizes, i))
  {
    if i > 0 {
      HContentFinite(b, sizes, i - 1);
      HContentWidthStep(b, sizes, i);
      HContentHeightStep(b, sizes, i);
    }
  }

  lemma HContentWidthStep(b: BoxProps, sizes: seq<Float2>, i: nat)
    requires 0 < i <= |sizes| && FiniteBox(b) && FiniteSizes(sizes)
    requires HContent(b, sizes, i - 1).x == Fin(SumW(sizes, i - 1) + (Gaps(i - 1, |sizes|) as real) * b.spacing.v)
    ensures HContent(b, sizes, i).x == Fin(SumW(sizes, i) + (Gaps(i, |sizes|) as real) * b.spacing.v)
  {
    var w, sp := sizes[i - 1].x.v, b.spacing.v;
    var s0, g := SumW(sizes, i - 1), Gaps(i - 1, |sizes|);
    assert sizes[i - 1].x == Fin(w);
    assert b.spacing == Fin(sp);
    var x := s0 + (g as real) * sp;
    if i < |sizes| {
      assert HContent(b, sizes, i).x == Add(Fin(x), Add(Fin(w), Mul(Fin(sp), One)));
      SpacedStep(x, w, sp);
      GapArith(s0, w, g, sp);
      assert Gaps(i, |sizes|) == g + 1;
    } else {
      assert HContent(b, sizes, i).x == Add(Fin(x), Add(Fin(w), Mul(Fin(sp), Zero)));
      UnspacedStep(x, w, sp);
      assert Gaps(i, |sizes|) == g;
    }
  }

  lemma HContentHeightStep(b: BoxProps, sizes: seq<Float2>, i: nat)
    requires 0 < i <= |sizes| && FiniteBox(b) && FiniteSizes(sizes)
    requires HContent(b, sizes, i - 1).y == Fin(MaxH(sizes, i - 1))
    ensures HContent(b, sizes, i).y == Fin(MaxH(sizes, i))
  {
    var h := sizes[i - 1].y.v;
    assert sizes[i - 1].y == Fin(h);
    assert HContent(b, sizes, i).y == Max(Fin(h), Fin(MaxH(sizes, i - 1)));
    WidenStep(h, MaxH(sizes, i - 1));
  }

  /** The content width is Σw + spacing·(n−1), clamped to the width limits, plus the horizontal inset. */
  lemma HSizeWidth(b: BoxProps, sizes: seq<Float2>)
    requires |sizes| > 0 && FiniteBox(b) && FiniteSizes(sizes)
    ensures HSize(b, sizes).x == Add(HInsetX(b), Clamp(Fin(SumW(sizes, |sizes|) + ((|sizes| - 1) as real) * b.spacing.v), b.width.x, b.width.y))
  {
    HContentFinite(b, sizes, |sizes|);
    assert Gaps(|sizes|, |sizes|) == |sizes| - 1;
  }

  /** The content height is the tallest child, clamped to the height limits, plus the vertical inset. */
  lemma HSizeHeight(b: BoxProps, sizes: seq<Float2>)
    requires FiniteBox(b) && FiniteSizes(sizes)
    ensures HSize(b, sizes).y == Add(HInsetY(b), Clamp(Fin(MaxH(sizes, |sizes|)), b.height.x, b.height.y))
  {
    HContentFinite(b, sizes, |sizes|);
  }

  /** No insets, spacing 5 and the default limits (0, Infinity). */
  const ExampleBox: BoxProps := BoxProps(Zero4, Zero4, Zero4, Fin(5.0), Float2(Zero, PosInf), Float2(Zero, PosInf))

  /** The example children: 10×10 and 20×10. */
  const ExampleSizes: seq<Float2> := [Float2(Fin(10.0), Fin(10.0)), Float2(Fin(20.0), Fin(10.0))]

  lemma ExampleFinite()
    ensures FiniteBox(ExampleBox) && FiniteSizes(ExampleSizes)
  {
    forall i | 0 <= i < |ExampleSizes|
      ensures ExampleSizes[i].x.Fin? && ExampleSizes[i].y.Fin?
    {
      assert i == 0 || i == 1;
    }
  }

  /** The example children give the HBox the size (35, 10): 10 + 5 + 20 wide, no spacing after the last child. */
  lemma HBoxExampleSize()
    ensures HSize(ExampleBox, ExampleSizes) == Float2(Fin(35.0), Fin(10.0))
  {
    var b, sizes := ExampleBox, ExampleSizes;
    ExampleFinite();
    var c := HContent(b, sizes, 2);
    assert c.x == Fin(35.0) && c.y == Fin(10.0) by {
      assert SumW(sizes, 1) == 10.0 && MaxH(sizes, 1) == 10.0;
      HContentFinite(b, sizes, 2);
      assert Gaps(2, 2) == 1;
    }
    assert HInsetX(b) == Zero && HInsetY(b) == Zero by {
      HInsetXFinite(b);
      HInsetYFinite(b);
    }
    ClampUnbounded(35.0, 0.0);
    ClampUnbounded(10.0, 0.0);
    FiniteArithmetic(0.0, 35.0);
    FiniteArithmetic(0.0, 10.0);
  }

  /** The HBox places the example children at (0, 0) and (15, 0). */
  lemma HBoxExampleLayout()
    ensures HPosition(ExampleBox, ExampleSizes, 0) == Float2(Zero, Zero)
    ensures HPosition(ExampleBox, ExampleSizes, 1) == Float2(Fin(15.0), Zero)
  {
    ExampleFinite();
    assert HPosition(ExampleBox, ExampleSizes, 0) == Float2(Zero, Zero) by {
      HPositionFinite(ExampleBox, ExampleSizes, 0);
    }
    assert HPosition(ExampleBox, ExampleSizes, 1) == Float2(Fin(15.0), Zero) by {
      HPositionFinite(ExampleBox, ExampleSizes, 1);
      assert SumW(ExampleSizes, 1) == 10.0;
    }
  }

  // ---------------------------------------------------------------- VBox

  /** VBox's horizontal inset: margin.x, margin.z, padding.x, margin.z again, border x and z. */
  function VInsetX(b: BoxProps): Float
  {
    Add(Add(Add(Add(Add(b.margin.x, b.margin.z), b.padding.x), b.margin.z), b.border.x), b.border.z)
  }

  /** VBox's vertical inset: margin.y, margin.w, padding.y, margin.w again, border y and w. */
  function VInsetY(b: BoxProps): Float
  {
    Add(Add(Add(Add(Add(b.margin.y, b.margin.w), b.padding.y), b.margin.w), b.border.y), b.border.w)
  }

  /** The VBox insets differ from the HBox ones exactly when margin.z (margin.w) differs from padding.z (padding.w). */
  lemma VInsetQuirk(b: BoxProps)
    requires FiniteBox(b)
    ensures VInsetX(b) == HInsetX(b) <==> b.margin.z == b.padding.z
    ensures VInsetY(b) == HInsetY(b) <==> b.margin.w == b.padding.w
  {
  }

  /** childConstraints.w after the loop has seen the first i children. */
  function VRemaining(b: BoxProps, start: Float, sizes: seq<Float2>, i: nat): Float
    requires i <= |sizes|
  {
    if i == 0 then start
    else Max(Zero, Sub(VRemaining(b, start, sizes, i - 1), Add(sizes[i - 1].y, b.spacing)))
  }

  /** VBox.Constrain: no infinity guard; both maxima lose the insets and are floored, then w loses the earlier children. */
  function VConstraints(b: BoxProps, c: Float4, sizes: seq<Float2>, childIndex: nat): Float4
    requires childIndex <= |sizes|
  {
    Float4(Zero, Zero, FloorZero(Sub(c.z, VInsetX(b))), VRemaining(b, FloorZero(Sub(c.w, VInsetY(b))), sizes, childIndex))
  }

  method VBoxConstrain(b: BoxProps, c: Float4, sizes: seq<Float2>, childIndex: nat) returns (childConstraints: Float4)
    requires childIndex <= |sizes|
    ensures childConstraints == VConstraints(b, c, sizes, childIndex)
    ensures childConstraints.x == Zero && childConstraints.y == Zero
  {
    childConstraints := Float4(Zero, Zero, c.z, c.w);
    childConstraints := childConstraints.(z := Sub(childConstraints.z, VInsetX(b)));
    childConstraints := childConstraints.(w := Sub(childConstraints.w, VInsetY(b)));
    if Less(childConstraints.z, Zero) {
      childConstraints := childConstraints.(z := Zero);
    }
    if Less(childConstraints.w, Zero) {
      childConstraints := childConstraints.(w := Zero);
    }
    ghost var w0 := childConstraints.w;
    var i := 0;
    while i < childIndex
      invariant 0 <= i <= childIndex
      invariant childConstraints == Float4(Zero, Zero, FloorZero(Sub(c.z, VInsetX(b))), VRemaining(b, w0, sizes, i))
    {
      var childSize := sizes[i];
      childConstraints := childConstraints.(w := Max(Zero, Sub(childConstraints.w, Add(childSize.y, b.spacing))));
      i := i + 1;
    }
  }

  /** Without the guard an infinite maximum width loses the insets too: it stays +∞, while a finite maximum is floored at 0. */
  lemma VUnboundedStays(b: BoxProps, c: Float4, sizes: seq<Float2>, childIndex: nat)
    requires childIndex <= |sizes| && FiniteBox(b) && c.z.PosInf?
    ensures VConstraints(b, c, sizes, childIndex).z == PosInf
  {
  }

  /** The VBox's maxima are never below 0 for finite inputs. */
  lemma {:induction false} VRemainingFloored(b: BoxProps, start: Float, sizes: seq<Float2>, i: nat)
    requires i <= |sizes| && FiniteBox(b) && FiniteSizes(sizes) && start.Fin? && start.v >= 0.0
    ensures VRemaining(b, start, sizes, i).Fin? && VRemaining(b, start, sizes, i).v >= 0.0
  {
    if i > 0 {
      VRemainingFloored(b, start, sizes, i - 1);
    }
  }

  /** start.y after the first i children: the full vertical inset, then each height plus spacing. */
  function VStartY(b: BoxProps, sizes: seq<Float2>, i: nat): Float
    requires i <= |sizes|
  {
    if i == 0 then VInsetY(b) else Add(VStartY(b, sizes, i - 1), Add(sizes[i - 1].y, b.spacing))
  }

  /** VBox.Layout: child i at (full horizontal inset, start.y). */
  function VPosition(b: BoxProps, sizes: seq<Float2>, i: nat): Float2
    requires i <= |sizes|
  {
    Float2(VInsetX(b), VStartY(b, sizes, i))
  }

  method VBoxLayout(b: BoxProps, sizes: seq<Float2>, positions: array<Float2>)
    requires positions.Length == |sizes|
    modifies positions
    ensures forall i :: 0 <= i < |sizes| ==> positions[i] == VPosition(b, sizes, i)
  {
    var start := Float2(VInsetX(b), VInsetY(b));
    var i := 0;
    while i < |sizes|
      invariant 0 <= i <= |sizes|
      invariant start == VPosition(b, sizes, i)
      invariant forall j :: 0 <= j < i ==> positions[j] == VPosition(b, sizes, j)
    {
      var childSize := sizes[i];
      positions[i] := start;
      start := start.(y := Add(start.y, Add(childSize.y, b.spacing)));
      i := i + 1;
    }
  }

  /** Child i's y is the full vertical inset plus height and spacing of every earlier child. */
  lemma {:induction false} VPositionFinite(b: BoxProps, sizes: seq<Float2>, i: nat)
    requires i <= |sizes| && FiniteBox(b) && FiniteSizes(sizes)
    ensures VPosition(b, sizes, i).x == VInsetX(b)
    ensures VPosition(b, sizes, i).y == Fin(VInsetY(b).v + SumH(sizes, i) + (i as real) * b.spacing.v)
  {
    if i > 0 {
      VPositionFinite(b, sizes, i - 1);
      var h := sizes[i - 1].y.v;
      assert sizes[i - 1].y == Fin(h);
      assert b.spacing == Fin(b.spacing.v);
      var s0 := VInsetY(b).v + SumH(sizes, i - 1);
      AdvanceStep(s0 + ((i - 1) as real) * b.spacing.v, h, b.spacing.v);
      GapArith(s0, h, i - 1, b.spacing.v);
    }
  }

  /** contentSize after the first i children of VBox.Size: spacing follows every child, the last too. */
  function VContent(b: BoxProps, sizes: seq<Float2>, i: nat): Float2
    requires i <= |sizes|
  {
    if i == 0 then Zero2
    else
      var c := VContent(b, sizes, i - 1);
      var s := sizes[i - 1];
      Float2(Max(s.x, c.x), Add(c.y, Add(s.y, b.spacing)))
  }

  function VSize(b: BoxProps, sizes: seq<Float2>): Float2
  {
    var c := VContent(b, sizes, |sizes|);
    Add2(Float2(VInsetX(b), VInsetY(b)), Float2(Clamp(c.x, b.width.x, b.width.y), Clamp(c.y, b.height.x, b.height.y)))
  }

  method VBoxSize(b: BoxProps, sizes: seq<Float2>) returns (size: Float2)
    ensures size == VSize(b, sizes)
  {
    size := Float2(VInsetX(b), VInsetY(b));
    var contentSize := Zero2;
    var i := 0;
    while i < |sizes|
      invariant 0 <= i <= |sizes|
      invariant contentSize == VContent(b, sizes, i)
    {
      var childSize := sizes[i];
      contentSize := Float2(Max(childSize.x, contentSize.x), Add(contentSize.y, Add(childSize.y, b.spacing)));
      i := i + 1;
    }
    contentSize := contentSize.(x := Clamp(contentSize.x, b.width.x, b.width.y));
    contentSize := contentSize.(y := Clamp(contentSize.y, b.height.x, b.height.y));
    size := Add2(size, contentSize);
  }

  lemma {:induction false} VContentFinite(b: BoxProps, sizes: seq<Float2>, i: nat)
    requires i <= |sizes| && FiniteBox(b) && FiniteSizes(sizes)
    ensures VContent(b, sizes, i).x == Fin(MaxW(sizes, i))
    ensures VContent(b, sizes, i).y == Fin(SumH(sizes, i) + (i as real) * b.spacing.v)
  {
    if i > 0 {
      VContentFinite(b, sizes, i - 1);
      var c := VContent(b, sizes, i - 1);
      var w, h, sp := sizes[i - 1].x.v, sizes[i - 1].y.v, b.spacing.v;
      assert sizes[i - 1] == Float2(Fin(w), Fin(h));
      assert b.spacing == Fin(sp);
      var s0 := SumH(sizes, i - 1);
      assert c.x == Fin(MaxW(sizes, i - 1)) && c.y == Fin(s0 + ((i - 1) as real) * sp);
      assert VContent(b, sizes, i).x == Max(Fin(w), Fin(MaxW(sizes, i - 1)));
      assert VContent(b, sizes, i).y == Add(Fin(s0 + ((i - 1) as real) * sp), Add(Fin(h), Fin(sp)));
      WidenStep(w, MaxW(sizes, i - 1));
      AdvanceStep(s0 + ((i - 1) as real) * sp, h, sp);
      GapArith(s0, h, i - 1, sp);
    }
  }

  /** The content width is the widest child, clamped to the width limits, plus the horizontal inset. */
  lemma VSizeWidth(b: BoxProps, sizes: seq<Float2>)
    requires FiniteBox(b) && FiniteSizes(sizes)
    ensures VSize(b, sizes).x == Add(VInsetX(b), Clamp(Fin(MaxW(sizes, |sizes|)), b.width.x, b.width.y))
  {
    VContentFinite(b, sizes, |sizes|);
  }

  /** The content height is Σ(h + spacing), a spacing after the last child included, clamped, plus the vertical inset. */
  lemma VSizeHeight(b: BoxProps, sizes: seq<Float2>)
    requires FiniteBox(b) && FiniteSizes(sizes)
    ensures VSize(b, sizes).y == Add(VInsetY(b), Clamp(Fin(SumH(sizes, |sizes|) + (|sizes| as real) * b.spacing.v), b.height.x, b.height.y))
  {
    VContentFinite(b, sizes, |sizes|);
  }

  /** The same two children stacked give the VBox (20, 30), the spacing after the last child counted. */
  lemma VBoxExampleSize()
    ensures VSize(ExampleBox, ExampleSizes) == Float2(Fin(20.0), Fin(30.0))
  {
    var b, sizes := ExampleBox, ExampleSizes;
    ExampleFinite();
    var c := VContent(b, sizes, 2);
    assert c.x == Fin(20.0) && c.y == Fin(30.0) by {
      assert SumH(sizes, 1) == 10.0 && MaxW(sizes, 1) == 10.0;
      VContentFinite(b, sizes, 2);
    }
    assert VInsetX(b) == Zero && VInsetY(b) == Zero;
    ClampUnbounded(20.0, 0.0);
    ClampUnbounded(30.0, 0.0);
    FiniteArithmetic(0.0, 20.0);
    FiniteArithmetic(0.0, 30.0);
  }

  /** The VBox places the second example child at (0, 15). */
  lemma VBoxExampleLayout()
    ensures VPosition(ExampleBox, ExampleSizes, 1) == Float2(Zero, Fin(15.0))
  {
    ExampleFinite();
    assert VInsetX(ExampleBox) == Zero && VInsetY(ExampleBox) == Zero;
    VPositionFinite(ExampleBox, ExampleSizes, 1);
    assert SumH(ExampleSizes, 1) == 10.0;
  }
}
