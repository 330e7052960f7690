/**
 * UILength: a CSS-like length (a raw value and a unit) with the realValue
 * the normalisation pass computes for it in pixels. The unit codes keep the
 * absolute units even and the relative ones odd; percentages need the
 * length they are relative to, which the context carries.
 */
module UiLength {
  import opened Bytes
  import opened Floats

  datatype UILengthUnit = Px | Cm | Mm | In | Pt | Pc | Em | Ex | Ch | Rem | Vw | Vh | Vmin | Vmax | Percent | Auto | Inherit

  /** The byte each unit is stored as. */
  function UnitCode(u: UILengthUnit): (r: byte)
  {
    match u
    case Px => 0x00 case Cm => 0x02 case Mm => 0x04 case In => 0x06 case Pt => 0x08 case Pc => 0x0A
    case Em => 0x01 case Ex => 0x03 case Ch => 0x05 case Rem => 0x07
    case Vw => 0x09 case Vh => 0x0B case Vmin => 0x0D case Vmax => 0x0F
    case Percent => 0x11 case Auto => 0x13 case Inherit => 0x15
  }

  /** The unit stored as code b, if any. */
  function UnitOfCode(b: byte): (r: Option<UILengthUnit>)
  {
    if b == 0x00 then Some(Px) else if b == 0x02 then Some(Cm) else if b == 0x04 then Some(Mm)
    else if b == 0x06 then Some(In) else if b == 0x08 then Some(Pt) else if b == 0x0A then Some(Pc)
    else if b == 0x01 then Some(Em) else if b == 0x03 then Some(Ex) else if b == 0x05 then Some(Ch)
    else if b == 0x07 then Some(Rem) else if b == 0x09 then Some(Vw) else if b == 0x0B then Some(Vh)
    else if b == 0x0D then Some(Vmin) else if b == 0x0F then Some(Vmax) else if b == 0x11 then Some(Percent)
    else if b == 0x13 then Some(Auto) else if b == 0x15 then Some(Inherit) else None
  }

  /** Units that do not depend on anything but the display: the physical ones and px. */
  predicate IsAbsolute(u: UILengthUnit)
  {
    u.Px? || u.Cm? || u.Mm? || u.In? || u.Pt? || u.Pc?
  }

  /** The low bit of the code tells relative (1) from absolute (0) units. */
  lemma UnitParity(u: UILengthUnit)
    ensures UnitCode(u) % 2 == 0 <==> IsAbsolute(u)
  {
  }

  /** Every code decodes back to its unit, so no two units share a code. */
  lemma UnitCodeRoundTrip(u: UILengthUnit)
    ensures UnitOfCode(UnitCode(u)) == Some(u)
  {
  }

  /** A UILength: realValue is the normalised value, zero until normalisation writes it. */
  datatype UILength = UILength(realValue: Float, value: Float, unit: UILengthUnit)

  /** new UILength(value, unit). */
  function NewLength(value: Float, unit: UILengthUnit): (r: UILength)
    ensures r.realValue == Zero && r.value == value && r.unit == unit
  {
    UILength(Zero, value, unit)
  }

  // ---------------------------------------------------------------- TryParse

  /**
   * The outcome of matching the pattern (NAN|-?INF(INITY)?|-?digits(.digits)?)([a-zA-Z%]*)
   * case-insensitively: the number text and the unit text, the latter
   * possibly empty. The regular expression engine itself is not modelled.
   */
  datatype RegexMatch = NoMatch | Matched(number: string, unitText: string)

  /** ASCII lower case; the unit text can only hold ASCII letters and %. */
  function Lower(s: string): string
  {
    if s == [] then []
    else [if 'A' <= s[0] <= 'Z' then (s[0] as int + 32) as char else s[0]] + Lower(s[1..])
  }

  /** The enum names in lower case. */
  function UnitName(u: UILengthUnit): string
  {
    match u
    case Px => "px" case Cm => "cm" case Mm => "mm" case In => "in" case Pt => "pt" case Pc => "pc"
    case Em => "em" case Ex => "ex" case Ch => "ch" case Rem => "rem" case Vw => "vw" case Vh => "vh"
    case Vmin => "vmin" case Vmax => "vmax" case Percent => "percent" case Auto => "auto" case Inherit => "inherit"
  }


  /** Enum.TryParse<UILengthUnit>(text, ignoreCase: true) on a text of letters and %. */
  function ParseUnit(text: string): (r: Option<UILengthUnit>)
    ensures r.Some? ==> Lower(text) == UnitName(r.value)
  {
    var t := Lower(text);
    if t == "px" then Some(Px) else if t == "cm" then Some(Cm) else if t == "mm" then Some(Mm)
    else if t == "in" then Some(In) else if t == "pt" then Some(Pt) else if t == "pc" then Some(Pc)
    else if t == "em" then Some(Em) else if t == "ex" then Some(Ex) else if t == "ch" then Some(Ch)
    else if t == "rem" then Some(Rem) else if t == "vw" then Some(Vw) else if t == "vh" then Some(Vh)
    else if t == "vmin" then Some(Vmin) else if t == "vmax" then Some(Vmax) else if t == "percent" then Some(Percent)
    else if t == "auto" then Some(Auto) else if t == "inherit" then Some(Inherit) else None
  }

  /**
   * UILength.TryParse. parseNumber stands for float.TryParse with the
   * invariant culture; a number it rejects becomes 0, and a missing or
   * unknown unit becomes Px.
   */
  function TryParse(m: RegexMatch, parseNumber: string -> Option<Float>): (r: Option<UILength>)
    ensures r.Some? <==> m.Matched?
    ensures r.Some? ==> r.value.realValue == Zero
  {
    match m
    case NoMatch => None
    case Matched(number, unitText) =>
      var n := parseNumber(number);
      var u := ParseUnit(unitText);
      Some(NewLength(if n.Some? then n.value else Zero, if u.Some? then u.value else Px))
  }

  /** "50%" is 50 px: "%" names no unit, so the parser falls back to Px. */
  lemma PercentSignIsPx(parseNumber: string -> Option<Float>)
    ensures TryParse(Matched("50", "%"), parseNumber).Some?
    ensures TryParse(Matched("50", "%"), parseNumber).value.unit == Px
  {
    assert Lower("%") == "%";
  }

  /** A missing unit is Px and an unreadable number is 0. */
  lemma ParseDefaults(number: string, parseNumber: string -> Option<Float>)
    requires parseNumber(number).None?
    ensures TryParse(Matched(number, ""), parseNumber) == Some(UILength(Zero, Zero, Px))
  {
  }

  // ---------------------------------------------------------------- Normalize

  /** SimpleUILengthContext; RelativeTo is the only settable member and starts at 0. */
  datatype LengthContext = LengthContext(dpi: Float, pixelScale: Float, viewportSize: Float2, relativeTo: Float)

  function NewContext(dpi: Float, pixelScale: Float, viewportSize: Float2): (c: LengthContext)
    ensures c.relativeTo == Zero && c.dpi == dpi && c.pixelScale == pixelScale && c.viewportSize == viewportSize
  {
    LengthContext(dpi, pixelScale, viewportSize, Zero)
  }

  /** UILength.Normalize: the value in pixels. */
  function Normalize(l: UILength, c: LengthContext): (r: Float)
    ensures IsInfinity(l.value) || IsNaN(l.value) ==> r == l.value
  {
    var v := l.value;
    if IsInfinity(v) || IsNaN(v) then v
    else
      var scaled := Mul(v, c.pixelScale);
      match l.unit
      case Px => scaled
      case Cm => Div(Mul(scaled, c.dpi), Fin(2.54))
      case Mm => Div(Mul(scaled, c.dpi), Fin(25.4))
      case In => Mul(scaled, c.dpi)
      case Pt => Mul(Mul(scaled, c.dpi), Fin(1.0 / 72.0))
      case Pc => Mul(Mul(scaled, c.dpi), Fin(1.0 / 6.0))
      case Vw => Mul(scaled, Mul(c.viewportSize.x, Fin(0.01)))
      case Vh => Mul(scaled, Mul(c.viewportSize.y, Fin(0.01)))
      case Vmin => Mul(scaled, Mul(Floats.Min(c.viewportSize.x, c.viewportSize.y), Fin(0.01)))
      case Vmax => Mul(scaled, Mul(Floats.Max(c.viewportSize.x, c.viewportSize.y), Fin(0.01)))
      case Percent => Mul(v, c.relativeTo)
      case _ => Zero
  }

  /** A context whose scale, resolution and viewport are ordinary numbers. */
  predicate FiniteContext(c: LengthContext)
  {
    c.dpi.Fin? && c.pixelScale.Fin? && c.viewportSize.x.Fin? && c.viewportSize.y.Fin? && c.relativeTo.Fin?
  }

  /** Pixels per unit: what a value of 1 normalises to, in the unit's linear rule. */
  function PerUnit(u: UILengthUnit, c: LengthContext): real
    requires FiniteContext(c)
  {
    var ps, dpi := c.pixelScale.v, c.dpi.v;
    var vx, vy := c.viewportSize.x.v, c.viewportSize.y.v;
    match u
    case Px => ps
    case Cm => ps * dpi / 2.54
    case Mm => ps * dpi / 25.4
    case In => ps * dpi
    case Pt => ps * dpi / 72.0
    case Pc => ps * dpi / 6.0
    case Vw => ps * (vx * 0.01)
    case Vh => ps * (vy * 0.01)
    case Vmin => ps * ((if vx < vy then vx else vy) * 0.01)
    case Vmax => ps * ((if vy < vx then vx else vy) * 0.01)
    case Percent => c.relativeTo.v
    case _ => 0.0
  }

  lemma Assoc(x: real, a: real, b: real)
    ensures x * a * b == x * (a * b)
  {
  }

  lemma AssocDiv(x: real, a: real, b: real, k: real)
    requires k != 0.0
    ensures x * a * b / k == x * (a * b / k)
  {
    Assoc(x, a, b);
  }

  /** The physical units on a finite value. */
  lemma NormalizePhysical(x: real, u: UILengthUnit, c: LengthContext, realValue: Float)
    requires FiniteContext(c) && IsAbsolute(u)
    ensures Normalize(UILength(realValue, Fin(x), u), c) == Fin(x * PerUnit(u, c))
  {
    if u.Cm? || u.Mm? {
      NormalizeMetric(x, u, c, realValue);
    } else if u.Pt? || u.Pc? {
      NormalizePoints(x, u, c, realValue);
    } else if u.In? {
      Assoc(x, c.pixelScale.v, c.dpi.v);
    }
  }

  lemma NormalizeMetric(x: real, u: UILengthUnit, c: LengthContext, realValue: Float)
    requires FiniteContext(c) && (u.Cm? || u.Mm?)
    ensures Normalize(UILength(realValue, Fin(x), u), c) == Fin(x * PerUnit(u, c))
  {
    AssocDiv(x, c.pixelScale.v, c.dpi.v, if u.Cm? then 2.54 else 25.4);
  }

  lemma NormalizePoints(x: real, u: UILengthUnit, c: LengthContext, realValue: Float)
    requires FiniteContext(c) && (u.Pt? || u.Pc?)
    ensures Normalize(UILength(realValue, Fin(x), u), c) == Fin(x * PerUnit(u, c))
  {
    var ps, dpi := c.pixelScale.v, c.dpi.v;
    var k := if u.Pt? then 72.0 else 6.0;
    Assoc(x, ps, dpi);
    assert x * (ps * dpi) * (1.0 / k) == x * (ps * dpi / k);
  }

  /** The viewport units on a finite value. */
  lemma NormalizeViewport(x: real, u: UILengthUnit, c: LengthContext, realValue: Float)
    requires FiniteContext(c) && (u.Vw? || u.Vh? || u.Vmin? || u.Vmax?)
    ensures Normalize(UILength(realValue, Fin(x), u), c) == Fin(x * PerUnit(u, c))
  {
    var ps, vx, vy := c.pixelScale.v, c.viewportSize.x.v, c.viewportSize.y.v;
    match u
    case Vw => Assoc(x, ps, vx * 0.01);
    case Vh => Assoc(x, ps, vy * 0.01);
    case Vmin => Assoc(x, ps, (if vx < vy then vx else vy) * 0.01);
    case Vmax => Assoc(x, ps, (if vy < vx then vx else vy) * 0.01);
  }

  /** With a finite context every unit is linear: value times the unit's pixels per unit. */
  lemma NormalizeLinear(x: real, u: UILengthUnit, c: LengthContext, realValue: Float)
    requires FiniteContext(c)
    ensures Normalize(UILength(realValue, Fin(x), u), c) == Fin(x * PerUnit(u, c))
  {
    if IsAbsolute(u) {
      NormalizePhysical(x, u, c, realValue);
    } else if u.Vw? || u.Vh? || u.Vmin? || u.Vmax? {
      NormalizeViewport(x, u, c, realValue);
    }
  }

  /** The physical units keep their CSS ratios: 1in = 2.54cm = 25.4mm = 72pt = 6pc = 96px at 96 dpi. */
  lemma PhysicalUnits(c: LengthContext)
    requires FiniteContext(c)
    ensures PerUnit(In, c) == 2.54 * PerUnit(Cm, c) == 25.4 * PerUnit(Mm, c)
    ensures PerUnit(In, c) == 72.0 * PerUnit(Pt, c) == 6.0 * PerUnit(Pc, c)
    ensures c.dpi == Fin(96.0) ==> PerUnit(In, c) == 96.0 * PerUnit(Px, c)
  {
  }

  /** Percent ignores the pixel scale; the font- and inheritance-relative units are not computed and give 0. */
  lemma RelativeUnits(x: real, c: LengthContext, realValue: Float)
    requires FiniteContext(c)
    ensures Normalize(UILength(realValue, Fin(x), Percent), c) == Fin(x * c.relativeTo.v)
    ensures forall u :: u in {Auto, Em, Ex, Ch, Rem, Inherit} ==> Normalize(UILength(realValue, Fin(x), u), c) == Zero
  {
  }
}
