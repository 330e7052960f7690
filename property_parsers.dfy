/**
 * UIPropertyParser.TryParse<TValue>: the text of an attribute becomes a value.
 * A composite value (CompositeData2/3/4) is split on single spaces and its
 * fields, in byte-offset order, are filled from the tokens: a 4-field value
 * also accepts 1, 2 or 3 tokens, spread over its fields as CSS spreads margin
 * shorthands except that 3 tokens give (a, b, b, c). Enums go to
 * Enum.TryParse and every other type to the parser registered for it; both
 * are parameters here.
 */
module PropertyParsers {
  import opened Bytes
  import opened Strings

  function Min(a: int, b: int): int { if a < b then a else b }

  /** Every token parses. */
  predicate AllParse<V>(tokens: seq<string>, parse: string -> Option<V>)
  {
    forall k :: 0 <= k < |tokens| ==> parse(tokens[k]).Some?
  }

  /** How many tokens a composite of fieldCount fields reads out of tokenCount. */
  function Used(fieldCount: nat, tokenCount: nat): nat
  {
    if fieldCount == 4 && tokenCount != 4 then tokenCount else Min(fieldCount, tokenCount)
  }

  /** The token field i takes its value from. */
  function SourceToken(fieldCount: nat, tokenCount: nat, i: nat): (k: nat)
    requires 1 <= tokenCount && i < fieldCount
    requires fieldCount == 4 ==> tokenCount <= 4
    ensures k < Used(fieldCount, tokenCount)
  {
    if fieldCount == 4 && tokenCount == 1 then 0
    else if fieldCount == 4 && tokenCount == 2 then i % 2
    else if fieldCount == 4 && tokenCount == 3 then (if i == 0 then 0 else if i <= 2 then 1 else 2)
    else Min(i, tokenCount - 1)
  }

  /**
   * The composite a list of tokens describes: failure when a 4-field value
   * gets more than 4 tokens or when a token it reads does not parse,
   * otherwise field i holds the parse of token SourceToken(i).
   */
  function Splat<V>(tokens: seq<string>, fieldCount: nat, parse: string -> Option<V>): (r: Option<seq<V>>)
    requires |tokens| >= 1
    ensures r.Some? ==> |r.value| == fieldCount
  {
    if fieldCount == 4 && |tokens| > 4 then None
    else if !AllParse(tokens[..Used(fieldCount, |tokens|)], parse) then None
    else Some(seq(fieldCount, i requires 0 <= i < fieldCount => parse(tokens[SourceToken(fieldCount, |tokens|, i)]).value))
  }

  /** The values a composite type can have; fieldCount is the number of its TValue fields. */
  datatype ValueKind = Composite(fieldCount: nat) | Enumeration | Plain

  datatype Parsed<V> = Single(value: V) | Components(values: seq<V>)

  /**
   * TryParse<TValue>. parse is the parser registered for the value (for a
   * composite, for its element type) and parseEnum stands for
   * Enum.TryParse(str, ignoreCase: true); zero is default(TValue).
   */
  method TryParse<V>(str: string, kind: ValueKind, parse: string -> Option<V>, parseEnum: string -> Option<V>, zero: V)
    returns (ok: bool, result: Parsed<V>)
    requires kind.Composite? ==> 2 <= kind.fieldCount <= 4
    ensures kind.Composite? ==>
      (var s := Splat(Split(str, ' '), kind.fieldCount, parse);
       result.Components? && ok == s.Some? && result.values == (if ok then s.value else seq(kind.fieldCount, _ => zero)))
    ensures kind.Enumeration? ==> ok == parseEnum(str).Some? && result == Single(if ok then parseEnum(str).value else zero)
    ensures kind.Plain? ==> ok == parse(str).Some? && result == Single(if ok then parse(str).value else zero)
  {
    match kind
    case Composite(fieldCount) =>
      var values;
      ok, values := TryParseComposite(str, fieldCount, parse, zero);
      result := Components(values);
    case Enumeration =>
      var p := parseEnum(str);
      ok, result := p.Some?, Single(if p.Some? then p.value else zero);
    case Plain =>
      var p := parse(str);
      ok, result := p.Some?, Single(if p.Some? then p.value else zero);
  }

  /** The composite branch: the splat switch for 4 fields, otherwise the two filling loops. */
  method TryParseComposite<V>(str: string, fieldCount: nat, parse: string -> Option<V>, zero: V)
    returns (ok: bool, result: seq<V>)
    requires 2 <= fieldCount <= 4
    ensures var s := Splat(Split(str, ' '), fieldCount, parse);
      ok == s.Some? && result == (if ok then s.value else seq(fieldCount, _ => zero))
  {
    var inputs := Split(str, ' ');
    if fieldCount == 4 && |inputs| != fieldCount {
      ok, result := Shorthand(inputs, parse, zero);
    } else {
      ok, result := FillFields(inputs, fieldCount, parse, zero);
    }
  }

  /** The same composite, field by field. */
  lemma SplatFields<V>(tokens: seq<string>, fieldCount: nat, parse: string -> Option<V>, r: seq<V>)
    requires |tokens| >= 1 && !(fieldCount == 4 && |tokens| > 4)
    requires AllParse(tokens[..Used(fieldCount, |tokens|)], parse)
    requires |r| == fieldCount
    requires forall i :: 0 <= i < fieldCount ==> r[i] == parse(tokens[SourceToken(fieldCount, |tokens|, i)]).value
    ensures Splat(tokens, fieldCount, parse) == Some(r)
  {
    assert Splat(tokens, fieldCount, parse).Some?;
    var s := Splat(tokens, fieldCount, parse).value;
    forall i | 0 <= i < fieldCount
      ensures s[i] == r[i]
    {
    }
    assert s == r;
  }

  /** The switch on the token count of a 4-field value that does not get 4 tokens. */
  method Shorthand<V>(inputs: seq<string>, parse: string -> Option<V>, zero: V) returns (ok: bool, result: seq<V>)
    requires |inputs| >= 1 && |inputs| != 4
    ensures var s := Splat(inputs, 4, parse);
      ok == s.Some? && result == (if ok then s.value else seq(4, _ => zero))
  {
    var value := new V[4](_ => zero);
    if |inputs| == 3 {
      var p0, p1, p2 := parse(inputs[0]), parse(inputs[1]), parse(inputs[2]);
      if p0.None? || p1.None? || p2.None? {
        BadTokenFails(inputs, 4, parse, if p0.None? then 0 else if p1.None? then 1 else 2);
        return false, seq(4, _ => zero);
      }
      value[0], value[1], value[2], value[3] := p0.value, p1.value, p1.value, p2.value;
    } else if |inputs| == 2 {
      var p0, p1 := parse(inputs[0]), parse(inputs[1]);
      if p0.None? || p1.None? {
        BadTokenFails(inputs, 4, parse, if p0.None? then 0 else 1);
        return false, seq(4, _ => zero);
      }
      value[0], value[2] := p0.value, p0.value;
      value[1], value[3] := p1.value, p1.value;
    } else if |inputs| == 1 {
      var p0 := parse(inputs[0]);
      if p0.None? {
        BadTokenFails(inputs, 4, parse, 0);
        return false, seq(4, _ => zero);
      }
      value[0], value[1], value[2], value[3] := p0.value, p0.value, p0.value, p0.value;
    } else {
      return false, seq(4, _ => zero);
    }
    ok, result := true, value[..];
    assert inputs[..|inputs|] == inputs;
    SplatFields(inputs, 4, parse, result);
  }

  /** The two loops: parse a token per field while both last, then repeat the last value parsed. */
  method FillFields<V>(inputs: seq<string>, fieldCount: nat, parse: string -> Option<V>, zero: V) returns (ok: bool, result: seq<V>)
    requires |inputs| >= 1 && 2 <= fieldCount <= 4 && (fieldCount == 4 ==> |inputs| == 4)
    ensures var s := Splat(inputs, fieldCount, parse);
      ok == s.Some? && result == (if ok then s.value else seq(fieldCount, _ => zero))
  {
    var value := new V[fieldCount](_ => zero);
    var temp := zero;
    var n := Min(fieldCount, |inputs|);
    var index := 0;
    while index < fieldCount && index < |inputs|
      invariant 0 <= index <= n
      invariant AllParse(inputs[..index], parse)
      invariant forall i :: 0 <= i < index ==> value[i] == parse(inputs[i]).value
      invariant index > 0 ==> temp == parse(inputs[index - 1]).value
    {
      var p := parse(inputs[index]);
      if p.None? {
        BadTokenFails(inputs, fieldCount, parse, index);
        return false, seq(fieldCount, _ => zero);
      }
      temp := p.value;
      value[index] := temp;
      assert inputs[..index + 1] == inputs[..index] + [inputs[index]];
      index := index + 1;
    }
    while index < fieldCount
      invariant n <= index <= fieldCount
      invariant forall i :: 0 <= i < n ==> value[i] == parse(inputs[i]).value
      invariant forall i :: n <= i < index ==> value[i] == parse(inputs[n - 1]).value
    {
      value[index] := temp;
      index := index + 1;
    }
    ok, result := true, value[..];
    SplatFields(inputs, fieldCount, parse, result);
  }

  // ---------------------------------------------------------------- what the splat means

  /** Four fields from one token: all four get it. */
  lemma OneTokenFillsAll<V>(a: string, parse: string -> Option<V>)
    requires parse(a).Some?
    ensures var v := parse(a).value; Splat([a], 4, parse) == Some([v, v, v, v])
  {
    assert [a][..1] == [a];
    var v := parse(a).value;
    SplatFields([a], 4, parse, [v, v, v, v]);
  }

  /** Four fields from two tokens: (a, b, a, b). */
  lemma TwoTokensAlternate<V>(a: string, b: string, parse: string -> Option<V>)
    requires parse(a).Some? && parse(b).Some?
    ensures Splat([a, b], 4, parse) == Some([parse(a).value, parse(b).value, parse(a).value, parse(b).value])
  {
    assert [a, b][..2] == [a, b];
    SplatFields([a, b], 4, parse, [parse(a).value, parse(b).value, parse(a).value, parse(b).value]);
  }

  /** Four fields from three tokens: (a, b, b, c), not the CSS (a, b, c, b). */
  lemma ThreeTokensRepeatSecond<V>(a: string, b: string, c: string, parse: string -> Option<V>)
    requires parse(a).Some? && parse(b).Some? && parse(c).Some?
    ensures Splat([a, b, c], 4, parse) == Some([parse(a).value, parse(b).value, parse(b).value, parse(c).value])
  {
    assert [a, b, c][..3] == [a, b, c];
    SplatFields([a, b, c], 4, parse, [parse(a).value, parse(b).value, parse(b).value, parse(c).value]);
  }

  /** Four fields cannot take more than four tokens. */
  lemma TooManyTokens<V>(tokens: seq<string>, parse: string -> Option<V>)
    requires |tokens| > 4
    ensures Splat(tokens, 4, parse).None?
  {
  }

  /** A token that is read and does not parse fails the whole value. */
  lemma BadTokenFails<V>(tokens: seq<string>, fieldCount: nat, parse: string -> Option<V>, k: nat)
    requires |tokens| >= 1 && k < Used(fieldCount, |tokens|) && parse(tokens[k]).None?
    ensures Splat(tokens, fieldCount, parse).None?
  {
    if !(fieldCount == 4 && |tokens| > 4) {
      assert tokens[..Used(fieldCount, |tokens|)][k] == tokens[k];
    }
  }

  /** Outside the 4-field shorthand, tokens past the fields are never read. */
  lemma ExtraTokensIgnored<V>(tokens: seq<string>, more: seq<string>, fieldCount: nat, parse: string -> Option<V>)
    requires fieldCount != 4 && 1 <= fieldCount <= |tokens|
    ensures Splat(tokens + more, fieldCount, parse) == Splat(tokens, fieldCount, parse)
  {
    var all := tokens + more;
    assert all[..fieldCount] == tokens[..fieldCount];
    assert Used(fieldCount, |all|) == fieldCount == Used(fieldCount, |tokens|);
    if AllParse(tokens[..fieldCount], parse) {
      var r := Splat(tokens, fieldCount, parse).value;
      forall i | 0 <= i < fieldCount
        ensures r[i] == parse(all[SourceToken(fieldCount, |all|, i)]).value
      {
        assert SourceToken(fieldCount, |all|, i) == i == SourceToken(fieldCount, |tokens|, i);
      }
      SplatFields(all, fieldCount, parse, r);
    }
  }

  /** With fewer tokens than fields, the fields past the tokens repeat the last token. */
  lemma ShortTokensRepeatLast<V>(tokens: seq<string>, fieldCount: nat, parse: string -> Option<V>, i: nat)
    requires 1 <= |tokens| < fieldCount && fieldCount != 4 && |tokens| <= i < fieldCount
    requires Splat(tokens, fieldCount, parse).Some?
    ensures Splat(tokens, fieldCount, parse).value[i] == parse(tokens[|tokens| - 1]).value
  {
    assert SourceToken(fieldCount, |tokens|, i) == |tokens| - 1;
  }
}
