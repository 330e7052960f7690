/**
 * UIQuery: a selector string such as "Box#main.wide > Text" turned into
 * tokens, the tokens into query nodes, and the nodes into one packed
 * buffer that an enumerator walks node by node.
 *
 * The seven operator symbols are those of the combinators and simple
 * selectors of the W3C Selectors Level 3 recommendation (section 8 for
 * ' ', '>', '+' and '~'), although the code names '~' "Ancestor".
 */
module Query {
  import opened Bytes

  // ---------------------------------------------------------------- token types

  /** TokenOperationType; Code gives each its byte. */
  datatype TokenOperationType = NoOperation | Content | NodeName | NodeElementName | NodeClassName | NodePseudoClassName
    | Descendant | DirectDescendant | Sequential | Ancestor

  function Code(t: TokenOperationType): byte
  {
    match t
    case NoOperation => 0
    case Content => 0x04
    case NodeName => 0x01
    case NodeElementName => 0x05
    case NodeClassName => 0x09
    case NodePseudoClassName => 0x0D
    case Descendant => 0x03
    case DirectDescendant => 0x07
    case Sequential => 0x0B
    case Ancestor => 0x0F
  }

  /** ConsumesNode: bit 1 of the code (the code AND 2 is not 0). */
  predicate ConsumesNode(t: TokenOperationType)
  {
    (Code(t) as int / 2) % 2 == 1
  }

  /** IsOperation on a token type: bit 0 of the code (the code AND 1 is not 0). */
  predicate IsOperationType(t: TokenOperationType)
  {
    Code(t) as int % 2 == 1
  }

  /** The four combinators. */
  predicate IsCombinator(t: TokenOperationType)
  {
    t.Descendant? || t.DirectDescendant? || t.Sequential? || t.Ancestor?
  }

  /**
   * The combinators both consume a node and are operations; the name, class
   * and pseudo-class operators (and the element-name state) are operations
   * that consume nothing; Content and None are neither.
   */
  lemma TypeBits(t: TokenOperationType)
    ensures ConsumesNode(t) <==> IsCombinator(t)
    ensures IsOperationType(t) <==> !(t.Content? || t.NoOperation?)
  {
  }

  // ---------------------------------------------------------------- operator symbols

  /** TokenOperation: a symbol and the token type it starts. */
  datatype TokenOperation = TokenOperation(symbol: byte, operationType: TokenOperationType)

  const Space: byte := 0x20
  const Greater: byte := 0x3E
  const Plus: byte := 0x2B
  const Tilde: byte := 0x7E
  const Hash: byte := 0x23
  const Dot: byte := 0x2E
  const Colon: byte := 0x3A

  /** The operations table, in the order IsOperation searches it. */
  const Operations: seq<TokenOperation> := [
    TokenOperation(Space, Descendant), TokenOperation(Greater, DirectDescendant), TokenOperation(Plus, Sequential),
    TokenOperation(Tilde, Ancestor), TokenOperation(Hash, NodeName), TokenOperation(Dot, NodeClassName),
    TokenOperation(Colon, NodePseudoClassName)]

  /** The type of the first entry of table from i on whose symbol is symbol. */
  function FirstOperation(table: seq<TokenOperation>, symbol: byte, i: nat): Option<TokenOperationType>
    decreases |table| - i
  {
    if i >= |table| then None
    else if table[i].symbol == symbol then Some(table[i].operationType)
    else FirstOperation(table, symbol, i + 1)
  }

  /** What IsOperation finds for a byte. */
  function SymbolOperation(symbol: byte): Option<TokenOperationType>
  {
    FirstOperation(Operations, symbol, 0)
  }

  /**
   * IsOperation(byte): a search of the table, giving the type of the first
   * entry with the symbol, and None's default when there is none.
   */
  method IsOperation(symbol: byte) returns (found: bool, operationType: TokenOperationType)
    ensures found <==> SymbolOperation(symbol).Some?
    ensures found ==> operationType == SymbolOperation(symbol).value
    ensures !found ==> operationType == NoOperation
  {
    var i := 0;
    while i < |Operations|
      invariant 0 <= i <= |Operations|
      invariant FirstOperation(Operations, symbol, i) == SymbolOperation(symbol)
    {
      if Operations[i].symbol == symbol {
        return true, Operations[i].operationType;
      }
      i := i + 1;
    }
    return false, NoOperation;
  }

  /** A byte is an operator exactly when it is one of ' ' > + ~ # . :, each with its own type. */
  lemma OperatorSymbols(symbol: byte)
    ensures SymbolOperation(symbol) ==
      if symbol == Space then Some(Descendant)
      else if symbol == Greater then Some(DirectDescendant)
      else if symbol == Plus then Some(Sequential)
      else if symbol == Tilde then Some(Ancestor)
      else if symbol == Hash then Some(NodeName)
      else if symbol == Dot then Some(NodeClassName)
      else if symbol == Colon then Some(NodePseudoClassName)
      else None
  {
    assert FirstOperation(Operations, symbol, 7) == None;
    assert FirstOperation(Operations, symbol, 6) == if symbol == Colon then Some(NodePseudoClassName) else None;
    assert FirstOperation(Operations, symbol, 5) == if symbol == Dot then Some(NodeClassName) else FirstOperation(Operations, symbol, 6);
    assert FirstOperation(Operations, symbol, 4) == if symbol == Hash then Some(NodeName) else FirstOperation(Operations, symbol, 5);
    assert FirstOperation(Operations, symbol, 3) == if symbol == Tilde then Some(Ancestor) else FirstOperation(Operations, symbol, 4);
    assert FirstOperation(Operations, symbol, 2) == if symbol == Plus then Some(Sequential) else FirstOperation(Operations, symbol, 3);
    assert FirstOperation(Operations, symbol, 1) == if symbol == Greater then Some(DirectDescendant) else FirstOperation(Operations, symbol, 2);
  }

  /** Every operator symbol's type is an operation, and only the four combinators consume a node. */
  lemma OperatorTypes(symbol: byte)
    requires SymbolOperation(symbol).Some?
    ensures IsOperationType(SymbolOperation(symbol).value)
    ensures ConsumesNode(SymbolOperation(symbol).value) <==> (symbol == Space || symbol == Greater || symbol == Plus || symbol == Tilde)
  {
    OperatorSymbols(symbol);
    TypeBits(SymbolOperation(symbol).value);
  }

  // ---------------------------------------------------------------- tokens

  /** Token: a run of the query's bytes and its type. */
  datatype Token = Token(offset: int, length: int, tokenType: TokenOperationType)

  /** The first operator at or after i, or i itself once i is past the input. */
  function NextOperator(data: seq<byte>, i: nat): (j: nat)
    ensures j >= i
    ensures i <= |data| ==> j <= |data|
    ensures j < |data| ==> SymbolOperation(data[j]).Some?
    ensures forall p :: i <= p < j && p < |data| ==> SymbolOperation(data[p]).None?
    decreases |data| - i
  {
    if i >= |data| then i
    else if SymbolOperation(data[i]).Some? then i
    else NextOperator(data, i + 1)
  }

  /** The Content token for the bytes between last and index, when there are any. */
  function Pending(last: int, index: int): seq<Token>
  {
    if index - last > 0 then [Token(last, index - last, Content)] else []
  }

  /**
   * The tokens Tokenize produces from a Content run starting at `last` whose
   * bytes are examined for operators from `from` on. After an operator the
   * next run starts on the byte after it but is examined only from the byte
   * after that.
   */
  function Tokens(data: seq<byte>, last: nat, from: nat): seq<Token>
    requires last <= from
    decreases |data| + 2 - from
  {
    var j := NextOperator(data, from);
    if j < |data| then Pending(last, j) + [Token(j, 1, SymbolOperation(data[j]).value)] + Tokens(data, j + 1, j + 2)
    else Pending(last, j)
  }

  /** A byte that is not an operator only moves the testing on. */
  lemma TokensSkip(data: seq<byte>, last: nat, index: nat)
    requires last <= index < |data| && SymbolOperation(data[index]).None?
    ensures Tokens(data, last, index) == Tokens(data, last, index + 1)
  {
  }

  /** At an operator the pending run ends, the operator is a token, and a new run starts after it. */
  lemma TokensAtOperator(data: seq<byte>, last: nat, index: nat)
    requires last <= index < |data| && SymbolOperation(data[index]).Some?
    ensures Tokens(data, last, index)
      == Pending(last, index) + [Token(index, 1, SymbolOperation(data[index]).value)] + Tokens(data, index + 1, index + 2)
  {
  }

  /** Past the input only the pending run is left. */
  lemma TokensAtEnd(data: seq<byte>, last: nat, index: nat)
    requires last <= index && |data| <= index
    ensures Tokens(data, last, index) == Pending(last, index)
  {
  }

  /**
   * Tokenize: the while loop over index with lastIndex marking the start of
   * the current Content run.
   */
  method Tokenize(data: seq<byte>) returns (tokens: seq<Token>)
    ensures tokens == Tokens(data, 0, 0)
  {
    tokens := [];
    var index := 0;
    var lastIndex := 0;
    ghost var all := Tokens(data, 0, 0);
    while index < |data|
      invariant lastIndex <= index <= |data| + 1
      invariant tokens + Tokens(data, lastIndex, index) == all
      decreases |data| + 1 - index
    {
      var isOperation, operationType := IsOperation(data[index]);
      if isOperation {
        ghost var before := tokens;
        tokens := AddPending(tokens, lastIndex, index);
        tokens := tokens + [Token(index, 1, operationType)];
        OperatorStep(data, before, tokens, lastIndex, index);
        index := index + 1;
        lastIndex := index;
      } else {
        SkipStep(data, tokens, lastIndex, index);
      }
      index := index + 1;
    }
    TokensAtEnd(data, lastIndex, index);
    tokens := AddPending(tokens, lastIndex, index);
  }

  /** Adds the Content token for [lastIndex, index) when that run is not empty. */
  method AddPending(tokens: seq<Token>, lastIndex: int, index: int) returns (r: seq<Token>)
    ensures r == tokens + Pending(lastIndex, index)
    ensures |r| == |tokens| + (if index > lastIndex then 1 else 0)
  {
    r := tokens;
    if index - lastIndex > 0 {
      r := r + [Token(lastIndex, index - lastIndex, Content)];
    }
  }

  /** Tokenize's other branch keeps its loop invariant. */
  lemma SkipStep(data: seq<byte>, tokens: seq<Token>, last: nat, index: nat)
    requires last <= index < |data| && SymbolOperation(data[index]).None?
    ensures tokens + Tokens(data, last, index) == tokens + Tokens(data, last, index + 1)
  {
    TokensSkip(data, last, index);
  }

  /** Tokenize's operator branch keeps its loop invariant. */
  lemma OperatorStep(data: seq<byte>, before: seq<Token>, after: seq<Token>, last: nat, index: nat)
    requires last <= index < |data| && SymbolOperation(data[index]).Some?
    requires after == before + Pending(last, index) + [Token(index, 1, SymbolOperation(data[index]).value)]
    ensures before + Tokens(data, last, index) == after + Tokens(data, index + 1, index + 2)
  {
    TokensAtOperator(data, last, index);
  }

  // ---------------------------------------------------------------- what Tokenize yields

  /** Where token k should start: at `start` for the first, right after token k - 1 for the others. */
  function Follows(ts: seq<Token>, k: nat, start: int): int
    requires k <= |ts|
  {
    if k == 0 then start else ts[k - 1].offset + ts[k - 1].length
  }

  /** A run that starts after an operator always yields a Content token first. */
  lemma RunStartsWithContent(data: seq<byte>, j: nat)
    requires j < |data|
    ensures |Tokens(data, j + 1, j + 2)| > 0
    ensures Tokens(data, j + 1, j + 2)[0] == Token(j + 1, NextOperator(data, j + 2) - (j + 1), Content)
  {
  }

  /**
   * Token k of a run: tokens follow one another without gaps and have
   * positive lengths; every token ends by |data| + 1, and the last one ends
   * at |data| or |data| + 1.
   */
  lemma {:induction false} TokenChain(data: seq<byte>, last: nat, from: nat, k: nat)
    requires last <= from <= last + 1 && from <= |data| + 1
    requires k < |Tokens(data, last, from)|
    ensures var ts := Tokens(data, last, from);
      && ts[k].length > 0 && ts[k].offset == Follows(ts, k, last) && ts[k].offset >= last
      && ts[k].offset + ts[k].length <= |data| + 1
      && (k + 1 == |ts| ==> ts[k].offset + ts[k].length >= |data|)
    decreases |data| + 2 - from
  {
    var j := NextOperator(data, from);
    var p := Pending(last, j);
    if j < |data| {
      var op := Token(j, 1, SymbolOperation(data[j]).value);
      var r := Tokens(data, j + 1, j + 2);
      var ts := Tokens(data, last, from);
      assert ts == p + [op] + r;
      RunStartsWithContent(data, j);
      if k < |p| {
        assert ts[k] == Token(last, j - last, Content);
      } else if k == |p| {
        assert ts[k] == op;
      } else {
        var k' := k - |p| - 1;
        TokenChain(data, j + 1, j + 2, k');
        assert ts[k] == r[k'];
        if k' == 0 {
          assert ts[k - 1] == op;
        } else {
          assert ts[k - 1] == r[k' - 1];
        }
      }
    }
  }

  /**
   * The kind of token k of a run: an operator token is one in-bounds byte
   * of the type IsOperation gives it and is always followed by a Content
   * token; two Content tokens are never adjacent.
   */
  lemma {:induction false} TokenKinds(data: seq<byte>, last: nat, from: nat, k: nat)
    requires last <= from <= last + 1 && from <= |data| + 1
    requires k < |Tokens(data, last, from)|
    ensures var ts := Tokens(data, last, from);
      && (ts[k].tokenType != Content ==>
            && ts[k].length == 1 && 0 <= ts[k].offset < |data|
            && SymbolOperation(data[ts[k].offset]) == Some(ts[k].tokenType)
            && k + 1 < |ts| && ts[k + 1].tokenType == Content)
      && (ts[k].tokenType == Content && k > 0 ==> ts[k - 1].tokenType != Content)
    decreases |data| + 2 - from
  {
    var j := NextOperator(data, from);
    var p := Pending(last, j);
    if j < |data| {
      var op := Token(j, 1, SymbolOperation(data[j]).value);
      var r := Tokens(data, j + 1, j + 2);
      var ts := Tokens(data, last, from);
      assert ts == p + [op] + r;
      OperatorSymbols(data[j]);
      RunStartsWithContent(data, j);
      if k < |p| {
        assert ts[k].tokenType == Content && ts[k + 1] == op;
      } else if k == |p| {
        assert ts[k] == op && ts[k + 1] == r[0];
      } else {
        var k' := k - |p| - 1;
        TokenKinds(data, j + 1, j + 2, k');
        assert ts[k] == r[k'];
        if k' == 0 {
          assert ts[k - 1] == op;
        } else {
          assert ts[k - 1] == r[k' - 1];
        }
        assert k + 1 < |ts| ==> ts[k + 1] == r[k' + 1];
      }
    }
  }

  /**
   * The bytes of a Content token were examined and are not operators, except
   * that the first byte of a run that follows an operator was never examined.
   */
  lemma {:induction false} ContentExamined(data: seq<byte>, last: nat, from: nat, k: nat, p: nat)
    requires last <= from <= last + 1 && from <= |data| + 1
    requires k < |Tokens(data, last, from)|
    requires Tokens(data, last, from)[k].tokenType == Content
    requires Tokens(data, last, from)[k].offset <= p < Tokens(data, last, from)[k].offset + Tokens(data, last, from)[k].length
    requires p < |data| && (k == 0 ==> from <= p) && (k > 0 ==> Tokens(data, last, from)[k].offset < p)
    ensures SymbolOperation(data[p]).None?
    decreases |data| + 2 - from
  {
    var j := NextOperator(data, from);
    var pending := Pending(last, j);
    if j < |data| {
      var op := Token(j, 1, SymbolOperation(data[j]).value);
      var r := Tokens(data, j + 1, j + 2);
      var ts := Tokens(data, last, from);
      assert ts == pending + [op] + r;
      if k >= |pending| + 1 {
        var k' := k - |pending| - 1;
        assert ts[k] == r[k'];
        if k' > 0 {
          TokenChain(data, j + 1, j + 2, k');
          assert ts[k - 1] == r[k' - 1];
        }
        ContentExamined(data, j + 1, j + 2, k', p);
      } else {
        OperatorSymbols(data[j]);
        assert k < |pending| && ts[k] == Token(last, j - last, Content);
      }
    }
  }

  /**
   * Tokenize's own guarantees, for the whole query: the tokens tile the
   * bytes from 0 on in order, each examined operator byte is a one-byte
   * token of its type, every other examined byte lies in a Content token,
   * and the run after an operator begins with the unexamined byte that
   * follows it.
   */
  lemma Tokenized(data: seq<byte>, k: nat)
    requires k < |Tokens(data, 0, 0)|
    ensures var ts := Tokens(data, 0, 0);
      && ts[k].length > 0 && ts[k].offset == Follows(ts, k, 0) && ts[k].offset >= 0
      && ts[k].offset + ts[k].length <= |data| + 1
      && (k + 1 == |ts| ==> |data| <= ts[k].offset + ts[k].length && ts[k].tokenType == Content)
      && (ts[k].tokenType != Content ==>
            && ts[k].length == 1 && ts[k].offset < |data|
            && SymbolOperation(data[ts[k].offset]) == Some(ts[k].tokenType)
            && ts[k + 1].tokenType == Content && ts[k + 1].offset == ts[k].offset + 1)
      && (ts[k].tokenType == Content ==>
            (k > 0 ==> ts[k - 1].tokenType != Content)
            && forall p :: ts[k].offset < p < ts[k].offset + ts[k].length && p < |data| ==> SymbolOperation(data[p]).None?)
      && (ts[k].tokenType == Content && k == 0 && |data| > 0 ==> SymbolOperation(data[0]).None?)
  {
    var ts := Tokens(data, 0, 0);
    TokenChain(data, 0, 0, k);
    TokenKinds(data, 0, 0, k);
    if ts[k].tokenType != Content {
      TokenChain(data, 0, 0, k + 1);
    }
    if ts[k].tokenType == Content {
      forall p | ts[k].offset < p < ts[k].offset + ts[k].length && p < |data|
        ensures SymbolOperation(data[p]).None?
      {
        ContentExamined(data, 0, 0, k, p);
      }
      if k == 0 && |data| > 0 {
        ContentExamined(data, 0, 0, 0, 0);
      }
    }
  }

  /** The query is empty exactly when there are no tokens. */
  lemma NoTokens(data: seq<byte>)
    ensures Tokens(data, 0, 0) == [] <==> data == []
  {
    if data != [] {
      var j := NextOperator(data, 0);
      if j == 0 {
        assert Tokens(data, 0, 0)[0].offset == 0;
      } else {
        assert Tokens(data, 0, 0)[0] == Token(0, j, Content);
      }
    }
  }

  /** "a>"': the trailing operator leaves a Content token one byte long that lies past the input. */
  lemma TrailingOperator()
    ensures Tokens([0x61, Greater], 0, 0) == [Token(0, 1, Content), Token(1, 1, DirectDescendant), Token(2, 1, Content)]
  {
    var data: seq<byte> := [0x61, Greater];
    OperatorSymbols(0x61);
    OperatorSymbols(Greater);
    assert NextOperator(data, 0) == 1;
    assert NextOperator(data, 3) == 3;
  }

  /** "a>>b": the second '>' follows an operator, is never examined, and starts the Content token ">b". */
  lemma SkippedOperator()
    ensures Tokens([0x61, Greater, Greater, 0x62], 0, 0)
      == [Token(0, 1, Content), Token(1, 1, DirectDescendant), Token(2, 2, Content)]
  {
    var data: seq<byte> := [0x61, Greater, Greater, 0x62];
    OperatorSymbols(0x61);
    OperatorSymbols(Greater);
    OperatorSymbols(0x62);
    assert NextOperator(data, 0) == 1;
    assert NextOperator(data, 3) == 4;
  }

  /** "a:x:y>b": an element name, two pseudo-classes and a child. */
  lemma TokensOfPseudoClasses()
    ensures Tokens([0x61, Colon, 0x78, Colon, 0x79, Greater, 0x62], 0, 0)
      == [Token(0, 1, Content), Token(1, 1, NodePseudoClassName), Token(2, 1, Content), Token(3, 1, NodePseudoClassName),
          Token(4, 1, Content), Token(5, 1, DirectDescendant), Token(6, 1, Content)]
  {
    var data: seq<byte> := [0x61, Colon, 0x78, Colon, 0x79, Greater, 0x62];
    OperatorSymbols(0x61);
    OperatorSymbols(Colon);
    OperatorSymbols(0x78);
    OperatorSymbols(0x79);
    OperatorSymbols(Greater);
    OperatorSymbols(0x62);
    assert NextOperator(data, 7) == 7;
    assert Tokens(data, 6, 7) == [Token(6, 1, Content)];
    assert NextOperator(data, 5) == 5;
    assert Tokens(data, 4, 5) == [Token(4, 1, Content), Token(5, 1, DirectDescendant), Token(6, 1, Content)];
    assert NextOperator(data, 3) == 3;
    assert Tokens(data, 2, 3) == [Token(2, 1, Content), Token(3, 1, NodePseudoClassName)] + Tokens(data, 4, 5);
    assert NextOperator(data, 0) == 1;
  }
}
