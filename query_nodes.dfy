/**
 * CreateQueryData's state machine: the tokens of a query are read one by
 * one into query nodes, with the class and pseudo-class tokens of each
 * node kept in two multimaps keyed by the node's index.
 */
module QueryNodes {
  import opened Bytes
  import opened Query

  /** QueryNode: the element-name and name tokens of a node, its index and its operation. */
  datatype QueryNode = QueryNode(elementNameToken: Token, nameToken: Token, nodeIndex: int, operation: TokenOperationType)

  /** default(Token) and default(QueryNode): all fields zero. */
  const NoToken := Token(0, 0, NoOperation)
  const NoNode := QueryNode(NoToken, NoToken, 0, NoOperation)

  /**
   * The values a NativeMultiHashMap holds for a key, in the order
   * TryGetFirstValue/TryGetNextValue hand them back: Add links each new
   * value in front of the older ones, so the newest comes first.
   */
  function Values(m: map<int, seq<Token>>, key: int): seq<Token>
  {
    if key in m then m[key] else []
  }

  function Add(m: map<int, seq<Token>>, key: int, t: Token): (r: map<int, seq<Token>>)
    ensures Values(r, key) == [t] + Values(m, key)
    ensures forall k :: k != key ==> Values(r, k) == Values(m, k)
  {
    m[key := [t] + Values(m, key)]
  }

  /** The locals of CreateQueryData's foreach loop, with the two multimaps. */
  datatype Builder = Builder(
    nodes: seq<QueryNode>, current: QueryNode, currentOperation: TokenOperationType,
    consumeNode: bool, nodeIndex: int, classes: map<int, seq<Token>>, pseudoClasses: map<int, seq<Token>>)

  /** The state before the first token. */
  const Start := Builder([], NoNode, NodeElementName, false, 1, map[], map[])

  /**
   * The first half of the loop body: a Content token lands where the
   * current operation says (after a combinator it overwrites the node's
   * operation with Content itself); an operation token becomes the current
   * operation.
   */
  function Place(b: Builder, token: Token): (r: Builder)
    ensures r.nodes == b.nodes && r.consumeNode == b.consumeNode && r.nodeIndex == b.nodeIndex
    ensures r.current.nodeIndex == b.current.nodeIndex
    ensures IsOperationType(b.currentOperation) ==> IsOperationType(r.currentOperation)
    ensures forall k :: k in r.classes ==> k in b.classes || k == b.current.nodeIndex
    ensures forall k :: k in r.pseudoClasses ==> k in b.pseudoClasses || k == b.current.nodeIndex
  {
    if token.tokenType == Content then
      match b.currentOperation
      case NodeName => b.(current := b.current.(nameToken := token))
      case NodeElementName => b.(current := b.current.(elementNameToken := token))
      case NodeClassName => b.(classes := Add(b.classes, b.current.nodeIndex, token))
      case NodePseudoClassName => b.(pseudoClasses := Add(b.pseudoClasses, b.current.nodeIndex, token))
      case Descendant => b.(current := b.current.(operation := token.tokenType))
      case DirectDescendant => b.(current := b.current.(operation := token.tokenType))
      case Sequential => b.(current := b.current.(operation := token.tokenType))
      case Ancestor => b.(current := b.current.(operation := token.tokenType))
      case _ => b
    else if IsOperationType(token.tokenType) then b.(currentOperation := token.tokenType)
    else b
  }

  /**
   * One pass of the loop body: Place, then, when the previous token
   * consumed a node, the current node is appended and a fresh one begun.
   */
  function Step(b: Builder, token: Token): Builder
  {
    var b1 := Place(b, token);
    var b2 :=
      if b1.consumeNode then
        b1.(nodes := b1.nodes + [b1.current], currentOperation := NodeElementName,
            current := NoNode.(nodeIndex := b1.nodeIndex), nodeIndex := b1.nodeIndex + 1)
      else b1;
    b2.(consumeNode := ConsumesNode(token.tokenType))
  }

  /** The state after the first |tokens| passes. */
  function Run(tokens: seq<Token>): Builder
  {
    if tokens == [] then Start else Step(Run(tokens[..|tokens| - 1]), tokens[|tokens| - 1])
  }

  /** The number of tokens that consume a node. */
  function Consuming(tokens: seq<Token>): nat
  {
    if tokens == [] then 0
    else Consuming(tokens[..|tokens| - 1]) + (if ConsumesNode(tokens[|tokens| - 1].tokenType) then 1 else 0)
  }

  /** Whether the last token consumes a node (it has no token after it to trigger the append). */
  predicate LastConsumes(tokens: seq<Token>)
  {
    tokens != [] && ConsumesNode(tokens[|tokens| - 1].tokenType)
  }

  /**
   * The bookkeeping CreateQueryData keeps, for any token sequence: node i
   * has index i, the pending node has the next index and nodeIndex the one
   * after; consumeNode reflects the last token; and a node is appended for
   * every consuming token except a last one.
   */
  lemma {:induction false} RunBookkeeping(tokens: seq<Token>)
    ensures var b := Run(tokens);
      && (forall i :: 0 <= i < |b.nodes| ==> b.nodes[i].nodeIndex == i)
      && b.current.nodeIndex == |b.nodes| && b.nodeIndex == |b.nodes| + 1
      && b.consumeNode == LastConsumes(tokens)
      && |b.nodes| == Consuming(tokens) - (if LastConsumes(tokens) then 1 else 0)
  {
    if tokens != [] {
      var prefix := tokens[..|tokens| - 1];
      RunBookkeeping(prefix);
      if prefix != [] {
        assert prefix[|prefix| - 1] == tokens[|tokens| - 2];
      }
    }
  }

  /**
   * The current operation is always an operation, and every class or
   * pseudo-class key is the index of an appended node or of the pending one.
   */
  lemma {:induction false} RunKeys(tokens: seq<Token>)
    ensures var b := Run(tokens);
      && IsOperationType(b.currentOperation)
      && (forall k :: k in b.classes ==> 0 <= k <= |b.nodes|)
      && (forall k :: k in b.pseudoClasses ==> 0 <= k <= |b.nodes|)
  {
    if tokens != [] {
      var prefix := tokens[..|tokens| - 1];
      RunKeys(prefix);
      RunBookkeeping(prefix);
    }
  }

  /** Every operator token is followed by a Content token, as Tokenize guarantees. */
  predicate OperatorsFollowedByContent(tokens: seq<Token>)
  {
    forall k :: 0 <= k < |tokens| - 1 && tokens[k].tokenType != Content ==> tokens[k + 1].tokenType == Content
  }

  /**
   * When operators are followed by Content, the Content token after a
   * combinator always finds the combinator as the current operation, so
   * every appended node carries the operation Content (never a combinator)
   * and the pending node carries None or Content.
   */
  lemma {:induction false} RunOperations(tokens: seq<Token>)
    requires OperatorsFollowedByContent(tokens)
    ensures var b := Run(tokens);
      && (forall i :: 0 <= i < |b.nodes| ==> b.nodes[i].operation == Content)
      && (b.current.operation == NoOperation || b.current.operation == Content)
      && (tokens != [] && IsCombinator(tokens[|tokens| - 1].tokenType) ==> b.currentOperation == tokens[|tokens| - 1].tokenType)
  {
    if tokens != [] {
      var prefix := tokens[..|tokens| - 1];
      var t := tokens[|tokens| - 1];
      assert OperatorsFollowedByContent(prefix) by {
        forall k | 0 <= k < |prefix| - 1 && prefix[k].tokenType != Content
          ensures prefix[k + 1].tokenType == Content
        {
          assert prefix[k] == tokens[k] && prefix[k + 1] == tokens[k + 1];
        }
      }
      RunOperations(prefix);
      RunBookkeeping(prefix);
      TypeBits(t.tokenType);
      if prefix != [] {
        var u := prefix[|prefix| - 1];
        assert u == tokens[|tokens| - 2];
        TypeBits(u.tokenType);
        if ConsumesNode(u.tokenType) {
          assert t.tokenType == Content;
          var before := prefix[..|prefix| - 1];
          assert !LastConsumes(before) by {
            if before != [] {
              assert before[|before| - 1] == tokens[|tokens| - 3];
              TypeBits(before[|before| - 1].tokenType);
            }
          }
        }
      }
    }
  }

  /**
   * CreateQueryData's foreach loop. The two NativeMultiHashMaps become maps
   * from a node index to its tokens, newest first.
   */
  method BuildNodes(tokens: seq<Token>) returns (nodes: seq<QueryNode>, classes: map<int, seq<Token>>, pseudoClasses: map<int, seq<Token>>)
    ensures nodes == Run(tokens).nodes
    ensures classes == Run(tokens).classes && pseudoClasses == Run(tokens).pseudoClasses
  {
    nodes := [];
    classes := map[];
    pseudoClasses := map[];
    var current := NoNode;
    var currentOperation := NodeElementName;
    var consumeNode := false;
    var nodeIndex := 1;
    for i := 0 to |tokens|
      invariant Builder(nodes, current, currentOperation, consumeNode, nodeIndex, classes, pseudoClasses) == Run(tokens[..i])
    {
      var token := tokens[i];
      ghost var b := Run(tokens[..i]);
      if token.tokenType == Content {
        match currentOperation {
          case NodeName => current := current.(nameToken := token);
          case NodeElementName => current := current.(elementNameToken := token);
          case NodeClassName => classes := Add(classes, current.nodeIndex, token);
          case NodePseudoClassName => pseudoClasses := Add(pseudoClasses, current.nodeIndex, token);
          case Descendant => current := current.(operation := token.tokenType);
          case DirectDescendant => current := current.(operation := token.tokenType);
          case Sequential => current := current.(operation := token.tokenType);
          case Ancestor => current := current.(operation := token.tokenType);
          case _ =>
        }
      } else if IsOperationType(token.tokenType) {
        currentOperation := token.tokenType;
      }
      if consumeNode {
        nodes := nodes + [current];
        currentOperation := NodeElementName;
        current := NoNode.(nodeIndex := nodeIndex);
        nodeIndex := nodeIndex + 1;
      }
      consumeNode := ConsumesNode(token.tokenType);
      assert tokens[..i + 1][..i] == tokens[..i];
    }
    assert tokens[..|tokens|] == tokens;
  }

  /**
   * For a whole query: the nodes are numbered 0, 1, ... in order, one is
   * appended per combinator token, and each carries the operation Content.
   * The compound selector after the last combinator is left pending and
   * never appended.
   */
  lemma QueryNodeCount(data: seq<byte>)
    ensures var b := Run(Tokens(data, 0, 0));
      && |b.nodes| == Consuming(Tokens(data, 0, 0))
      && (forall i :: 0 <= i < |b.nodes| ==> b.nodes[i].nodeIndex == i && b.nodes[i].operation == Content)
      && b.current.nodeIndex == |b.nodes|
  {
    var ts := Tokens(data, 0, 0);
    RunBookkeeping(ts);
    assert OperatorsFollowedByContent(ts) by {
      forall k | 0 <= k < |ts| - 1 && ts[k].tokenType != Content
        ensures ts[k + 1].tokenType == Content
      {
        Tokenized(data, k);
      }
    }
    RunOperations(ts);
    if ts != [] {
      Tokenized(data, |ts| - 1);
      TypeBits(ts[|ts| - 1].tokenType);
    }
  }

  /**
   * "a>b" gives a single node, for "a": the Content token "b" after the
   * combinator only sets that node's operation to Content, and the node
   * begun after it is never appended.
   */
  lemma LastNodeDropped()
    ensures var b := Run([Token(0, 1, Content), Token(1, 1, DirectDescendant), Token(2, 1, Content)]);
      && b.nodes == [QueryNode(Token(0, 1, Content), NoToken, 0, Content)]
      && b.current == QueryNode(NoToken, NoToken, 1, NoOperation)
  {
    var ts := [Token(0, 1, Content), Token(1, 1, DirectDescendant), Token(2, 1, Content)];
    assert ts[..2] == [Token(0, 1, Content), Token(1, 1, DirectDescendant)];
    assert ts[..2][..1] == [Token(0, 1, Content)];
    assert ts[..2][..1][..0] == [];
    TypeBits(DirectDescendant);
    TypeBits(Content);
    var a := NoNode.(elementNameToken := Token(0, 1, Content));
    assert Run(ts[..2][..1]) == Builder([], a, NodeElementName, false, 1, map[], map[]);
    assert Run(ts[..2]) == Builder([], a, DirectDescendant, true, 1, map[], map[]);
  }

  /** The tokens of "a>b", which LastNodeDropped starts from. */
  lemma TokensOfChild()
    ensures Tokens([0x61, Greater, 0x62], 0, 0) == [Token(0, 1, Content), Token(1, 1, DirectDescendant), Token(2, 1, Content)]
  {
    var data: seq<byte> := [0x61, Greater, 0x62];
    OperatorSymbols(0x61);
    OperatorSymbols(Greater);
    OperatorSymbols(0x62);
    assert NextOperator(data, 0) == 1;
    assert NextOperator(data, 3) == 3;
  }

  /** The tokens of "a:x:y" put the two pseudo-classes under node 0. */
  lemma ReadsPseudoClasses()
    ensures Run([Token(0, 1, Content), Token(1, 1, NodePseudoClassName), Token(2, 1, Content), Token(3, 1, NodePseudoClassName),
                 Token(4, 1, Content)])
      == Builder([], NoNode.(elementNameToken := Token(0, 1, Content)), NodePseudoClassName, false, 1, map[],
                 Add(Add(map[], 0, Token(2, 1, Content)), 0, Token(4, 1, Content)))
  {
    var ts := [Token(0, 1, Content), Token(1, 1, NodePseudoClassName), Token(2, 1, Content), Token(3, 1, NodePseudoClassName),
               Token(4, 1, Content)];
    TypeBits(Content);
    TypeBits(NodePseudoClassName);
    var a := NoNode.(elementNameToken := Token(0, 1, Content));
    assert ts[..1][..0] == [];
    assert Run(ts[..1]) == Builder([], a, NodeElementName, false, 1, map[], map[]);
    assert ts[..2][..1] == ts[..1];
    assert Run(ts[..2]) == Builder([], a, NodePseudoClassName, false, 1, map[], map[]);
    assert ts[..3][..2] == ts[..2];
    var p1 := Add(map[], 0, Token(2, 1, Content));
    assert Run(ts[..3]) == Builder([], a, NodePseudoClassName, false, 1, map[], p1);
    assert ts[..4][..3] == ts[..3];
    assert Run(ts[..4]) == Builder([], a, NodePseudoClassName, false, 1, map[], p1);
    assert ts[..5][..4] == ts[..4];
  }

  /**
   * Over the tokens of "a:x:y>b" the one node kept is "a", and its two
   * pseudo-classes come back newest first.
   */
  lemma PseudoClassesOfQuery()
    ensures var b := Run([Token(0, 1, Content), Token(1, 1, NodePseudoClassName), Token(2, 1, Content), Token(3, 1, NodePseudoClassName),
                          Token(4, 1, Content), Token(5, 1, DirectDescendant), Token(6, 1, Content)]);
      && b.nodes == [QueryNode(Token(0, 1, Content), NoToken, 0, Content)]
      && Values(b.pseudoClasses, 0) == [Token(4, 1, Content), Token(2, 1, Content)]
      && Values(b.classes, 0) == []
  {
    var ts := [Token(0, 1, Content), Token(1, 1, NodePseudoClassName), Token(2, 1, Content), Token(3, 1, NodePseudoClassName),
               Token(4, 1, Content), Token(5, 1, DirectDescendant), Token(6, 1, Content)];
    TypeBits(Content);
    TypeBits(DirectDescendant);
    var a := NoNode.(elementNameToken := Token(0, 1, Content));
    var p2 := Add(Add(map[], 0, Token(2, 1, Content)), 0, Token(4, 1, Content));
    ReadsPseudoClasses();
    assert ts[..5] == [Token(0, 1, Content), Token(1, 1, NodePseudoClassName), Token(2, 1, Content), Token(3, 1, NodePseudoClassName),
                       Token(4, 1, Content)];
    assert ts[..6][..5] == ts[..5];
    assert Run(ts[..6]) == Builder([], a, DirectDescendant, true, 1, map[], p2);
    assert ts[..7][..6] == ts[..6];
    assert ts == ts[..7];
  }
}
