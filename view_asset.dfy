/**
 * The accessors of an imported view asset (UIViewAsset): the node count, the
 * indexer, IndexOf, and the parent, child and children lookups of a node.
 * The node list may be null; a lookup then answers null, the node it finds,
 * or an exception (a null list or an index out of range).
 */
module ViewAccessors {
  import opened Bytes
  import opened ViewImporter
  import Strings

  /** What an accessor returns: null, a value, or an exception. */
  datatype Lookup<T> = Null | Found(value: T) | Thrown

  /** NodeCount: the number of nodes, 0 for a null list. */
  function NodeCount(nodes: Option<seq<Node>>): nat
  {
    if nodes.None? then 0 else |nodes.value|
  }

  /** The indexer: a null list or an index outside the list throws. */
  function Item(nodes: Option<seq<Node>>, i: int): Lookup<Node>
  {
    if nodes.None? || i < 0 || i >= |nodes.value| then Thrown else Found(nodes.value[i])
  }

  /** The position of the first element equal to `node`, or -1. */
  function Position(s: seq<Node>, node: Node): (r: int)
    ensures -1 <= r < |s|
    ensures r == -1 <==> node !in s
    ensures r >= 0 ==> s[r] == node && forall k :: 0 <= k < r ==> s[k] != node
  {
    if s == [] then -1
    else if s[0] == node then 0
    else
      var p := Position(s[1..], node);
      assert forall k :: 1 <= k < |s| ==> s[k] == s[1..][k - 1];
      if p == -1 then -1 else p + 1
  }

  /** IndexOf: a null list throws. */
  function IndexOf(nodes: Option<seq<Node>>, node: Node): Lookup<int>
  {
    if nodes.None? then Thrown else Found(Position(nodes.value, node))
  }

  /** GetParentNode: null for a negative parent index, otherwise the indexer at that index. */
  function GetParentNode(nodes: Option<seq<Node>>, node: Node): Lookup<Node>
  {
    if node.parentIndex < 0 then Null else Item(nodes, node.parentIndex)
  }

  /**
   * GetChildNode: null when the node has no children array or `child` is not
   * below its length; a negative `child` then throws on the array, and
   * otherwise the indexer is applied to the child's index.
   */
  function GetChildNode(nodes: Option<seq<Node>>, node: Node, child: int): Lookup<Node>
  {
    if node.childrenIndices.None? || |node.childrenIndices.value| <= child then Null
    else if child < 0 then Thrown
    else Item(nodes, node.childrenIndices.value[child])
  }

  /** The indexer mapped over a list of indices, in order; the first failing index throws. */
  function Select(nodes: Option<seq<Node>>, indices: seq<nat>): Lookup<seq<Node>>
  {
    if indices == [] then Found([])
    else match Item(nodes, indices[0])
      case Found(n) => (match Select(nodes, indices[1..]) case Found(rest) => Found([n] + rest) case _ => Thrown)
      case _ => Thrown
  }

  /** GetChildren: null without a children array, else its indices mapped through the list. */
  function GetChildren(nodes: Option<seq<Node>>, node: Node): Lookup<seq<Node>>
  {
    if node.childrenIndices.None? then Null else Select(nodes, node.childrenIndices.value)
  }

  function ClassCount(n: Node): nat
  {
    if n.classes.None? then 0 else |n.classes.value|
  }

  function ChildCount(n: Node): nat
  {
    if n.childrenIndices.None? then 0 else |n.childrenIndices.value|
  }

  /** After the class attribute is imported, ClassCount is one more than the spaces in its value: even class="" counts one (empty) class. */
  lemma ImportedClassCount(a: Attribute, n: Node)
    ensures ClassCount(Import(ClassImporter, a, n)) == 1 + Strings.Occurrences(a.value, ' ')
    ensures ClassCount(Import(ClassImporter, a, n)) >= 1
  {
    Strings.SplitCount(a.value, ' ');
  }

  // ---------------------------------------------------------------------------
  // The accessors agree with each other
  // ---------------------------------------------------------------------------

  /** The indexer finds exactly the positions below NodeCount, and finds the node there. */
  lemma ItemInRange(nodes: Option<seq<Node>>, i: int)
    ensures Item(nodes, i).Found? <==> 0 <= i < NodeCount(nodes)
    ensures Item(nodes, i).Found? ==> Item(nodes, i).value == nodes.value[i]
    ensures Item(nodes, i).Null? == false
  {
  }

  /** IndexOf finds the first node equal to the one asked for, and -1 when there is none. */
  lemma IndexOfFinds(nodes: Option<seq<Node>>, node: Node)
    requires nodes.Some?
    ensures var r := IndexOf(nodes, node);
            r.Found? && (r.value == -1 <==> node !in nodes.value)
            && (r.value >= 0 ==> Item(nodes, r.value) == Found(node))
  {
  }

  /** Mapping a list of indices gives one node per index, the indexer's, or throws when some index does. */
  lemma {:induction false} SelectItems(nodes: Option<seq<Node>>, indices: seq<nat>)
    ensures Select(nodes, indices).Found? <==> forall k :: 0 <= k < |indices| ==> Item(nodes, indices[k]).Found?
    ensures Select(nodes, indices).Null? == false
    ensures Select(nodes, indices).Found? ==>
              |Select(nodes, indices).value| == |indices|
              && forall k :: 0 <= k < |indices| ==> Item(nodes, indices[k]) == Found(Select(nodes, indices).value[k])
  {
    if indices != [] {
      SelectItems(nodes, indices[1..]);
      assert forall k :: 1 <= k < |indices| ==> indices[k] == indices[1..][k - 1];
      if Select(nodes, indices).Found? {
        var rest := Select(nodes, indices[1..]).value;
        assert Select(nodes, indices).value == [Item(nodes, indices[0]).value] + rest;
      }
    }
  }

  /**
   * GetChildren and GetChildNode agree: null together, and when the children
   * are found there are ChildCount of them and the k-th is GetChildNode(k);
   * they throw exactly when some child lookup does.
   */
  lemma ChildrenAgree(nodes: Option<seq<Node>>, node: Node)
    ensures GetChildren(nodes, node).Null? <==> node.childrenIndices.None?
    ensures GetChildren(nodes, node).Thrown? <==> exists k :: 0 <= k < ChildCount(node) && GetChildNode(nodes, node, k).Thrown?
    ensures GetChildren(nodes, node).Found? ==>
              |GetChildren(nodes, node).value| == ChildCount(node)
              && forall k :: 0 <= k < ChildCount(node) ==> GetChildNode(nodes, node, k) == Found(GetChildren(nodes, node).value[k])
  {
    if node.childrenIndices.Some? {
      var ci := node.childrenIndices.value;
      SelectItems(nodes, ci);
      if Select(nodes, ci).Thrown? {
        var k :| 0 <= k < |ci| && !Item(nodes, ci[k]).Found?;
        assert GetChildNode(nodes, node, k) == Item(nodes, ci[k]);
      }
    }
  }

  /** A child position at or past ChildCount is null. */
  lemma ChildPastEnd(nodes: Option<seq<Node>>, node: Node, child: int)
    requires child >= ChildCount(node)
    ensures GetChildNode(nodes, node, child) == Null
  {
  }

  // ---------------------------------------------------------------------------
  // The accessors over an imported view
  // ---------------------------------------------------------------------------

  /** Node j of an imported view sits at position j, and no other node equals it. */
  lemma ImportedIndexOf(t: seq<Node>, j: nat)
    requires Forest(t, 0, -1, [0]) && j < |t|
    ensures IndexOf(Some(t), t[j]) == Found(j)
  {
    var p := Position(t, t[j]);
    assert t[p].index == p && t[j].index == j;
  }

  /**
   * In an imported view only node 0 has a null parent; every other node's
   * parent is an earlier node that lists it among its children.
   */
  lemma ImportedParent(t: seq<Node>, j: nat)
    requires Forest(t, 0, -1, [0]) && j < |t|
    ensures GetParentNode(Some(t), t[j]).Null? <==> j == 0
    ensures GetParentNode(Some(t), t[j]).Thrown? == false
    ensures j > 0 ==> var p := t[j].parentIndex;
                      0 <= p < j && GetParentNode(Some(t), t[j]) == Found(t[p]) && j in Kids(t[p])
  {
    assert 0 in [0];
    assert t[0].parentIndex == -1;
    if t[j].parentIndex == -1 {
      assert j in [0];
    }
    assert ListedAt(t, 0, j);
  }

  /** Each child of an imported node is found, is a later node, and has that node as its parent. */
  lemma ImportedChild(t: seq<Node>, j: nat, k: nat)
    requires Forest(t, 0, -1, [0]) && j < |t| && k < ChildCount(t[j])
    ensures var c := GetChildNode(Some(t), t[j], k);
            c.Found? && c.value.index > j && GetParentNode(Some(t), c.value) == Found(t[j])
  {
    assert LinkedAt(t, 0, j);
    var ci := t[j].childrenIndices.value;
    assert ci[k] in Kids(t[j]);
  }

  /** An imported node's children never throw: they are null exactly for a node without a children array. */
  lemma ImportedChildren(t: seq<Node>, j: nat)
    requires Forest(t, 0, -1, [0]) && j < |t|
    ensures GetChildren(Some(t), t[j]).Found? <==> t[j].childrenIndices.Some?
  {
    ChildrenAgree(Some(t), t[j]);
    forall k | 0 <= k < ChildCount(t[j])
      ensures GetChildNode(Some(t), t[j], k).Found?
    {
      ImportedChild(t, j, k);
    }
  }
}
