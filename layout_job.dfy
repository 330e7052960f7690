/**
 * UILayoutJob: for each root, set the root's constraints and lay out its tree
 * (or clear it when the root is not displayed). Laying out a non-terminal
 * node constrains each child in order and then lays it out or clears it,
 * then asks the element for the positions of all children (kept only for
 * the displayed ones), and finally sizes the node. A terminal node is only
 * sized. Clearing zeroes the size and position of a whole subtree.
 *
 * What the jobs write is the runtime header of each node's config buffer;
 * those headers are modelled as one table indexed by node. The element table
 * maps an element hash to the element's constrain, layout and size function
 * pointers, each of which may be missing. A call sees the node, its children
 * and every runtime header as they are at the time of the call; what else an
 * element reads from its own blocks is fixed during the job and is covered
 * by the node argument.
 */
module LayoutJob {
  import opened Bytes
  import opened Floats
  import opened ConfigHandle
  import opened NodeTree
  import Ext = ConfigHandleExtensions

  type Headers = seq<RuntimeHeader>

  /** The element's function pointers: constrain(node, children, child index, headers), layout(node, children, headers), size(node, children, headers). */
  datatype Callbacks = Callbacks(
    constrain: Option<(nat, seq<nat>, nat, Headers) -> Float4>,
    layout: Option<(nat, seq<nat>, Headers) -> seq<Float2>>,
    size: Option<(nat, seq<nat>, Headers) -> Float2>)

  /** UIElementInfo.IsTerminal: neither constrain nor layout exists. */
  predicate IsTerminal(e: Callbacks)
  {
    e.constrain.None? && e.layout.None?
  }

  /** The pointers the job invokes exist: size always, constrain and layout on a non-terminal element. */
  predicate Invocable(e: Callbacks)
  {
    e.size.Some? && (!IsTerminal(e) ==> e.constrain.Some? && e.layout.Some?)
  }

  /**
   * What the job reads and does not change: the children buffers, each
   * node's Display flag, each node's element hash and the element table.
   */
  datatype World = World(children: Children, display: seq<bool>, element: seq<u64>, infos: map<u64, Callbacks>)

  predicate ValidWorld(w: World)
  {
    |w.display| == |w.children| && |w.element| == |w.children| && Forward(w.children)
    && forall n :: 0 <= n < |w.children| ==> w.element[n] in w.infos && Invocable(w.infos[w.element[n]])
  }

  function Info(w: World, n: nat): Callbacks
    requires ValidWorld(w) && n < |w.children|
  {
    w.infos[w.element[n]]
  }

  /** A header after Clear: size and position zero, constraints kept. */
  function Cleared(h: RuntimeHeader): RuntimeHeader
  {
    h.(size := Zero2, position := Zero2)
  }

  /** The position the element gave child i; the positions array starts zero-filled, so an entry it did not write is 0. */
  function PositionAt(positions: seq<Float2>, i: nat): Float2
  {
    if i < |positions| then positions[i] else Zero2
  }

  // ---------------------------------------------------------------- the job as functions

  /** Clear(node): zero the node's size and position, then clear each child's subtree in order. */
  function ClearSpec(children: Children, hs: Headers, n: nat): (r: Headers)
    requires Forward(children) && |hs| == |children| && n < |children|
    ensures |r| == |hs|
    decreases |children| - n, |children[n]| + 1
  {
    ClearChildren(children, hs[n := Cleared(hs[n])], n, |children[n]|)
  }

  function ClearChildren(children: Children, hs: Headers, n: nat, k: nat): (r: Headers)
    requires Forward(children) && |hs| == |children| && n < |children| && k <= |children[n]|
    ensures |r| == |hs|
    decreases |children| - n, k
  {
    if k == 0 then hs else ClearSpec(children, ClearChildren(children, hs, n, k - 1), children[n][k - 1])
  }

  /** Layout(node): a terminal node is sized with no children; otherwise the children pass, the positions, then the size. */
  function LayoutSpec(w: World, hs: Headers, n: nat): (r: Headers)
    requires ValidWorld(w) && |hs| == |w.children| && n < |w.children|
    ensures |r| == |hs|
    decreases |w.children| - n, |w.children[n]| + 1
  {
    var e := Info(w, n);
    if IsTerminal(e) then hs[n := hs[n].(size := e.size.value(n, [], hs))]
    else
      var kids := w.children[n];
      var a := ChildPass(w, hs, n, |kids|);
      var b := if |kids| > 0 then Place(a, kids, w.display, e.layout.value(n, kids, a), |kids|) else a;
      b[n := b[n].(size := e.size.value(n, kids, b))]
  }

  /** The first k steps of the children loop: constrain child i with what the headers are now, then lay it out or clear it. */
  function ChildPass(w: World, hs: Headers, n: nat, k: nat): (r: Headers)
    requires ValidWorld(w) && |hs| == |w.children| && n < |w.children| && k <= |w.children[n]|
    requires !IsTerminal(Info(w, n))
    ensures |r| == |hs|
    decreases |w.children| - n, k
  {
    if k == 0 then hs
    else
      var s := ChildPass(w, hs, n, k - 1);
      ChildStep(w, s, n, k - 1)
  }

  /** Step i of the children loop on headers s. */
  function ChildStep(w: World, s: Headers, n: nat, i: nat): (r: Headers)
    requires ValidWorld(w) && |s| == |w.children| && n < |w.children| && i < |w.children[n]|
    requires !IsTerminal(Info(w, n))
    ensures |r| == |s|
    decreases |w.children| - n, 0
  {
    var kids := w.children[n];
    var c := kids[i];
    var t := s[c := s[c].(constraints := Info(w, n).constrain.value(n, kids, i, s))];
    if w.display[c] then LayoutSpec(w, t, c) else ClearSpec(w.children, t, c)
  }

  /** The positions loop: the first k children get their positions, the displayed ones only. */
  function Place(hs: Headers, kids: seq<nat>, display: seq<bool>, positions: seq<Float2>, k: nat): (r: Headers)
    requires k <= |kids| && forall j :: 0 <= j < |kids| ==> kids[j] < |hs| && kids[j] < |display|
    ensures |r| == |hs|
  {
    if k == 0 then hs
    else
      var s := Place(hs, kids, display, positions, k - 1);
      var c := kids[k - 1];
      if display[c] then s[c := s[c].(position := PositionAt(positions, k - 1))] else s
  }

  /** A root of the batch (UIRootData): its node and the constraints it is given. */
  datatype Root = Root(node: nat, constraints: Float4)

  /** One root: set its constraints, then lay it out if it is displayed, clear it otherwise. */
  function RootStep(w: World, hs: Headers, r: Root): (res: Headers)
    requires ValidWorld(w) && |hs| == |w.children| && r.node < |w.children|
    ensures |res| == |hs|
  {
    var t := hs[r.node := hs[r.node].(constraints := r.constraints)];
    if w.display[r.node] then LayoutSpec(w, t, r.node) else ClearSpec(w.children, t, r.node)
  }

  /** Execute: the roots of the batch in order. */
  function Run(w: World, hs: Headers, roots: seq<Root>): (res: Headers)
    requires ValidWorld(w) && |hs| == |w.children| && forall i :: 0 <= i < |roots| ==> roots[i].node < |w.children|
    ensures |res| == |hs|
  {
    if roots == [] then hs else RootStep(w, Run(w, hs, roots[..|roots| - 1]), roots[|roots| - 1])
  }

  // ---------------------------------------------------------------- what Clear does

  /** Clear zeroes the size and position of exactly the nodes of the subtree; every constraint and every other node stays. */
  lemma {:induction false} ClearEffect(children: Children, hs: Headers, n: nat, m: nat)
    requires Forward(children) && |hs| == |children| && n < |children| && m < |hs|
    ensures ClearSpec(children, hs, n)[m] == if m in PreOrder(children, n) then Cleared(hs[m]) else hs[m]
    decreases |children| - n, |children[n]| + 1
  {
    ClearChildrenEffect(children, hs[n := Cleared(hs[n])], n, |children[n]|, m);
    if m == n && m in Forest(children, n, |children[n]|) {
      ForestBounds(children, n, |children[n]|, m);
    }
  }

  lemma {:induction false} ClearChildrenEffect(children: Children, hs: Headers, n: nat, k: nat, m: nat)
    requires Forward(children) && |hs| == |children| && n < |children| && k <= |children[n]| && m < |hs|
    ensures ClearChildren(children, hs, n, k)[m] == if m in Forest(children, n, k) then Cleared(hs[m]) else hs[m]
    decreases |children| - n, k
  {
    if k > 0 {
      ClearChildrenEffect(children, hs, n, k - 1, m);
      ClearEffect(children, ClearChildren(children, hs, n, k - 1), children[n][k - 1], m);
    }
  }

  // ---------------------------------------------------------------- what Layout leaves alone

  /** Place writes only the positions of displayed children. */
  lemma {:induction false} PlaceKeeps(hs: Headers, kids: seq<nat>, display: seq<bool>, positions: seq<Float2>, k: nat, m: nat)
    requires k <= |kids| && forall j :: 0 <= j < |kids| ==> kids[j] < |hs| && kids[j] < |display|
    requires m < |hs|
    ensures m !in kids || !display[m] ==> Place(hs, kids, display, positions, k)[m] == hs[m]
    ensures Place(hs, kids, display, positions, k)[m] == hs[m].(position := Place(hs, kids, display, positions, k)[m].position)
  {
    if k > 0 {
      PlaceKeeps(hs, kids, display, positions, k - 1, m);
    }
  }

  /**
   * Laying out node n changes only nodes of its subtree, and leaves n's own
   * constraints and position (which its parent sets) as they were.
   */
  lemma {:induction false} LayoutFrame(w: World, hs: Headers, n: nat, m: nat)
    requires ValidWorld(w) && |hs| == |w.children| && n < |w.children| && m < |hs|
    ensures m !in PreOrder(w.children, n) ==> LayoutSpec(w, hs, n)[m] == hs[m]
    ensures LayoutSpec(w, hs, n)[n] == hs[n].(size := LayoutSpec(w, hs, n)[n].size)
    decreases |w.children| - n, |w.children[n]| + 1
  {
    LayoutKeeps(w, hs, n, n);
    if m !in PreOrder(w.children, n) {
      LayoutKeeps(w, hs, n, m);
    }
  }

  /** The node itself or a node outside its subtree: everything but the node's size stays. */
  lemma {:induction false} LayoutKeeps(w: World, hs: Headers, n: nat, m: nat)
    requires ValidWorld(w) && |hs| == |w.children| && n < |w.children| && m < |hs|
    requires m !in PreOrder(w.children, n) || m == n
    ensures LayoutSpec(w, hs, n)[m] == hs[m].(size := LayoutSpec(w, hs, n)[m].size)
    ensures m != n ==> LayoutSpec(w, hs, n)[m] == hs[m]
    decreases |w.children| - n, |w.children[n]| + 1, 0
  {
    var e := Info(w, n);
    if !IsTerminal(e) {
      var kids := w.children[n];
      var k := |kids|;
      var a := ChildPass(w, hs, n, k);
      ChildPassFrame(w, hs, n, k, m);
      if m in Forest(w.children, n, k) {
        ForestBounds(w.children, n, k, m);
      }
      assert a[m] == hs[m];
      if k > 0 {
        var ps := e.layout.value(n, kids, a);
        PlaceKeeps(a, kids, w.display, ps, k, m);
        if m in kids {
          var j :| 0 <= j < k && kids[j] == m;
          ChildInSubtree(w.children, n, j);
        }
      }
    }
  }

  /** The first k steps of the children loop change only nodes of those children's subtrees. */
  lemma {:induction false} ChildPassFrame(w: World, hs: Headers, n: nat, k: nat, m: nat)
    requires ValidWorld(w) && |hs| == |w.children| && n < |w.children| && k <= |w.children[n]| && m < |hs|
    requires !IsTerminal(Info(w, n))
    ensures m !in Forest(w.children, n, k) ==> ChildPass(w, hs, n, k)[m] == hs[m]
    decreases |w.children| - n, k
  {
    if k > 0 && m !in Forest(w.children, n, k) {
      ChildPassFrame(w, hs, n, k - 1, m);
      ChildStepFrame(w, ChildPass(w, hs, n, k - 1), n, k - 1, m);
    }
  }

  /** Step i changes only nodes of child i's subtree. */
  lemma {:induction false} ChildStepFrame(w: World, s: Headers, n: nat, i: nat, m: nat)
    requires ValidWorld(w) && |s| == |w.children| && n < |w.children| && i < |w.children[n]| && m < |s|
    requires !IsTerminal(Info(w, n))
    ensures m !in PreOrder(w.children, w.children[n][i]) ==> ChildStep(w, s, n, i)[m] == s[m]
    decreases |w.children| - n, 0
  {
    var c := w.children[n][i];
    var t := s[c := s[c].(constraints := Info(w, n).constrain.value(n, w.children[n], i, s))];
    if m !in PreOrder(w.children, c) {
      if w.display[c] {
        LayoutFrame(w, t, c, m);
      } else {
        ClearEffect(w.children, t, c, m);
      }
    }
  }

  // ---------------------------------------------------------------- what Layout does to the children

  /** Without repeated children, each displayed child among the first k gets exactly the position the element gave it. */
  lemma {:induction false} PlaceSets(hs: Headers, kids: seq<nat>, display: seq<bool>, positions: seq<Float2>, k: nat, i: nat)
    requires k <= |kids| && forall j :: 0 <= j < |kids| ==> kids[j] < |hs| && kids[j] < |display|
    requires forall j1, j2 :: 0 <= j1 < |kids| && 0 <= j2 < |kids| && kids[j1] == kids[j2] ==> j1 == j2
    requires i < k && display[kids[i]]
    ensures Place(hs, kids, display, positions, k)[kids[i]] == hs[kids[i]].(position := PositionAt(positions, i))
  {
    if k - 1 == i {
      PlaceKeeps(hs, kids, display, positions, k - 1, kids[i]);
    } else {
      PlaceSets(hs, kids, display, positions, k - 1, i);
    }
  }

  /** In a tree, the steps after step i do not touch child i's subtree. */
  lemma {:induction false} LaterStepsKeep(w: World, hs: Headers, n: nat, i: nat, k: nat, m: nat)
    requires ValidWorld(w) && Tree(w.children) && |hs| == |w.children| && n < |w.children| && !IsTerminal(Info(w, n))
    requires i < k <= |w.children[n]| && m < |hs| && m in PreOrder(w.children, w.children[n][i])
    ensures ChildPass(w, hs, n, k)[m] == ChildPass(w, hs, n, i + 1)[m]
    decreases k
  {
    if k > i + 1 {
      LaterStepsKeep(w, hs, n, i, k - 1, m);
      SiblingsDisjoint(w.children, n, i, k - 1, m);
      PreOrderBounds(w.children, w.children[n][i], m);
      ChildStepFrame(w, ChildPass(w, hs, n, k - 1), n, k - 1, m);
    }
  }

  /** Child i of n is constrained with what the element computes at step i, after the children before it were laid out. */
  lemma {:induction false} ChildConstrained(w: World, hs: Headers, n: nat, i: nat)
    requires ValidWorld(w) && Tree(w.children) && |hs| == |w.children| && n < |w.children| && !IsTerminal(Info(w, n))
    requires i < |w.children[n]|
    ensures LayoutSpec(w, hs, n)[w.children[n][i]].constraints
         == Info(w, n).constrain.value(n, w.children[n], i, ChildPass(w, hs, n, i))
  {
    var kids := w.children[n];
    var c := kids[i];
    var s := ChildPass(w, hs, n, i);
    var t := s[c := s[c].(constraints := Info(w, n).constrain.value(n, kids, i, s))];
    if w.display[c] {
      LayoutFrame(w, t, c, c);
    } else {
      ClearEffect(w.children, t, c, c);
    }
    assert PreOrder(w.children, c)[0] == c;
    LaterStepsKeep(w, hs, n, i, |kids|, c);
    ChildOutsideParent(w, hs, n, i, c);
  }

  /** A node of child i's subtree, at the end of Layout(n): what the children pass left, apart from the position Place gives a displayed child. */
  lemma {:induction false} ChildOutsideParent(w: World, hs: Headers, n: nat, i: nat, m: nat)
    requires ValidWorld(w) && Tree(w.children) && |hs| == |w.children| && n < |w.children| && !IsTerminal(Info(w, n))
    requires i < |w.children[n]| && m < |hs| && m in PreOrder(w.children, w.children[n][i])
    ensures var a := ChildPass(w, hs, n, |w.children[n]|);
      LayoutSpec(w, hs, n)[m] == a[m].(position := LayoutSpec(w, hs, n)[m].position)
    ensures m != w.children[n][i] || !w.display[m] ==> LayoutSpec(w, hs, n)[m] == ChildPass(w, hs, n, |w.children[n]|)[m]
  {
    var kids := w.children[n];
    var a := ChildPass(w, hs, n, |kids|);
    var ps := Info(w, n).layout.value(n, kids, a);
    PreOrderBounds(w.children, kids[i], m);
    PlaceKeeps(a, kids, w.display, ps, |kids|, m);
    if m in kids && (m != kids[i] || !w.display[m]) {
      var j :| 0 <= j < |kids| && kids[j] == m;
      if j != i {
        assert PreOrder(w.children, kids[j])[0] == m;
        SiblingsDisjoint(w.children, n, i, j, m);
      }
    }
  }

  /** A displayed child gets the position the element's layout gives it, computed after every child was laid out. */
  lemma {:induction false} ChildPlaced(w: World, hs: Headers, n: nat, i: nat)
    requires ValidWorld(w) && Tree(w.children) && |hs| == |w.children| && n < |w.children| && !IsTerminal(Info(w, n))
    requires i < |w.children[n]| && w.display[w.children[n][i]]
    ensures LayoutSpec(w, hs, n)[w.children[n][i]].position
         == PositionAt(Info(w, n).layout.value(n, w.children[n], ChildPass(w, hs, n, |w.children[n]|)), i)
  {
    var kids := w.children[n];
    var a := ChildPass(w, hs, n, |kids|);
    var ps := Info(w, n).layout.value(n, kids, a);
    forall j1, j2 | 0 <= j1 < |kids| && 0 <= j2 < |kids| && kids[j1] == kids[j2]
      ensures j1 == j2
    {
    }
    PlaceSets(a, kids, w.display, ps, |kids|, i);
    ForestOfChild(w.children, n, i);
  }

  /** Child i of n is not n. */
  lemma ForestOfChild(children: Children, n: nat, i: nat)
    requires Forward(children) && n < |children| && i < |children[n]|
    ensures children[n][i] != n
  {
  }

  /**
   * A child that is not displayed ends with its whole subtree at size 0 and
   * position 0, whatever its siblings and the element's layout do.
   */
  lemma {:induction false} HiddenChildCleared(w: World, hs: Headers, n: nat, i: nat, m: nat)
    requires ValidWorld(w) && Tree(w.children) && |hs| == |w.children| && n < |w.children| && !IsTerminal(Info(w, n))
    requires i < |w.children[n]| && !w.display[w.children[n][i]] && m < |hs| && m in PreOrder(w.children, w.children[n][i])
    ensures LayoutSpec(w, hs, n)[m].size == Zero2 && LayoutSpec(w, hs, n)[m].position == Zero2
  {
    var kids := w.children[n];
    var c := kids[i];
    var s := ChildPass(w, hs, n, i);
    var t := s[c := s[c].(constraints := Info(w, n).constrain.value(n, kids, i, s))];
    PreOrderBounds(w.children, c, m);
    ClearEffect(w.children, t, c, m);
    LaterStepsKeep(w, hs, n, i, |kids|, m);
    ChildOutsideParent(w, hs, n, i, m);
  }

  /**
   * The size comes last: the element sizes the node from the final headers of
   * every other node (its children already constrained, laid out and placed)
   * and the node's own header as it came in; a terminal node is sized with no children.
   */
  lemma {:induction false} SizedLast(w: World, hs: Headers, n: nat)
    requires ValidWorld(w) && |hs| == |w.children| && n < |w.children|
    ensures var r := LayoutSpec(w, hs, n);
      r[n].size == Info(w, n).size.value(n, if IsTerminal(Info(w, n)) then [] else w.children[n], r[n := hs[n]])
  {
    var e := Info(w, n);
    var r := LayoutSpec(w, hs, n);
    if IsTerminal(e) {
      assert r[n := hs[n]] == hs;
    } else {
      var kids := w.children[n];
      var a := ChildPass(w, hs, n, |kids|);
      var b := if |kids| > 0 then Place(a, kids, w.display, e.layout.value(n, kids, a), |kids|) else a;
      LayoutKeeps(w, hs, n, n);
      ChildPassFrame(w, hs, n, |kids|, n);
      if n in Forest(w.children, n, |kids|) {
        ForestBounds(w.children, n, |kids|, n);
      }
      if |kids| > 0 {
        PlaceKeeps(a, kids, w.display, e.layout.value(n, kids, a), |kids|, n);
      }
      assert b[n] == hs[n];
      assert r[n := hs[n]] == b;
    }
  }

  /** A root gets the batch's constraints and keeps its position; a hidden root's whole tree ends at size 0 and position 0. */
  lemma RootConstrained(w: World, hs: Headers, r: Root, m: nat)
    requires ValidWorld(w) && |hs| == |w.children| && r.node < |w.children| && m < |hs|
    ensures RootStep(w, hs, r)[r.node].constraints == r.constraints
    ensures RootStep(w, hs, r)[r.node].position == (if w.display[r.node] then hs[r.node].position else Zero2)
    ensures !w.display[r.node] && m in PreOrder(w.children, r.node) ==> RootStep(w, hs, r)[m].size == Zero2 && RootStep(w, hs, r)[m].position == Zero2
    ensures m !in PreOrder(w.children, r.node) ==> RootStep(w, hs, r)[m] == hs[m]
  {
    var t := hs[r.node := hs[r.node].(constraints := r.constraints)];
    if w.display[r.node] {
      LayoutFrame(w, t, r.node, r.node);
      LayoutFrame(w, t, r.node, m);
    } else {
      ClearEffect(w.children, t, r.node, r.node);
      ClearEffect(w.children, t, r.node, m);
    }
  }

  // ---------------------------------------------------------------- the job

  class UILayoutJob {
    const children: Children
    const display: seq<bool>
    const element: seq<u64>
    const elementInfo: map<u64, Callbacks>
    /** The runtime headers of the config buffers, one per node. */
    const headers: array<RuntimeHeader>

    function Fixed(): World
    {
      World(children, display, element, elementInfo)
    }

    ghost predicate Valid()
      reads this
    {
      ValidWorld(Fixed()) && headers.Length == |children|
    }

    constructor (children: Children, display: seq<bool>, element: seq<u64>, elementInfo: map<u64, Callbacks>, headers: array<RuntimeHeader>)
      ensures Fixed() == World(children, display, element, elementInfo) && this.headers == headers
    {
      this.children := children;
      this.display := display;
      this.element := element;
      this.elementInfo := elementInfo;
      this.headers := headers;
    }

    /** Clear(entity, handle): size and position to zero, then the children's subtrees. */
    method Clear(n: nat)
      requires Valid() && n < |children|
      modifies headers
      ensures headers[..] == ClearSpec(children, old(headers[..]), n)
      decreases |children| - n
    {
      Ext.SetSize(headers, n, Zero2);
      Ext.SetPosition(headers, n, Zero2);
      assert headers[..] == old(headers[..])[n := Cleared(old(headers[n]))];
      ghost var start := headers[..];
      var kids := children[n];
      var i := 0;
      while i < |kids|
        invariant 0 <= i <= |kids|
        invariant headers[..] == ClearChildren(children, start, n, i)
      {
        Clear(kids[i]);
        i := i + 1;
      }
    }

    /** Layout(entity, handle): see LayoutSpec. */
    method Layout(n: nat)
      requires Valid() && n < |children|
      modifies headers
      ensures headers[..] == LayoutSpec(Fixed(), old(headers[..]), n)
      decreases |children| - n
    {
      var e := elementInfo[element[n]];
      if !IsTerminal(e) {
        var kids := children[n];
        var shouldDisplay: seq<bool> := [];
        var j := 0;
        while j < |kids|
          invariant 0 <= j <= |kids| && |shouldDisplay| == j
          invariant forall q :: 0 <= q < j ==> shouldDisplay[q] == display[kids[q]]
        {
          shouldDisplay := shouldDisplay + [display[kids[j]]];
          j := j + 1;
        }
        var i := 0;
        while i < |kids|
          invariant 0 <= i <= |kids|
          invariant headers[..] == ChildPass(Fixed(), old(headers[..]), n, i)
        {
          ghost var s := headers[..];
          var constraints := e.constrain.value(n, kids, i, headers[..]);
          Ext.SetConstraints(headers, kids[i], constraints);
          if shouldDisplay[i] {
            Layout(kids[i]);
          } else {
            Clear(kids[i]);
          }
          assert headers[..] == ChildStep(Fixed(), s, n, i);
          i := i + 1;
        }
        if |kids| > 0 {
          ghost var a := headers[..];
          var positions := e.layout.value(n, kids, headers[..]);
          var k := 0;
          while k < |kids|
            invariant 0 <= k <= |kids|
            invariant headers[..] == Place(a, kids, display, positions, k)
          {
            if shouldDisplay[k] {
              Ext.SetPosition(headers, kids[k], PositionAt(positions, k));
            }
            k := k + 1;
          }
        }
        var size := e.size.value(n, kids, headers[..]);
        Ext.SetSize(headers, n, size);
      } else {
        var size := e.size.value(n, [], headers[..]);
        Ext.SetSize(headers, n, size);
      }
    }

    /** Execute: each root's constraints, then its layout or its clearing. */
    method Execute(roots: seq<Root>)
      requires Valid() && forall i :: 0 <= i < |roots| ==> roots[i].node < |children|
      modifies headers
      ensures headers[..] == Run(Fixed(), old(headers[..]), roots)
    {
      var i := 0;
      while i < |roots|
        invariant 0 <= i <= |roots|
        invariant headers[..] == Run(Fixed(), old(headers[..]), roots[..i])
      {
        assert roots[..i + 1][..i] == roots[..i];
        var root := roots[i];
        Ext.SetConstraints(headers, root.node, root.constraints);
        if display[root.node] {
          Layout(root.node);
        } else {
          Clear(root.node);
        }
        i := i + 1;
      }
      assert roots[..i] == roots;
    }
  }
}
