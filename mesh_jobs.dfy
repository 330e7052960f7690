/**
 * UIInitMeshDataJob and UIRenderJob: the first sums the render-quad counts of
 * a root's tree; the second walks the tree in the same pre-order, gives each
 * node the next run of quads in the root's mesh (4 vertices and 6 indices per
 * quad, one sub-mesh per node), lets a visible node's element generate its
 * vertices and zero-fills the vertices of a hidden one.
 */
module MeshJobs {
  import opened Bytes
  import opened Floats
  import opened ConfigHandle
  import opened NodeTree
  import opened VertexData
  import opened ElementExtensions

  // ---------------------------------------------------------------- UIInitMeshDataJob

  /** The render quads of n's subtree: its own count, then each child's subtree in order. */
  function QuadTotal(children: Children, quads: seq<nat>, n: nat): nat
    requires Forward(children) && |quads| == |children| && n < |children|
    decreases |children| - n, |children[n]| + 1
  {
    quads[n] + ForestQuads(children, quads, n, |children[n]|)
  }

  function ForestQuads(children: Children, quads: seq<nat>, n: nat, k: nat): nat
    requires Forward(children) && |quads| == |children| && n < |children| && k <= |children[n]|
    decreases |children| - n, k
  {
    if k == 0 then 0 else ForestQuads(children, quads, n, k - 1) + QuadTotal(children, quads, children[n][k - 1])
  }

  /** The total is the sum of the counts of the nodes the walk visits. */
  lemma {:induction false} QuadTotalIsSum(children: Children, quads: seq<nat>, n: nat)
    requires Forward(children) && |quads| == |children| && n < |children|
    ensures forall k :: 0 <= k < |PreOrder(children, n)| ==> PreOrder(children, n)[k] < |quads|
    ensures QuadTotal(children, quads, n) == SumOf(quads, PreOrder(children, n))
    decreases |children| - n, |children[n]| + 1
  {
    PreOrderInRange(children, n);
    ForestQuadsIsSum(children, quads, n, |children[n]|);
    SumOfAppend(quads, [n], Forest(children, n, |children[n]|));
    assert SumOf(quads, [n]) == quads[n] by {
      assert [n][..0] == [];
    }
  }

  lemma {:induction false} ForestQuadsIsSum(children: Children, quads: seq<nat>, n: nat, k: nat)
    requires Forward(children) && |quads| == |children| && n < |children| && k <= |children[n]|
    ensures forall j :: 0 <= j < |Forest(children, n, k)| ==> Forest(children, n, k)[j] < |quads|
    ensures ForestQuads(children, quads, n, k) == SumOf(quads, Forest(children, n, k))
    decreases |children| - n, k
  {
    if k > 0 {
      ForestQuadsIsSum(children, quads, n, k - 1);
      QuadTotalIsSum(children, quads, children[n][k - 1]);
      SumOfAppend(quads, Forest(children, n, k - 1), PreOrder(children, children[n][k - 1]));
    }
  }

  /**
   * CountRenderQuads(entity, ref totalQuads, ref submesh): adds the subtree's
   * quads to the running total; the submesh counter is passed along and never changed.
   */
  method CountRenderQuads(children: Children, quads: seq<nat>, n: nat, totalQuads: nat, submesh: int)
    returns (totalOut: nat, submeshOut: int)
    requires Forward(children) && |quads| == |children| && n < |children|
    ensures totalOut == totalQuads + QuadTotal(children, quads, n) && submeshOut == submesh
    decreases |children| - n
  {
    totalOut := totalQuads + quads[n];
    submeshOut := submesh;
    var kids := children[n];
    var i := 0;
    while i < |kids|
      invariant 0 <= i <= |kids| && submeshOut == submesh
      invariant totalOut == totalQuads + quads[n] + ForestQuads(children, quads, n, i)
    {
      totalOut, submeshOut := CountRenderQuads(children, quads, kids[i], totalOut, submeshOut);
      i := i + 1;
    }
  }

  /** Execute: each root's total, counted from 0. */
  method InitMeshData(children: Children, quads: seq<nat>, roots: seq<nat>) returns (totals: seq<nat>)
    requires Forward(children) && |quads| == |children| && forall i :: 0 <= i < |roots| ==> roots[i] < |children|
    ensures |totals| == |roots| && forall i :: 0 <= i < |roots| ==> totals[i] == QuadTotal(children, quads, roots[i])
  {
    totals := [];
    var i := 0;
    while i < |roots|
      invariant 0 <= i <= |roots| && |totals| == i
      invariant forall j :: 0 <= j < i ==> totals[j] == QuadTotal(children, quads, roots[j])
    {
      var total, submesh := CountRenderQuads(children, quads, roots[i], 0, 0);
      totals := totals + [total];
      i := i + 1;
    }
  }

  // ---------------------------------------------------------------- UIRenderJob: one node

  /** The six indices of quad q: triangles (0, 1, 2) and (1, 3, 2) of its four vertices. */
  function Corner(t: nat): nat
    requires t < 6
  {
    [0, 1, 2, 1, 3, 2][t]
  }

  /** The (ushort) cast of an index. */
  function U16(x: nat): nat
  {
    x % 65536
  }

  /** What the index buffer holds at position j once the quad it belongs to was written. */
  function QuadIndex(j: nat): nat
  {
    U16(4 * (j / 6) + Corner(j % 6))
  }

  /** Bounds(center, size) as the sub-mesh descriptor and RenderBounds take it. */
  datatype Bounds = Bounds(center: Float3, size: Float3)

  /** SubMeshDescriptor(indexStart, indexCount, Triangles) with its bounds, firstVertex and vertexCount. */
  datatype SubMeshDescriptor = SubMeshDescriptor(indexStart: nat, indexCount: nat, bounds: Bounds, firstVertex: nat, vertexCount: nat)

  /** A node's bounds: centre (size / 2 + position) * flipVector, size (size, 0), from its own position only. */
  function NodeBounds(h: RuntimeHeader): Bounds
  {
    var cx := Add(Div(h.size.x, Fin(2.0)), h.position.x);
    var cy := Add(Div(h.size.y, Fin(2.0)), h.position.y);
    Bounds(Float3(Mul(cx, FlipVector.x), Mul(cy, FlipVector.y), Zero), Float3(h.size.x, h.size.y, Zero))
  }

  function Descriptor(offset: nat, quads: nat, h: RuntimeHeader): SubMeshDescriptor
  {
    SubMeshDescriptor(offset * 6, quads * 6, NodeBounds(h), offset * 4, quads * 4)
  }

  /** The rectangle the element draws in: (positionOffset + position, positionOffset + position + size). */
  function DrawRect(positionOffset: Float2, h: RuntimeHeader): Float4
  {
    var p := Add2(positionOffset, h.position);
    Float4(p.x, p.y, Add(p.x, h.size.x), Add(p.y, h.size.y))
  }

  /** The element's vertices written over the run of len vertices from at; what it does not write keeps its old content. */
  function Overlay(vs: seq<Vertex>, at: nat, len: nat, written: seq<Vertex>): (r: seq<Vertex>)
    requires at + len <= |vs|
    ensures |r| == |vs|
    ensures forall j :: 0 <= j < |vs| ==> r[j] == if at <= j < at + len && j - at < |written| then written[j - at] else vs[j]
  {
    seq(|vs|, j requires 0 <= j < |vs| => if at <= j < at + len && j - at < |written| then written[j - at] else vs[j])
  }

  /** MemClear over the run of len vertices from at. */
  function ZeroFill(vs: seq<Vertex>, at: nat, len: nat): (r: seq<Vertex>)
    requires at + len <= |vs|
    ensures |r| == |vs|
    ensures forall j :: 0 <= j < |vs| ==> r[j] == if at <= j < at + len then ZeroVertex else vs[j]
  {
    seq(|vs|, j requires 0 <= j < |vs| => if at <= j < at + len then ZeroVertex else vs[j])
  }

  /** The index loop over quads offset .. offset + count - 1. */
  function IndexFill(ix: seq<nat>, offset: nat, count: nat): (r: seq<nat>)
    requires 6 * (offset + count) <= |ix|
    ensures |r| == |ix|
    ensures forall j :: 0 <= j < |ix| ==> r[j] == if 6 * offset <= j < 6 * (offset + count) then QuadIndex(j) else ix[j]
  {
    seq(|ix|, j requires 0 <= j < |ix| => if 6 * offset <= j < 6 * (offset + count) then QuadIndex(j) else ix[j])
  }

  lemma DivMod6(a: nat, t: nat)
    requires t < 6
    ensures (6 * a + t) / 6 == a && (6 * a + t) % 6 == t
  {
  }

  /** Index j of quad q is the vertex index 4q + Corner(j - 6q), cast to ushort. */
  lemma QuadIndexAt(q: nat, t: nat)
    requires t < 6
    ensures QuadIndex(6 * q + t) == U16(4 * q + Corner(t))
  {
    DivMod6(q, t);
  }

  /** The six indices of quad q, written one by one, are the quad pattern. */
  lemma QuadIndexRun(q: nat)
    ensures QuadIndex(6 * q) == U16(4 * q) && QuadIndex(6 * q + 1) == U16(4 * q + 1)
    ensures QuadIndex(6 * q + 2) == U16(4 * q + 2) && QuadIndex(6 * q + 3) == U16(4 * q + 1)
    ensures QuadIndex(6 * q + 4) == U16(4 * q + 3) && QuadIndex(6 * q + 5) == U16(4 * q + 2)
  {
    QuadIndexAt(q, 0);
    QuadIndexAt(q, 1);
    QuadIndexAt(q, 2);
    QuadIndexAt(q, 3);
    QuadIndexAt(q, 4);
    QuadIndexAt(q, 5);
  }

  /** The index buffer after the six writes of quad offset + i. */
  function SixWrites(ix: seq<nat>, offset: nat, i: nat): (r: seq<nat>)
    requires 6 * (offset + i + 1) <= |ix|
    ensures |r| == |ix|
  {
    var at, v := (offset + i) * 6, (offset + i) * 4;
    ix[at := U16(v)][at + 1 := U16(v + 1)][at + 2 := U16(v + 2)][at + 3 := U16(v + 1)][at + 4 := U16(v + 3)][at + 5 := U16(v + 2)]
  }

  /** Filling one more quad writes its six indices and nothing else. */
  lemma IndexFillStep(ix: seq<nat>, offset: nat, i: nat)
    requires 6 * (offset + i + 1) <= |ix|
    ensures IndexFill(ix, offset, i + 1) == SixWrites(IndexFill(ix, offset, i), offset, i)
  {
    forall j | 0 <= j < |ix|
      ensures IndexFill(ix, offset, i + 1)[j] == SixWrites(IndexFill(ix, offset, i), offset, i)[j]
    {
      IndexFillStepAt(ix, offset, i, j);
    }
  }

  lemma IndexFillStepAt(ix: seq<nat>, offset: nat, i: nat, j: nat)
    requires 6 * (offset + i + 1) <= |ix| && j < |ix|
    ensures IndexFill(ix, offset, i + 1)[j] == SixWrites(IndexFill(ix, offset, i), offset, i)[j]
  {
    var at := (offset + i) * 6;
    if at <= j < at + 6 {
      QuadIndexAt(offset + i, j - at);
    }
  }

  // ---------------------------------------------------------------- UIRenderJob as functions

  /** A generateMeshData pointer: the vertices it writes, from the start of the node's run, for a node and its rectangle. */
  type MeshFn = (nat, Float4) -> seq<Vertex>

  /**
   * What the job reads: the children buffers, each node's render-quad count,
   * its Visible flag, its runtime header (position and size), its element hash
   * and each element's generateMeshData pointer (which may be missing).
   */
  datatype RenderWorld = RenderWorld(children: Children, quads: seq<nat>, visible: seq<bool>, headers: seq<RuntimeHeader>,
                                     element: seq<u64>, mesh: map<u64, Option<MeshFn>>)

  /** Every node's element is in the table, and a node that is Visible has a generateMeshData pointer. */
  predicate ValidRender(w: RenderWorld)
  {
    |w.quads| == |w.children| && |w.visible| == |w.children| && |w.headers| == |w.children| && |w.element| == |w.children|
    && Forward(w.children)
    && forall n :: 0 <= n < |w.children| ==> w.element[n] in w.mesh && (w.visible[n] ==> w.mesh[w.element[n]].Some?)
  }

  /** The mesh being filled and the two counters passed by reference: the next free quad and the next sub-mesh. */
  datatype MeshState = MeshState(vertices: seq<Vertex>, indices: seq<nat>, subMeshes: seq<SubMeshDescriptor>,
                                 renderBounds: seq<Bounds>, offset: nat, subMesh: nat)

  /** The walk from n stays inside the buffers: its quads and its sub-meshes fit. */
  predicate Fits(w: RenderWorld, s: MeshState, n: nat)
    requires ValidRender(w) && n < |w.children|
  {
    4 * (s.offset + QuadTotal(w.children, w.quads, n)) <= |s.vertices|
    && 6 * (s.offset + QuadTotal(w.children, w.quads, n)) <= |s.indices|
    && s.subMesh + |PreOrder(w.children, n)| <= |s.subMeshes|
    && |s.renderBounds| == |w.children|
  }

  predicate FitsForest(w: RenderWorld, s: MeshState, n: nat, k: nat)
    requires ValidRender(w) && n < |w.children| && k <= |w.children[n]|
  {
    4 * (s.offset + ForestQuads(w.children, w.quads, n, k)) <= |s.vertices|
    && 6 * (s.offset + ForestQuads(w.children, w.quads, n, k)) <= |s.indices|
    && s.subMesh + |Forest(w.children, n, k)| <= |s.subMeshes|
    && |s.renderBounds| == |w.children|
  }

  /** What Render does for node n itself before it turns to the children. */
  function NodeStep(w: RenderWorld, s: MeshState, n: nat, positionOffset: Float2, visible: bool): (r: MeshState)
    requires ValidRender(w) && n < |w.children|
    requires 4 * (s.offset + w.quads[n]) <= |s.vertices| && 6 * (s.offset + w.quads[n]) <= |s.indices|
    requires s.subMesh < |s.subMeshes| && |s.renderBounds| == |w.children|
  {
    var q := w.quads[n];
    var h := w.headers[n];
    var vs := if w.visible[n] && visible
      then Overlay(s.vertices, 4 * s.offset, 4 * q, w.mesh[w.element[n]].value(n, DrawRect(positionOffset, h)))
      else ZeroFill(s.vertices, 4 * s.offset, 4 * q);
    MeshState(vs, IndexFill(s.indices, s.offset, q), s.subMeshes[s.subMesh := Descriptor(s.offset, q, h)],
              s.renderBounds[n := NodeBounds(h)], s.offset + q, s.subMesh + 1)
  }

  /** Render(entity, positionOffset, ref dataOffset, ref subMesh, ..., visible). */
  function RenderSpec(w: RenderWorld, s: MeshState, n: nat, positionOffset: Float2, visible: bool): (r: MeshState)
    requires ValidRender(w) && n < |w.children| && Fits(w, s, n)
    ensures r.offset == s.offset + QuadTotal(w.children, w.quads, n)
    ensures r.subMesh == s.subMesh + |PreOrder(w.children, n)|
    ensures |r.vertices| == |s.vertices| && |r.indices| == |s.indices| && |r.subMeshes| == |s.subMeshes| && |r.renderBounds| == |s.renderBounds|
    decreases |w.children| - n, |w.children[n]| + 1
  {
    var t := NodeStep(w, s, n, positionOffset, visible);
    RenderChildren(w, t, n, Add2(positionOffset, w.headers[n].position), w.visible[n] && visible, |w.children[n]|)
  }

  /** The children loop: the first k children, each with the parent's offset plus its position and the parent's visibility. */
  function RenderChildren(w: RenderWorld, s: MeshState, n: nat, positionOffset: Float2, visible: bool, k: nat): (r: MeshState)
    requires ValidRender(w) && n < |w.children| && k <= |w.children[n]| && FitsForest(w, s, n, k)
    ensures r.offset == s.offset + ForestQuads(w.children, w.quads, n, k)
    ensures r.subMesh == s.subMesh + |Forest(w.children, n, k)|
    ensures |r.vertices| == |s.vertices| && |r.indices| == |s.indices| && |r.subMeshes| == |s.subMeshes| && |r.renderBounds| == |s.renderBounds|
    decreases |w.children| - n, k
  {
    if k == 0 then s
    else RenderSpec(w, RenderChildren(w, s, n, positionOffset, visible, k - 1), w.children[n][k - 1], positionOffset, visible)
  }

  // ---------------------------------------------------------------- UIRenderJob: what a walk writes

  /**
   * The walk from n fills the index run of its quads, [6 * offset, 6 * (offset + total)),
   * with the quad pattern, and leaves every other index as it was.
   */
  lemma {:induction false} RenderIndices(w: RenderWorld, s: MeshState, n: nat, positionOffset: Float2, visible: bool, j: nat)
    requires ValidRender(w) && n < |w.children| && Fits(w, s, n) && j < |s.indices|
    ensures RenderSpec(w, s, n, positionOffset, visible).indices[j]
      == if 6 * s.offset <= j < 6 * (s.offset + QuadTotal(w.children, w.quads, n)) then QuadIndex(j) else s.indices[j]
    decreases |w.children| - n, |w.children[n]| + 1
  {
    var t := NodeStep(w, s, n, positionOffset, visible);
    ChildrenIndices(w, t, n, Add2(positionOffset, w.headers[n].position), w.visible[n] && visible, |w.children[n]|, j);
  }

  lemma {:induction false} ChildrenIndices(w: RenderWorld, s: MeshState, n: nat, positionOffset: Float2, visible: bool, k: nat, j: nat)
    requires ValidRender(w) && n < |w.children| && k <= |w.children[n]| && FitsForest(w, s, n, k) && j < |s.indices|
    ensures RenderChildren(w, s, n, positionOffset, visible, k).indices[j]
      == if 6 * s.offset <= j < 6 * (s.offset + ForestQuads(w.children, w.quads, n, k)) then QuadIndex(j) else s.indices[j]
    decreases |w.children| - n, k
  {
    if k > 0 {
      ChildrenIndices(w, s, n, positionOffset, visible, k - 1, j);
      var p := RenderChildren(w, s, n, positionOffset, visible, k - 1);
      RenderIndices(w, p, w.children[n][k - 1], positionOffset, visible, j);
    }
  }

  /**
   * The walk from n writes only the vertex run of its quads,
   * [4 * offset, 4 * (offset + total)); when it starts hidden that whole run is zero.
   */
  lemma {:induction false} RenderVertices(w: RenderWorld, s: MeshState, n: nat, positionOffset: Float2, visible: bool, j: nat)
    requires ValidRender(w) && n < |w.children| && Fits(w, s, n) && j < |s.vertices|
    ensures !(4 * s.offset <= j < 4 * (s.offset + QuadTotal(w.children, w.quads, n)))
      ==> RenderSpec(w, s, n, positionOffset, visible).vertices[j] == s.vertices[j]
    ensures !visible && 4 * s.offset <= j < 4 * (s.offset + QuadTotal(w.children, w.quads, n))
      ==> RenderSpec(w, s, n, positionOffset, visible).vertices[j] == ZeroVertex
    decreases |w.children| - n, |w.children[n]| + 1
  {
    var t := NodeStep(w, s, n, positionOffset, visible);
    ChildrenVertices(w, t, n, Add2(positionOffset, w.headers[n].position), w.visible[n] && visible, |w.children[n]|, j);
  }

  lemma {:induction false} ChildrenVertices(w: RenderWorld, s: MeshState, n: nat, positionOffset: Float2, visible: bool, k: nat, j: nat)
    requires ValidRender(w) && n < |w.children| && k <= |w.children[n]| && FitsForest(w, s, n, k) && j < |s.vertices|
    ensures !(4 * s.offset <= j < 4 * (s.offset + ForestQuads(w.children, w.quads, n, k)))
      ==> RenderChildren(w, s, n, positionOffset, visible, k).vertices[j] == s.vertices[j]
    ensures !visible && 4 * s.offset <= j < 4 * (s.offset + ForestQuads(w.children, w.quads, n, k))
      ==> RenderChildren(w, s, n, positionOffset, visible, k).vertices[j] == ZeroVertex
    decreases |w.children| - n, k
  {
    if k > 0 {
      ChildrenVertices(w, s, n, positionOffset, visible, k - 1, j);
      var p := RenderChildren(w, s, n, positionOffset, visible, k - 1);
      RenderVertices(w, p, w.children[n][k - 1], positionOffset, visible, j);
    }
  }

  /**
   * A node drawn while visible keeps what its element wrote over its own run:
   * the children's runs come after it.
   */
  lemma OwnVertices(w: RenderWorld, s: MeshState, n: nat, positionOffset: Float2, visible: bool, j: nat)
    requires ValidRender(w) && n < |w.children| && Fits(w, s, n)
    requires w.visible[n] && visible && j < 4 * w.quads[n]
    requires j < |w.mesh[w.element[n]].value(n, DrawRect(positionOffset, w.headers[n]))|
    ensures RenderSpec(w, s, n, positionOffset, visible).vertices[4 * s.offset + j]
      == w.mesh[w.element[n]].value(n, DrawRect(positionOffset, w.headers[n]))[j]
  {
    var t := NodeStep(w, s, n, positionOffset, visible);
    ChildrenVertices(w, t, n, Add2(positionOffset, w.headers[n].position), true, |w.children[n]|, 4 * s.offset + j);
  }

  /**
   * A visible box element with one quad (HBox and VBox generate their mesh with
   * GenerateBoxMesh) gets the four corners of its drawing rectangle inset by its margin.
   */
  lemma BoxDrawn(w: RenderWorld, s: MeshState, n: nat, positionOffset: Float2, visible: bool,
                 margin: Float4, uvData: Float4, color: Color32, k: nat)
    requires ValidRender(w) && n < |w.children| && Fits(w, s, n)
    requires w.visible[n] && visible && w.quads[n] == 1 && k < 4
    requires w.mesh[w.element[n]].value(n, DrawRect(positionOffset, w.headers[n]))
      == BoxQuad(DrawRect(positionOffset, w.headers[n]), margin, uvData, color)
    ensures RenderSpec(w, s, n, positionOffset, visible).vertices[4 * s.offset + k]
      == BoxCorner(DrawRect(positionOffset, w.headers[n]), margin, uvData, color, k)
  {
    OwnVertices(w, s, n, positionOffset, visible, k);
  }

  /**
   * The walk from n sets only the sub-meshes in [subMesh, subMesh + nodes)
   * and gives its first one, n's own, the descriptor of n's run.
   */
  lemma {:induction false} RenderSubMeshes(w: RenderWorld, s: MeshState, n: nat, positionOffset: Float2, visible: bool, j: nat)
    requires ValidRender(w) && n < |w.children| && Fits(w, s, n) && j < |s.subMeshes|
    ensures RenderSpec(w, s, n, positionOffset, visible).subMeshes[s.subMesh] == Descriptor(s.offset, w.quads[n], w.headers[n])
    ensures !(s.subMesh <= j < s.subMesh + |PreOrder(w.children, n)|)
      ==> RenderSpec(w, s, n, positionOffset, visible).subMeshes[j] == s.subMeshes[j]
    decreases |w.children| - n, |w.children[n]| + 1
  {
    var t := NodeStep(w, s, n, positionOffset, visible);
    ChildrenSubMeshes(w, t, n, Add2(positionOffset, w.headers[n].position), w.visible[n] && visible, |w.children[n]|, j);
    ChildrenSubMeshes(w, t, n, Add2(positionOffset, w.headers[n].position), w.visible[n] && visible, |w.children[n]|, s.subMesh);
  }

  lemma {:induction false} ChildrenSubMeshes(w: RenderWorld, s: MeshState, n: nat, positionOffset: Float2, visible: bool, k: nat, j: nat)
    requires ValidRender(w) && n < |w.children| && k <= |w.children[n]| && FitsForest(w, s, n, k) && j < |s.subMeshes|
    ensures !(s.subMesh <= j < s.subMesh + |Forest(w.children, n, k)|)
      ==> RenderChildren(w, s, n, positionOffset, visible, k).subMeshes[j] == s.subMeshes[j]
    decreases |w.children| - n, k
  {
    if k > 0 {
      ChildrenSubMeshes(w, s, n, positionOffset, visible, k - 1, j);
      var p := RenderChildren(w, s, n, positionOffset, visible, k - 1);
      RenderSubMeshes(w, p, w.children[n][k - 1], positionOffset, visible, j);
    }
  }

  /** Every node the walk visits gets its own bounds in RenderBounds; no other node's entry changes. */
  lemma {:induction false} RenderBoundsSet(w: RenderWorld, s: MeshState, n: nat, positionOffset: Float2, visible: bool, m: nat)
    requires ValidRender(w) && n < |w.children| && Fits(w, s, n) && m < |w.children|
    ensures RenderSpec(w, s, n, positionOffset, visible).renderBounds[m]
      == if m in PreOrder(w.children, n) then NodeBounds(w.headers[m]) else s.renderBounds[m]
    decreases |w.children| - n, |w.children[n]| + 1
  {
    var t := NodeStep(w, s, n, positionOffset, visible);
    ChildrenBoundsSet(w, t, n, Add2(positionOffset, w.headers[n].position), w.visible[n] && visible, |w.children[n]|, m);
  }

  lemma {:induction false} ChildrenBoundsSet(w: RenderWorld, s: MeshState, n: nat, positionOffset: Float2, visible: bool, k: nat, m: nat)
    requires ValidRender(w) && n < |w.children| && k <= |w.children[n]| && FitsForest(w, s, n, k) && m < |w.children|
    ensures RenderChildren(w, s, n, positionOffset, visible, k).renderBounds[m]
      == if m in Forest(w.children, n, k) then NodeBounds(w.headers[m]) else s.renderBounds[m]
    decreases |w.children| - n, k
  {
    if k > 0 {
      ChildrenBoundsSet(w, s, n, positionOffset, visible, k - 1, m);
      var p := RenderChildren(w, s, n, positionOffset, visible, k - 1);
      RenderBoundsSet(w, p, w.children[n][k - 1], positionOffset, visible, m);
    }
  }

  /** The children's walks stay inside the buffers the walk from n fits in. */
  lemma {:induction false} ForestQuadsGrow(children: Children, quads: seq<nat>, n: nat, i: nat, k: nat)
    requires Forward(children) && |quads| == |children| && n < |children| && i <= k <= |children[n]|
    ensures ForestQuads(children, quads, n, i) <= ForestQuads(children, quads, n, k)
    ensures |Forest(children, n, i)| <= |Forest(children, n, k)|
    decreases k
  {
    if i < k {
      ForestQuadsGrow(children, quads, n, i, k - 1);
    }
  }

  /**
   * A root's walk over buffers sized to exactly its quads and nodes (4 * total
   * vertices, 6 * total indices, one sub-mesh per node) ends with the counters
   * at the buffer ends, every index written with the quad pattern and the
   * root's sub-mesh first.
   */
  lemma RootMesh(w: RenderWorld, s: MeshState, root: nat, j: nat)
    requires ValidRender(w) && root < |w.children| && s.offset == 0 && s.subMesh == 0
    requires |s.vertices| == 4 * QuadTotal(w.children, w.quads, root) && |s.indices| == 6 * QuadTotal(w.children, w.quads, root)
    requires |s.subMeshes| == NodeCount(w.children, root) && |s.renderBounds| == |w.children|
    requires j < |s.indices|
    ensures var r := RenderSpec(w, s, root, Zero2, true);
      4 * r.offset == |r.vertices| && 6 * r.offset == |r.indices| && r.subMesh == |r.subMeshes|
      && r.indices[j] == QuadIndex(j)
      && r.subMeshes[0] == Descriptor(0, w.quads[root], w.headers[root])
  {
    RenderIndices(w, s, root, Zero2, true, j);
    RenderSubMeshes(w, s, root, Zero2, true, 0);
  }

  /**
   * The ushort cast changes nothing while the mesh has at most 16384 quads
   * (65536 vertices): index j is then vertex 4 * (j / 6) + Corner(j % 6) of the mesh.
   */
  lemma IndicesExact(total: nat, j: nat)
    requires 4 * total <= 65536 && j < 6 * total
    ensures QuadIndex(j) == 4 * (j / 6) + Corner(j % 6) < 4 * total
  {
    assert j / 6 < total;
  }

  /** Beyond 16384 quads the cast wraps: the first index of quad 16384 names vertex 0. */
  lemma IndicesWrap()
    ensures QuadIndex(6 * 16384) == 0
  {
    QuadIndexAt(16384, 0);
  }

  /** The first k children's walks fit wherever all of them do. */
  lemma FitsPrefix(w: RenderWorld, s: MeshState, n: nat, k: nat)
    requires ValidRender(w) && n < |w.children| && k <= |w.children[n]| && FitsForest(w, s, n, |w.children[n]|)
    ensures FitsForest(w, s, n, k)
  {
    ForestQuadsGrow(w.children, w.quads, n, k, |w.children[n]|);
  }

  /** After the first k children, child k's walk fits, and so do the first k + 1. */
  lemma ChildFits(w: RenderWorld, s: MeshState, n: nat, positionOffset: Float2, visible: bool, k: nat)
    requires ValidRender(w) && n < |w.children| && k < |w.children[n]| && FitsForest(w, s, n, |w.children[n]|)
    ensures FitsForest(w, s, n, k) && FitsForest(w, s, n, k + 1)
    ensures Fits(w, RenderChildren(w, s, n, positionOffset, visible, k), w.children[n][k])
  {
    FitsPrefix(w, s, n, k);
    FitsPrefix(w, s, n, k + 1);
  }

  // ---------------------------------------------------------------- the job

  /** generateMeshData's vertices copied over the run of len vertices from at: see Overlay. */
  method WriteElementVertices(vertexData: array<Vertex>, at: nat, len: nat, written: seq<Vertex>)
    requires at + len <= vertexData.Length
    modifies vertexData
    ensures vertexData[..] == Overlay(old(vertexData[..]), at, len, written)
  {
    ghost var v0 := vertexData[..];
    assert v0 == Overlay(v0, at, 0, written);
    var j := 0;
    while j < len
      invariant 0 <= j <= len
      invariant vertexData[..] == Overlay(v0, at, j, written)
    {
      if j < |written| {
        vertexData[at + j] := written[j];
      }
      j := j + 1;
    }
  }

  /** MemClear over the run of len vertices from at: see ZeroFill. */
  method ClearVertices(vertexData: array<Vertex>, at: nat, len: nat)
    requires at + len <= vertexData.Length
    modifies vertexData
    ensures vertexData[..] == ZeroFill(old(vertexData[..]), at, len)
  {
    ghost var v0 := vertexData[..];
    assert v0 == ZeroFill(v0, at, 0);
    var j := 0;
    while j < len
      invariant 0 <= j <= len
      invariant vertexData[..] == ZeroFill(v0, at, j)
    {
      vertexData[at + j] := ZeroVertex;
      j := j + 1;
    }
  }

  /** The index loop: six indices for each of the count quads from offset, see IndexFill. */
  method WriteQuadIndices(indexData: array<nat>, offset: nat, count: nat)
    requires 6 * (offset + count) <= indexData.Length
    modifies indexData
    ensures indexData[..] == IndexFill(old(indexData[..]), offset, count)
  {
    ghost var i0 := indexData[..];
    assert i0 == IndexFill(i0, offset, 0);
    var i := 0;
    while i < count
      invariant 0 <= i <= count
      invariant indexData[..] == IndexFill(i0, offset, i)
    {
      WriteQuad(indexData, offset, i);
      IndexFillStep(i0, offset, i);
      i := i + 1;
    }
  }

  /** The body of the index loop: the six indices of quad offset + i. */
  method WriteQuad(indexData: array<nat>, offset: nat, i: nat)
    requires 6 * (offset + i + 1) <= indexData.Length
    modifies indexData
    ensures indexData[..] == SixWrites(old(indexData[..]), offset, i)
  {
    var at := (offset + i) * 6;
    var v := (offset + i) * 4;
    ghost var c := indexData[..];
    indexData[at] := U16(v);
    c := c[at := U16(v)];
    assert indexData[..] == c;
    indexData[at + 1] := U16(v + 1);
    c := c[at + 1 := U16(v + 1)];
    assert indexData[..] == c;
    indexData[at + 2] := U16(v + 2);
    c := c[at + 2 := U16(v + 2)];
    assert indexData[..] == c;
    indexData[at + 3] := U16(v + 1);
    c := c[at + 3 := U16(v + 1)];
    assert indexData[..] == c;
    indexData[at + 4] := U16(v + 3);
    c := c[at + 4 := U16(v + 3)];
    assert indexData[..] == c;
    indexData[at + 5] := U16(v + 2);
    c := c[at + 5 := U16(v + 2)];
    assert indexData[..] == c;
  }

  class UIRenderJob {
    const world: RenderWorld
    /** RenderBounds of every node, written as the walk reaches it. */
    const renderBounds: array<Bounds>

    ghost predicate Valid()
      reads this
    {
      ValidRender(world) && renderBounds.Length == |world.children|
    }

    constructor (world: RenderWorld, renderBounds: array<Bounds>)
      ensures this.world == world && this.renderBounds == renderBounds
    {
      this.world := world;
      this.renderBounds := renderBounds;
    }

    /** Render's work on node n itself: see NodeStep. */
    method RenderNode(n: nat, positionOffset: Float2, dataOffset: nat, subMesh: nat,
                      vertexData: array<Vertex>, indexData: array<nat>, subMeshes: array<SubMeshDescriptor>, visible: bool)
      requires Valid() && n < |world.children|
      requires 4 * (dataOffset + world.quads[n]) <= vertexData.Length && 6 * (dataOffset + world.quads[n]) <= indexData.Length
      requires subMesh < subMeshes.Length
      modifies vertexData, indexData, subMeshes, renderBounds
      ensures MeshState(vertexData[..], indexData[..], subMeshes[..], renderBounds[..], dataOffset + world.quads[n], subMesh + 1)
        == NodeStep(world, old(MeshState(vertexData[..], indexData[..], subMeshes[..], renderBounds[..], dataOffset, subMesh)), n, positionOffset, visible)
    {
      var q := world.quads[n];
      var h := world.headers[n];
      var info := world.mesh[world.element[n]];
      if world.visible[n] && visible {
        WriteElementVertices(vertexData, 4 * dataOffset, 4 * q, info.value(n, DrawRect(positionOffset, h)));
      } else {
        ClearVertices(vertexData, 4 * dataOffset, 4 * q);
      }
      WriteQuadIndices(indexData, dataOffset, q);
      subMeshes[subMesh] := Descriptor(dataOffset, q, h);
      renderBounds[n] := NodeBounds(h);
    }

    /**
     * Render(entity, positionOffset, ref dataOffset, ref subMesh, ref vertexData, ref indexData, ref meshData, visible):
     * see RenderSpec. The element's vertices are copied over the node's run of 4 * quads
     * vertices; what it does not write keeps its content.
     */
    method Render(n: nat, positionOffset: Float2, dataOffset: nat, subMesh: nat,
                  vertexData: array<Vertex>, indexData: array<nat>, subMeshes: array<SubMeshDescriptor>, visible: bool)
      returns (dataOffset': nat, subMesh': nat)
      requires Valid() && n < |world.children|
      requires Fits(world, MeshState(vertexData[..], indexData[..], subMeshes[..], renderBounds[..], dataOffset, subMesh), n)
      modifies vertexData, indexData, subMeshes, renderBounds
      ensures MeshState(vertexData[..], indexData[..], subMeshes[..], renderBounds[..], dataOffset', subMesh')
        == RenderSpec(world, old(MeshState(vertexData[..], indexData[..], subMeshes[..], renderBounds[..], dataOffset, subMesh)), n, positionOffset, visible)
      decreases |world.children| - n, 1
    {
      ghost var s0 := MeshState(vertexData[..], indexData[..], subMeshes[..], renderBounds[..], dataOffset, subMesh);
      RenderNode(n, positionOffset, dataOffset, subMesh, vertexData, indexData, subMeshes, visible);
      ghost var t := NodeStep(world, s0, n, positionOffset, visible);
      var kids := world.children[n];
      var childOffset := Add2(positionOffset, world.headers[n].position);
      var childVisible := world.visible[n] && visible;
      dataOffset' := dataOffset + world.quads[n];
      subMesh' := subMesh + 1;
      var k := 0;
      FitsPrefix(world, t, n, 0);
      while k < |kids|
        invariant 0 <= k <= |kids| && FitsForest(world, t, n, k)
        invariant MeshState(vertexData[..], indexData[..], subMeshes[..], renderBounds[..], dataOffset', subMesh')
          == RenderChildren(world, t, n, childOffset, childVisible, k)
      {
        dataOffset', subMesh' := RenderChild(n, k, t, childOffset, dataOffset', subMesh', vertexData, indexData, subMeshes, childVisible);
        k := k + 1;
      }
    }

    /** One pass of Render's children loop: child k's walk, after those of the first k children. */
    method RenderChild(n: nat, k: nat, ghost t: MeshState, positionOffset: Float2, dataOffset: nat, subMesh: nat,
                       vertexData: array<Vertex>, indexData: array<nat>, subMeshes: array<SubMeshDescriptor>, visible: bool)
      returns (dataOffset': nat, subMesh': nat)
      requires Valid() && n < |world.children| && k < |world.children[n]| && FitsForest(world, t, n, |world.children[n]|)
      requires FitsForest(world, t, n, k)
      requires MeshState(vertexData[..], indexData[..], subMeshes[..], renderBounds[..], dataOffset, subMesh)
        == RenderChildren(world, t, n, positionOffset, visible, k)
      modifies vertexData, indexData, subMeshes, renderBounds
      ensures FitsForest(world, t, n, k + 1)
      ensures MeshState(vertexData[..], indexData[..], subMeshes[..], renderBounds[..], dataOffset', subMesh')
        == RenderChildren(world, t, n, positionOffset, visible, k + 1)
      decreases |world.children| - n, 0
    {
      ChildFits(world, t, n, positionOffset, visible, k);
      dataOffset', subMesh' := Render(world.children[n][k], positionOffset, dataOffset, subMesh, vertexData, indexData, subMeshes, visible);
    }

    /**
     * Execute, for one root: the mesh's buffers hold 4 * totalQuads vertices,
     * 6 * totalQuads indices and totalNodes sub-meshes, and the walk starts at
     * offset 0, sub-mesh 0, offset (0, 0) and visible.
     */
    method ExecuteRoot(root: nat, totalQuads: nat, totalNodes: nat,
                       vertexData: array<Vertex>, indexData: array<nat>, subMeshes: array<SubMeshDescriptor>)
      requires Valid() && root < |world.children|
      requires QuadTotal(world.children, world.quads, root) <= totalQuads && NodeCount(world.children, root) <= totalNodes
      requires vertexData.Length == 4 * totalQuads && indexData.Length == 6 * totalQuads && subMeshes.Length == totalNodes
      modifies vertexData, indexData, subMeshes, renderBounds
      ensures MeshState(vertexData[..], indexData[..], subMeshes[..], renderBounds[..],
                        QuadTotal(world.children, world.quads, root), NodeCount(world.children, root))
        == RenderSpec(world, old(MeshState(vertexData[..], indexData[..], subMeshes[..], renderBounds[..], 0, 0)), root, Zero2, true)
    {
      var offset, subMesh := Render(root, Zero2, 0, 0, vertexData, indexData, subMeshes, true);
    }
  }
}
