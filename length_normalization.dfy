/**
 * NormalizationJob: for every root of the batch, a pre-order walk over the
 * node tree that writes, into each UILength registered for one of a node's
 * property blocks, its pixel value. A percent length is resolved against
 * the realValue of a reference property on the node itself, its parent or
 * the root.
 *
 * The config buffers are seen through what the walk touches: the headers of
 * every node's blocks (their order is the buffer order) and the UILength
 * values stored in the block payloads, keyed by node, block position and
 * offset. The node tree is the children buffers; nodes are numbered so that
 * a child comes after its parent, as the converter creates them.
 */
module LengthNormalization {
  import opened Bytes
  import opened Floats
  import opened ConfigHandle
  import opened ConfigHandleExtensions
  import opened ElementManager
  import opened UiLength
  import opened NodeTree

  /** Where a UILength sits: the node, the position of its block in the node's buffer, the offset in the block's payload. */
  datatype Loc = Loc(node: nat, block: nat, offset: int)

  type Lengths = map<Loc, UILength>

  /** What the job holds fixed: block headers per node, children per node, the registered infos per block hash, the context's constants. */
  datatype World = World(
    blocks: seq<seq<BlockHeader>>, children: seq<seq<nat>>, info: map<u64, seq<UILengthInfo>>,
    dpi: Float, pixelScale: Float, viewportSize: Float2)

  /** What the walk changes: the stored lengths and the shared context's RelativeTo. */
  datatype State = State(lengths: Lengths, relativeTo: Float)

  const SelfRoot: ReferencePropertyTarget := 5
  const SelfParentRoot: ReferencePropertyTarget := 7

  predicate ValidWorld(w: World)
  {
    |w.blocks| == |w.children| && Forward(w.children)
  }

  /** A node's block headers as the config-buffer scan meets them, at positions 0, 1, ... */
  function Entries(hs: seq<BlockHeader>): (r: seq<Entry>)
    ensures |r| == |hs|
    ensures forall k :: 0 <= k < |hs| ==> r[k] == Entry(k, hs[k])
  {
    seq(|hs|, k requires 0 <= k < |hs| => Entry(k, hs[k]))
  }

  /** The (byte)a & (byte)b of two flag sets. */
  function BitAnd(a: nat, b: nat): nat
    decreases a
  {
    if a == 0 || b == 0 then 0 else (a % 2) * (b % 2) + 2 * BitAnd(a / 2, b / 2)
  }

  // ---------------------------------------------------------------- one length

  /**
   * UIConfigHandle.TryGetProperty followed by ->realValue: the block scan by
   * the property's block hash (headers ignore enabled), then the length at
   * the property's offset. The default handle finds nothing here; the
   * source instead reads through its null pointer (RelativeToAsWritten).
   */
  function Lookup(blocks: seq<seq<BlockHeader>>, lengths: Lengths, handle: Option<nat>, p: UIProperty): (r: Option<Float>)
  {
    if handle.None? || handle.value >= |blocks| then None
    else
      match ScanSpec(Entries(blocks[handle.value]), p.blockHash, false)
      case None => None
      case Some(k) =>
        var loc := Loc(handle.value, k, p.offset);
        if loc in lengths then Some(lengths[loc].realValue) else None
  }

  /** A lookup that succeeds reads a length stored in a block of the handle's node whose hash is the property's. */
  lemma LookupSound(blocks: seq<seq<BlockHeader>>, lengths: Lengths, handle: Option<nat>, p: UIProperty)
    ensures Lookup(blocks, lengths, handle, p).Some? ==>
      handle.Some? && handle.value < |blocks|
      && (exists k :: 0 <= k < |blocks[handle.value]| && blocks[handle.value][k].hash == p.blockHash
            && Loc(handle.value, k, p.offset) in lengths
            && Lookup(blocks, lengths, handle, p).value == lengths[Loc(handle.value, k, p.offset)].realValue)
  {
    if Lookup(blocks, lengths, handle, p).Some? {
      var es := Entries(blocks[handle.value]);
      ScanSpecSound(es, p.blockHash, false);
      var i :| 0 <= i < |es| && Matches(es[i], p.blockHash, false) && es[i].at == ScanSpec(es, p.blockHash, false).value;
      assert es[i] == Entry(i, blocks[handle.value][i]);
    }
  }

  /** The exact switch on the target: Self, Parent or Root pick a handle, anything else the default handle. */
  function ReferenceHandle(target: ReferencePropertyTarget, self: nat, parent: Option<nat>, root: nat): (r: Option<nat>)
    ensures target !in {TargetSelf, TargetParent, TargetRoot} ==> r.None?
  {
    if target == TargetSelf then Some(self)
    else if target == TargetParent then parent
    else if target == TargetRoot then Some(root)
    else None
  }

  /** The RelativeTo the job sets before normalising a length, with the default handle read as "not found" (the corrected behaviour). */
  function RelativeTo(blocks: seq<seq<BlockHeader>>, lengths: Lengths, li: UILengthInfo,
                      self: nat, parent: Option<nat>, root: nat, supported: ReferencePropertyTarget): (r: Float)
  {
    if li.target == TargetNone || !IsCreated(li.referenceProperty) then Zero
    else
      match Lookup(blocks, lengths, ReferenceHandle(li.target, self, parent, root), li.referenceProperty)
      case None => Zero
      case Some(v) => if BitAnd(li.target, supported) == 0 then Zero else v
  }

  /**
   * RelativeTo as the source computes it: the condition checks the target and
   * IsCreated, then calls TryGetProperty on the reference handle, and only
   * then the supported mask. The handle is the default (null) one for a
   * Parent target at a root and for a target outside Self, Parent and Root,
   * and TryGetProperty then reads the block count through the null pointer:
   * None stands for that null dereference.
   */
  function RelativeToAsWritten(blocks: seq<seq<BlockHeader>>, lengths: Lengths, li: UILengthInfo,
                               self: nat, parent: Option<nat>, root: nat, supported: ReferencePropertyTarget): (r: Option<Float>)
  {
    if li.target == TargetNone || !IsCreated(li.referenceProperty) then Some(Zero)
    else if ReferenceHandle(li.target, self, parent, root).None? then None
    else Some(RelativeTo(blocks, lengths, li, self, parent, root, supported))
  }

  /** As written, a Parent reference on a root dereferences the null parent handle before the supported mask could refuse it. */
  lemma ParentAtRootDereferencesNull(blocks: seq<seq<BlockHeader>>, lengths: Lengths, li: UILengthInfo, self: nat, root: nat)
    requires li.target == TargetParent && IsCreated(li.referenceProperty)
    ensures RelativeToAsWritten(blocks, lengths, li, self, None, root, SelfRoot).None?
  {
  }

  /** As written, a combined target such as Self|Parent dereferences the default handle. */
  lemma CombinedTargetDereferencesNull(blocks: seq<seq<BlockHeader>>, lengths: Lengths, li: UILengthInfo,
                                        self: nat, parent: Option<nat>, root: nat, supported: ReferencePropertyTarget)
    requires li.target !in {TargetNone, TargetSelf, TargetParent, TargetRoot} && IsCreated(li.referenceProperty)
    ensures RelativeToAsWritten(blocks, lengths, li, self, parent, root, supported).None?
  {
  }

  /** Wherever the source does not dereference a null handle, it computes the model's RelativeTo. */
  lemma AsWrittenAgrees(blocks: seq<seq<BlockHeader>>, lengths: Lengths, li: UILengthInfo,
                        self: nat, parent: Option<nat>, root: nat, supported: ReferencePropertyTarget)
    ensures var w := RelativeToAsWritten(blocks, lengths, li, self, parent, root, supported);
            (w.None? <==> li.target != TargetNone && IsCreated(li.referenceProperty)
                          && ReferenceHandle(li.target, self, parent, root).None?)
            && (w.Some? ==> w.value == RelativeTo(blocks, lengths, li, self, parent, root, supported))
  {
  }

  /** RelativeTo is the referenced realValue exactly when the reference resolves and its target is supported; otherwise 0. */
  lemma RelativeToCases(blocks: seq<seq<BlockHeader>>, lengths: Lengths, li: UILengthInfo,
                        self: nat, parent: Option<nat>, root: nat, supported: ReferencePropertyTarget)
    ensures var found := Lookup(blocks, lengths, ReferenceHandle(li.target, self, parent, root), li.referenceProperty);
      RelativeTo(blocks, lengths, li, self, parent, root, supported)
        == if li.target != TargetNone && IsCreated(li.referenceProperty) && found.Some? && BitAnd(li.target, supported) != 0
           then found.value else Zero
  {
  }

  /** Corrected: a target that combines flags, or names none of Self, Parent and Root, looks up nothing: RelativeTo is 0. */
  lemma CombinedTargetIsZero(blocks: seq<seq<BlockHeader>>, lengths: Lengths, li: UILengthInfo,
                             self: nat, parent: Option<nat>, root: nat, supported: ReferencePropertyTarget)
    requires li.target !in {TargetSelf, TargetParent, TargetRoot}
    ensures RelativeTo(blocks, lengths, li, self, parent, root, supported) == Zero
  {
  }

  /** Corrected: a Parent reference on the root has no parent to read: RelativeTo is 0, as the root's supported mask intends. */
  lemma ParentAtRootIsZero(blocks: seq<seq<BlockHeader>>, lengths: Lengths, li: UILengthInfo, self: nat, root: nat)
    requires li.target == TargetParent
    ensures RelativeTo(blocks, lengths, li, self, None, root, SelfRoot) == Zero
  {
  }

  /** The supported set of the root, Self|Root, refuses a Parent reference even where a parent handle is given. */
  lemma ParentUnsupportedAtRoot(blocks: seq<seq<BlockHeader>>, lengths: Lengths, li: UILengthInfo,
                                self: nat, parent: Option<nat>, root: nat)
    requires li.target == TargetParent
    ensures RelativeTo(blocks, lengths, li, self, parent, root, SelfRoot) == Zero
  {
    assert BitAnd(2, 5) == 0;
  }

  /** Below the root everything is supported: a Self, Parent or Root reference that resolves yields its realValue. */
  lemma ChildReadsReference(blocks: seq<seq<BlockHeader>>, lengths: Lengths, li: UILengthInfo,
                            self: nat, parent: Option<nat>, root: nat)
    requires li.target in {TargetSelf, TargetParent, TargetRoot} && IsCreated(li.referenceProperty)
    requires Lookup(blocks, lengths, ReferenceHandle(li.target, self, parent, root), li.referenceProperty).Some?
    ensures RelativeTo(blocks, lengths, li, self, parent, root, SelfParentRoot)
         == Lookup(blocks, lengths, ReferenceHandle(li.target, self, parent, root), li.referenceProperty).value
  {
    assert BitAnd(1, 7) == 1 && BitAnd(2, 7) == 2 && BitAnd(4, 7) == 4;
  }

  // ---------------------------------------------------------------- the walk as functions

  function Context(w: World, relativeTo: Float): LengthContext
  {
    LengthContext(w.dpi, w.pixelScale, w.viewportSize, relativeTo)
  }

  /** One length info applied to block k of node self: set RelativeTo, then realValue := Normalize. */
  function ApplyInfo(w: World, s: State, self: nat, parent: Option<nat>, root: nat,
                     supported: ReferencePropertyTarget, k: nat, li: UILengthInfo): (r: State)
  {
    var rel := RelativeTo(w.blocks, s.lengths, li, self, parent, root, supported);
    var loc := Loc(self, k, li.property.offset);
    if loc in s.lengths then
      var l := s.lengths[loc];
      State(s.lengths[loc := l.(realValue := Normalize(l, Context(w, rel)))], rel)
    else
      State(s.lengths, rel)
  }

  /** The infos registered for a block hash, in the multi-map's order; none when the hash has none. */
  function Infos(w: World, hash: u64): seq<UILengthInfo>
  {
    if hash in w.info then w.info[hash] else []
  }

  /** The infos of one block applied in order. */
  function ApplyInfos(w: World, s: State, self: nat, parent: Option<nat>, root: nat,
                      supported: ReferencePropertyTarget, k: nat, infos: seq<UILengthInfo>): (r: State)
    decreases |infos|
  {
    if infos == [] then s
    else
      var before := ApplyInfos(w, s, self, parent, root, supported, k, infos[..|infos| - 1]);
      ApplyInfo(w, before, self, parent, root, supported, k, infos[|infos| - 1])
  }

  /** The first n blocks of node self, in buffer order. */
  function ApplyBlocks(w: World, s: State, self: nat, parent: Option<nat>, root: nat,
                       supported: ReferencePropertyTarget, n: nat): (r: State)
    requires self < |w.blocks| && n <= |w.blocks[self]|
  {
    if n == 0 then s
    else
      var before := ApplyBlocks(w, s, self, parent, root, supported, n - 1);
      ApplyInfos(w, before, self, parent, root, supported, n - 1, Infos(w, w.blocks[self][n - 1].hash))
  }

  /** Normalize(node, ...): the node's own blocks, then each child with parent = node and supported = Self|Parent|Root. */
  function Walk(w: World, s: State, node: nat, parent: Option<nat>, root: nat, supported: ReferencePropertyTarget): (r: State)
    requires ValidWorld(w) && node < |w.children|
    decreases |w.children| - node, 1, 0
  {
    var own := ApplyBlocks(w, s, node, parent, root, supported, |w.blocks[node]|);
    WalkChildren(w, own, node, root, |w.children[node]|)
  }

  /** The walks of the first c children of node, in child order. */
  function WalkChildren(w: World, s: State, node: nat, root: nat, c: nat): (r: State)
    requires ValidWorld(w) && node < |w.children| && c <= |w.children[node]|
    decreases |w.children| - node, 0, c
  {
    if c == 0 then s
    else Walk(w, WalkChildren(w, s, node, root, c - 1), w.children[node][c - 1], Some(node), root, SelfParentRoot)
  }

  /** Execute: the roots of the batch in order, each with the default parent and Self|Root, one context throughout. */
  function WalkRoots(w: World, s: State, roots: seq<nat>): (r: State)
    requires ValidWorld(w) && forall i :: 0 <= i < |roots| ==> roots[i] < |w.children|
  {
    if roots == [] then s
    else
      var last := roots[|roots| - 1];
      Walk(w, WalkRoots(w, s, roots[..|roots| - 1]), last, None, last, SelfRoot)
  }

  // ---------------------------------------------------------------- pre-order

  /** A visit of the walk: the node, the parent handle it is given and its supported set. */
  datatype Visit = Visit(node: nat, parent: Option<nat>, supported: ReferencePropertyTarget)

  /** The visits of the walk from node, in order. */
  function PreOrder(children: seq<seq<nat>>, node: nat, parent: Option<nat>, supported: ReferencePropertyTarget): (r: seq<Visit>)
    requires Forward(children) && node < |children|
    ensures |r| >= 1 && r[0] == Visit(node, parent, supported)
    decreases |children| - node, 1, 0
  {
    [Visit(node, parent, supported)] + ChildOrder(children, node, |children[node]|)
  }

  /** The visits of the subtrees of the first c children of node. */
  function ChildOrder(children: seq<seq<nat>>, node: nat, c: nat): (r: seq<Visit>)
    requires Forward(children) && node < |children| && c <= |children[node]|
    decreases |children| - node, 0, c
  {
    if c == 0 then []
    else ChildOrder(children, node, c - 1) + PreOrder(children, children[node][c - 1], Some(node), SelfParentRoot)
  }

  /** A visit below the top one: Self|Parent|Root, and the parent handle is a node that lists it as a child. */
  ghost predicate ChildVisit(children: seq<seq<nat>>, v: Visit)
  {
    v.supported == SelfParentRoot && v.parent.Some? && v.parent.value < |children| && v.node in children[v.parent.value]
  }

  /** Every visit is of a node of the subtree, numbered from node on; all but the first are child visits. */
  lemma {:induction false} PreOrderVisits(children: seq<seq<nat>>, node: nat, parent: Option<nat>, supported: ReferencePropertyTarget)
    requires Forward(children) && node < |children|
    ensures forall i :: 0 <= i < |PreOrder(children, node, parent, supported)| ==>
      node <= PreOrder(children, node, parent, supported)[i].node < |children|
    ensures forall i :: 1 <= i < |PreOrder(children, node, parent, supported)| ==>
      ChildVisit(children, PreOrder(children, node, parent, supported)[i])
    decreases |children| - node, 1, 0
  {
    var r := PreOrder(children, node, parent, supported);
    var t := ChildOrder(children, node, |children[node]|);
    ChildOrderVisits(children, node, |children[node]|);
    forall i | 1 <= i < |r|
      ensures node <= r[i].node < |children| && ChildVisit(children, r[i])
    {
      assert r[i] == t[i - 1];
    }
  }

  lemma {:induction false} ChildOrderVisits(children: seq<seq<nat>>, node: nat, c: nat)
    requires Forward(children) && node < |children| && c <= |children[node]|
    ensures forall i :: 0 <= i < |ChildOrder(children, node, c)| ==>
      node < ChildOrder(children, node, c)[i].node < |children| && ChildVisit(children, ChildOrder(children, node, c)[i])
    decreases |children| - node, 0, c
  {
    if c > 0 {
      var child := children[node][c - 1];
      ChildOrderVisits(children, node, c - 1);
      PreOrderVisits(children, child, Some(node), SelfParentRoot);
      var a := ChildOrder(children, node, c - 1);
      var b := PreOrder(children, child, Some(node), SelfParentRoot);
      assert children[node][c - 1] in children[node];
      assert ChildVisit(children, b[0]);
      var r := ChildOrder(children, node, c);
      assert r == a + b;
      forall i | 0 <= i < |r|
        ensures node < r[i].node < |children| && ChildVisit(children, r[i])
      {
        if i >= |a| {
          assert r[i] == b[i - |a|];
        }
      }
    }
  }

  /** The node's own blocks at a visit. */
  function VisitBlocks(w: World, s: State, root: nat, v: Visit): State
  {
    if v.node < |w.blocks| then ApplyBlocks(w, s, v.node, v.parent, root, v.supported, |w.blocks[v.node]|) else s
  }

  /** The visits applied in order. */
  function Visits(w: World, s: State, root: nat, vs: seq<Visit>): State
    decreases |vs|
  {
    if vs == [] then s
    else VisitBlocks(w, Visits(w, s, root, vs[..|vs| - 1]), root, vs[|vs| - 1])
  }

  lemma {:induction false} VisitsAppend(w: World, s: State, root: nat, a: seq<Visit>, b: seq<Visit>)
    ensures Visits(w, s, root, a + b) == Visits(w, Visits(w, s, root, a), root, b)
    decreases |b|
  {
    if b != [] {
      var ab := a + b;
      assert ab[..|ab| - 1] == a + b[..|b| - 1];
      VisitsAppend(w, s, root, a, b[..|b| - 1]);
    } else {
      assert a + b == a;
    }
  }

  /**
   * The walk is pre-order: it is the node's own blocks at each visit of
   * PreOrder, applied one after the other.
   */
  lemma {:induction false} WalkIsPreOrder(w: World, s: State, node: nat, parent: Option<nat>, root: nat, supported: ReferencePropertyTarget)
    requires ValidWorld(w) && node < |w.children|
    ensures Walk(w, s, node, parent, root, supported) == Visits(w, s, root, PreOrder(w.children, node, parent, supported))
    decreases |w.children| - node, 1, 0
  {
    var head := [Visit(node, parent, supported)];
    var tail := ChildOrder(w.children, node, |w.children[node]|);
    assert Visits(w, s, root, head) == VisitBlocks(w, s, root, head[0]) by {
      assert head[..0] == [];
    }
    VisitsAppend(w, s, root, head, tail);
    WalkChildrenIsChildOrder(w, VisitBlocks(w, s, root, head[0]), node, root, |w.children[node]|);
  }

  lemma {:induction false} WalkChildrenIsChildOrder(w: World, s: State, node: nat, root: nat, c: nat)
    requires ValidWorld(w) && node < |w.children| && c <= |w.children[node]|
    ensures WalkChildren(w, s, node, root, c) == Visits(w, s, root, ChildOrder(w.children, node, c))
    decreases |w.children| - node, 0, c
  {
    if c > 0 {
      var child := w.children[node][c - 1];
      WalkChildrenIsChildOrder(w, s, node, root, c - 1);
      var mid := WalkChildren(w, s, node, root, c - 1);
      WalkIsPreOrder(w, mid, child, Some(node), root, SelfParentRoot);
      VisitsAppend(w, s, root, ChildOrder(w.children, node, c - 1), PreOrder(w.children, child, Some(node), SelfParentRoot));
    }
  }

  /** The root's visit comes first, with the default parent handle and Self|Root. */
  lemma RootVisitFirst(children: seq<seq<nat>>, root: nat)
    requires Forward(children) && root < |children|
    ensures PreOrder(children, root, None, SelfRoot)[0] == Visit(root, None, SelfRoot)
  {
  }

  /** Each child of the root is visited, with parent = the root and supported = Self|Parent|Root, right after the subtrees of the children before it. */
  lemma {:induction false} ChildVisitPosition(children: seq<seq<nat>>, node: nat, parent: Option<nat>, supported: ReferencePropertyTarget, c: nat)
    requires Forward(children) && node < |children| && c < |children[node]|
    ensures var r := PreOrder(children, node, parent, supported);
      var at := 1 + |ChildOrder(children, node, c)|;
      at < |r| && r[at] == Visit(children[node][c], Some(node), SelfParentRoot)
  {
    var before := ChildOrder(children, node, c);
    var sub := PreOrder(children, children[node][c], Some(node), SelfParentRoot);
    var upto := ChildOrder(children, node, c + 1);
    assert upto == before + sub;
    ChildOrderPrefix(children, node, c + 1, |children[node]|);
    var all := ChildOrder(children, node, |children[node]|);
    assert upto == all[..|upto|];
    assert all[|before|] == upto[|before|] == sub[0];
  }

  lemma {:induction false} ChildOrderPrefix(children: seq<seq<nat>>, node: nat, c: nat, d: nat)
    requires Forward(children) && node < |children| && c <= d <= |children[node]|
    ensures var a := ChildOrder(children, node, c);
      var b := ChildOrder(children, node, d);
      |a| <= |b| && a == b[..|a|]
    decreases d - c
  {
    if c < d {
      ChildOrderPrefix(children, node, c, d - 1);
      var b := ChildOrder(children, node, d);
      var b1 := ChildOrder(children, node, d - 1);
      assert b == b1 + PreOrder(children, children[node][d - 1], Some(node), SelfParentRoot);
      assert b[..|b1|] == b1;
    }
  }

  // ---------------------------------------------------------------- what the walk leaves alone

  /**
   * From a to b only realValues of nodes in [lo, hi) change: the same
   * locations, every raw value and unit kept, every length outside the range
   * kept whole.
   */
  ghost predicate Frame(a: Lengths, b: Lengths, lo: nat, hi: nat)
  {
    a.Keys == b.Keys
    && (forall loc :: loc in a ==> b[loc].value == a[loc].value && b[loc].unit == a[loc].unit)
    && forall loc :: loc in a && (loc.node < lo || loc.node >= hi) ==> b[loc] == a[loc]
  }

  lemma FrameTrans(a: Lengths, b: Lengths, c: Lengths, lo: nat, lo2: nat, hi: nat, hi2: nat)
    requires lo <= lo2 && hi2 <= hi
    requires Frame(a, b, lo, hi) && Frame(b, c, lo2, hi2)
    ensures Frame(a, c, lo, hi)
  {
  }

  lemma FrameWiden(a: Lengths, b: Lengths, lo: nat, hi: nat, lo2: nat, hi2: nat)
    requires lo2 <= lo && hi <= hi2
    requires Frame(a, b, lo, hi)
    ensures Frame(a, b, lo2, hi2)
  {
  }

  lemma ApplyInfoFrame(w: World, s: State, self: nat, parent: Option<nat>, root: nat,
                       supported: ReferencePropertyTarget, k: nat, li: UILengthInfo)
    ensures Frame(s.lengths, ApplyInfo(w, s, self, parent, root, supported, k, li).lengths, self, self + 1)
  {
  }

  lemma {:induction false} ApplyInfosFrame(w: World, s: State, self: nat, parent: Option<nat>, root: nat,
                                           supported: ReferencePropertyTarget, k: nat, infos: seq<UILengthInfo>)
    ensures Frame(s.lengths, ApplyInfos(w, s, self, parent, root, supported, k, infos).lengths, self, self + 1)
    decreases |infos|
  {
    if infos != [] {
      var before := ApplyInfos(w, s, self, parent, root, supported, k, infos[..|infos| - 1]);
      ApplyInfosFrame(w, s, self, parent, root, supported, k, infos[..|infos| - 1]);
      ApplyInfoFrame(w, before, self, parent, root, supported, k, infos[|infos| - 1]);
      FrameTrans(s.lengths, before.lengths, ApplyInfo(w, before, self, parent, root, supported, k, infos[|infos| - 1]).lengths,
                 self, self, self + 1, self + 1);
    }
  }

  lemma {:induction false} ApplyBlocksFrame(w: World, s: State, self: nat, parent: Option<nat>, root: nat,
                                            supported: ReferencePropertyTarget, n: nat)
    requires self < |w.blocks| && n <= |w.blocks[self]|
    ensures Frame(s.lengths, ApplyBlocks(w, s, self, parent, root, supported, n).lengths, self, self + 1)
  {
    if n > 0 {
      var before := ApplyBlocks(w, s, self, parent, root, supported, n - 1);
      var infos := Infos(w, w.blocks[self][n - 1].hash);
      ApplyBlocksFrame(w, s, self, parent, root, supported, n - 1);
      ApplyInfosFrame(w, before, self, parent, root, supported, n - 1, infos);
      FrameTrans(s.lengths, before.lengths, ApplyInfos(w, before, self, parent, root, supported, n - 1, infos).lengths,
                 self, self, self + 1, self + 1);
    }
  }

  lemma ChildAfterParent(w: World, node: nat, i: nat)
    requires ValidWorld(w) && node < |w.children| && i < |w.children[node]|
    ensures node < w.children[node][i] < |w.children|
  {
  }

  /** The walk from node writes the realValues of node and the nodes numbered after it, and nothing else. */
  lemma {:induction false} WalkFrame(w: World, s: State, node: nat, parent: Option<nat>, root: nat, supported: ReferencePropertyTarget)
    requires ValidWorld(w) && node < |w.children|
    ensures Frame(s.lengths, Walk(w, s, node, parent, root, supported).lengths, node, |w.children|)
    decreases |w.children| - node, 1, 0
  {
    var own := ApplyBlocks(w, s, node, parent, root, supported, |w.blocks[node]|);
    var after := WalkChildren(w, own, node, root, |w.children[node]|);
    ApplyBlocksFrame(w, s, node, parent, root, supported, |w.blocks[node]|);
    WalkChildrenFrame(w, own, node, root, |w.children[node]|);
    FrameWiden(s.lengths, own.lengths, node, node + 1, node, |w.children|);
    FrameWiden(own.lengths, after.lengths, node + 1, |w.children|, node, |w.children|);
    FrameTrans(s.lengths, own.lengths, after.lengths, node, node, |w.children|, |w.children|);
  }

  lemma {:induction false} WalkChildrenFrame(w: World, s: State, node: nat, root: nat, c: nat)
    requires ValidWorld(w) && node < |w.children| && c <= |w.children[node]|
    ensures Frame(s.lengths, WalkChildren(w, s, node, root, c).lengths, node + 1, |w.children|)
    decreases |w.children| - node, 0, c
  {
    if c > 0 {
      var child := w.children[node][c - 1];
      var mid := WalkChildren(w, s, node, root, c - 1);
      var after := Walk(w, mid, child, Some(node), root, SelfParentRoot);
      WalkChildrenFrame(w, s, node, root, c - 1);
      WalkFrame(w, mid, child, Some(node), root, SelfParentRoot);
      ChildAfterParent(w, node, c - 1);
      FrameTrans(s.lengths, mid.lengths, after.lengths, node + 1, child, |w.children|, |w.children|);
      assert WalkChildren(w, s, node, root, c) == after;
    }
  }

  /** A whole pass writes realValues only: the raw values and units of every stored length stay, and no length appears or goes. */
  lemma {:induction false} WalkRootsFrame(w: World, s: State, roots: seq<nat>)
    requires ValidWorld(w) && forall i :: 0 <= i < |roots| ==> roots[i] < |w.children|
    ensures Frame(s.lengths, WalkRoots(w, s, roots).lengths, 0, |w.children|)
  {
    if roots != [] {
      var last := roots[|roots| - 1];
      var mid := WalkRoots(w, s, roots[..|roots| - 1]);
      WalkRootsFrame(w, s, roots[..|roots| - 1]);
      WalkFrame(w, mid, last, None, last, SelfRoot);
      FrameTrans(s.lengths, mid.lengths, WalkRoots(w, s, roots).lengths, 0, last, |w.children|, |w.children|);
    }
  }

  // ---------------------------------------------------------------- the job

  class NormalizationJob {
    const blocks: seq<seq<BlockHeader>>
    const children: seq<seq<nat>>
    const normalizationInfo: map<u64, seq<UILengthInfo>>
    /** The context's Dpi, PixelScale and viewport: fixed for the whole pass. */
    const dpi: Float
    const pixelScale: Float
    const viewportSize: Float2
    /** The lengths stored in the config buffers. */
    var lengths: Lengths
    /** The shared context's RelativeTo. */
    var relativeTo: Float

    function Fixed(): World
    {
      World(blocks, children, normalizationInfo, dpi, pixelScale, viewportSize)
    }

    function Current(): State
      reads this
    {
      State(lengths, relativeTo)
    }

    constructor (blocks: seq<seq<BlockHeader>>, children: seq<seq<nat>>, normalizationInfo: map<u64, seq<UILengthInfo>>,
                 dpi: Float, pixelScale: Float, viewportSize: Float2, lengths: Lengths)
      ensures Fixed() == World(blocks, children, normalizationInfo, dpi, pixelScale, viewportSize)
      ensures Current() == State(lengths, Zero)
    {
      this.blocks := blocks;
      this.children := children;
      this.normalizationInfo := normalizationInfo;
      this.dpi := dpi;
      this.pixelScale := pixelScale;
      this.viewportSize := viewportSize;
      this.lengths := lengths;
      this.relativeTo := Zero;
    }

    /** The body of the do-while: the length at block k plus the info's offset, through the reference rules. */
    method ApplyLength(self: nat, parent: Option<nat>, root: nat, supported: ReferencePropertyTarget, k: nat, li: UILengthInfo)
      modifies this
      ensures Current() == ApplyInfo(Fixed(), old(Current()), self, parent, root, supported, k, li)
    {
      relativeTo := RelativeTo(blocks, lengths, li, self, parent, root, supported);
      var loc := Loc(self, k, li.property.offset);
      if loc in lengths {
        var l := lengths[loc];
        lengths := lengths[loc := l.(realValue := UiLength.Normalize(l, LengthContext(dpi, pixelScale, viewportSize, relativeTo)))];
      }
    }

    /** Every info registered for block k's hash, in order. */
    method ApplyBlock(self: nat, parent: Option<nat>, root: nat, supported: ReferencePropertyTarget, k: nat)
      requires self < |blocks| && k < |blocks[self]|
      modifies this
      ensures Current() == ApplyInfos(Fixed(), old(Current()), self, parent, root, supported, k, Infos(Fixed(), blocks[self][k].hash))
    {
      var hash := blocks[self][k].hash;
      if hash !in normalizationInfo {
        return;
      }
      var infos := normalizationInfo[hash];
      var j := 0;
      while j < |infos|
        invariant 0 <= j <= |infos|
        invariant Current() == ApplyInfos(Fixed(), old(Current()), self, parent, root, supported, k, infos[..j])
      {
        assert infos[..j + 1][..j] == infos[..j];
        ApplyLength(self, parent, root, supported, k, infos[j]);
        j := j + 1;
      }
      assert infos[..j] == infos;
    }

    /** Normalize: the node's blocks, then the children in order. */
    method Normalize(node: nat, parent: Option<nat>, root: nat, supported: ReferencePropertyTarget)
      requires ValidWorld(Fixed()) && node < |children|
      modifies this
      ensures Current() == Walk(Fixed(), old(Current()), node, parent, root, supported)
      decreases |children| - node
    {
      var k := 0;
      while k < |blocks[node]|
        invariant 0 <= k <= |blocks[node]|
        invariant Current() == ApplyBlocks(Fixed(), old(Current()), node, parent, root, supported, k)
      {
        ApplyBlock(node, parent, root, supported, k);
        k := k + 1;
      }
      ghost var own := Current();
      var c := 0;
      while c < |children[node]|
        invariant 0 <= c <= |children[node]|
        invariant Current() == WalkChildren(Fixed(), own, node, root, c)
      {
        Normalize(children[node][c], Some(node), root, SelfParentRoot);
        c := c + 1;
      }
    }

    /** Execute: a fresh context (RelativeTo 0), then each root of the batch with Self|Root. */
    method Execute(roots: seq<nat>)
      requires ValidWorld(Fixed()) && forall i :: 0 <= i < |roots| ==> roots[i] < |children|
      modifies this
      ensures Current() == WalkRoots(Fixed(), State(old(lengths), Zero), roots)
    {
      relativeTo := Zero;
      var i := 0;
      while i < |roots|
        invariant 0 <= i <= |roots|
        invariant Current() == WalkRoots(Fixed(), State(old(lengths), Zero), roots[..i])
      {
        assert roots[..i + 1][..i] == roots[..i];
        Normalize(roots[i], None, roots[i], SelfRoot);
        i := i + 1;
      }
      assert roots[..i] == roots;
    }
  }
}
