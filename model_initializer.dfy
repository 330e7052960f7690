/**
 * The model-property initializer (UIValueNodeBindingInitializer.Initialize):
 * a node bound to a model property is bound to the entity of its nearest
 * ancestor that carries the target component. The search walks the parent
 * indices of the imported view from the node's parent up to the root.
 */
module ModelInitializer {
  import opened Bytes
  import ViewImporter

  type Entity = nat

  /** Every parent index points before its node (or is negative), as the view importer lays nodes out. */
  predicate ParentsBefore(parents: seq<int>)
  {
    forall i :: 0 <= i < |parents| ==> parents[i] < i
  }

  /** `a` lies on the parent chain that starts at position p (p itself included). */
  predicate OnChain(parents: seq<int>, a: int, p: int)
    requires ParentsBefore(parents) && p < |parents|
    decreases p + 1
  {
    p >= 0 && (a == p || OnChain(parents, a, parents[p]))
  }

  /** The first position on the chain from p whose entity has the component. */
  function Search(parents: seq<int>, entities: seq<Entity>, holders: set<Entity>, p: int): (r: Option<nat>)
    requires ParentsBefore(parents) && p < |parents| && |entities| == |parents|
    ensures r.Some? ==> r.value <= p && entities[r.value] in holders
    decreases p + 1
  {
    if p < 0 then None
    else if entities[p] in holders then Some(p)
    else Search(parents, entities, holders, parents[p])
  }

  /** The binding target of node `index`: the search starts at its parent, not at the node. */
  function NearestAncestor(parents: seq<int>, entities: seq<Entity>, holders: set<Entity>, index: nat): Option<nat>
    requires ParentsBefore(parents) && index < |parents| && |entities| == |parents|
  {
    Search(parents, entities, holders, parents[index])
  }

  /** Positions on a chain are between 0 and its start. */
  lemma {:induction false} ChainBounds(parents: seq<int>, a: int, p: int)
    requires ParentsBefore(parents) && p < |parents| && OnChain(parents, a, p)
    ensures 0 <= a <= p
    decreases p + 1
  {
    if a != p {
      ChainBounds(parents, a, parents[p]);
    }
  }

  /**
   * The search finds a position on the chain whose entity has the component,
   * and no position between it and the start of the chain has it; when it
   * finds nothing, no position on the chain has it.
   */
  lemma {:induction false} SearchNearest(parents: seq<int>, entities: seq<Entity>, holders: set<Entity>, p: int)
    requires ParentsBefore(parents) && p < |parents| && |entities| == |parents|
    ensures var r := Search(parents, entities, holders, p);
            (r.Some? ==> r.value <= p && OnChain(parents, r.value, p) && entities[r.value] in holders
                         && forall b :: r.value < b <= p && OnChain(parents, b, p) ==> entities[b] !in holders)
            && (r.None? ==> forall b :: 0 <= b <= p && OnChain(parents, b, p) ==> entities[b] !in holders)
    decreases p + 1
  {
    if p >= 0 && entities[p] !in holders {
      var q := parents[p];
      SearchNearest(parents, entities, holders, q);
      forall b | 0 <= b <= p && OnChain(parents, b, p) && b != p
        ensures b <= q && OnChain(parents, b, q)
      {
        ChainBounds(parents, b, q);
      }
    }
  }

  /**
   * The node is bound to an ancestor that has the component and is the
   * nearest such ancestor, never to itself; with no such ancestor it is not
   * bound at all.
   */
  lemma NearestAncestorSound(parents: seq<int>, entities: seq<Entity>, holders: set<Entity>, index: nat)
    requires ParentsBefore(parents) && index < |parents| && |entities| == |parents|
    ensures var r := NearestAncestor(parents, entities, holders, index);
            var up := parents[index];
            (r.Some? ==> r.value < index && OnChain(parents, r.value, up) && entities[r.value] in holders
                         && forall b :: r.value < b < index && OnChain(parents, b, up) ==> entities[b] !in holders)
            && (r.None? ==> forall b :: 0 <= b < index && OnChain(parents, b, up) ==> entities[b] !in holders)
  {
    var up := parents[index];
    SearchNearest(parents, entities, holders, up);
    forall b | 0 <= b < index && OnChain(parents, b, up)
      ensures b <= up
    {
      ChainBounds(parents, b, up);
    }
  }

  /** The parent indices of a view's nodes (viewAsset[i].parentIndex). */
  function ParentIndices(t: seq<ViewImporter.Node>): seq<int>
  {
    seq(|t|, i requires 0 <= i < |t| => t[i].parentIndex)
  }

  /** An imported view meets the search's demand: every parent index points before its node. */
  lemma ImportedParentsBefore(t: seq<ViewImporter.Node>)
    requires ViewImporter.Forest(t, 0, -1, [0])
    ensures ParentsBefore(ParentIndices(t))
  {
    assert ViewImporter.ParentsEarlier(t, 0, -1);
  }

  /** The binding component (UIValueNodeComponentBinding / UIValueNodeBufferBinding) of each bound entity. */
  class Bindings {
    var value: map<Entity, Entity>

    constructor()
      ensures value == map[]
    {
      value := map[];
    }
  }

  /**
   * Initialize: walk up from the node's parent; at the first entity with the
   * target component, set the node's binding to that entity and stop.
   */
  method Initialize(parents: seq<int>, entities: seq<Entity>, holders: set<Entity>, index: nat, store: Bindings)
    requires ParentsBefore(parents) && index < |parents| && |entities| == |parents|
    modifies store
    ensures var r := NearestAncestor(parents, entities, holders, index);
            store.value == if r.Some? then old(store.value)[entities[index] := entities[r.value]] else old(store.value)
  {
    var parentIndex := parents[index];
    while parentIndex >= 0
      invariant parentIndex < |parents|
      invariant Search(parents, entities, holders, parentIndex) == NearestAncestor(parents, entities, holders, index)
      invariant store.value == old(store.value)
      decreases parentIndex + 1
    {
      var parentEntity := entities[parentIndex];
      if parentEntity in holders {
        store.value := store.value[entities[index] := parentEntity];
        break;
      }
      parentIndex := parents[parentIndex];
    }
  }
}
