/**
 * The node tree the jobs walk: node n's children buffer (UINodeChild) is
 * children[n]. The converter creates a parent before its children, so every
 * child is numbered after its parent (Forward), and in a tree each node is
 * listed as a child by at most one parent, at one position (UniqueParents).
 */
module NodeTree {
  type Children = seq<seq<nat>>

  /** Every child of node n is a node numbered after n. */
  predicate Forward(children: Children)
  {
    forall n, i :: 0 <= n < |children| && 0 <= i < |children[n]| ==> n < children[n][i] < |children|
  }

  /** No node is listed twice as a child, neither by two parents nor twice by one. */
  predicate UniqueParents(children: Children)
  {
    forall n1, i1, n2, i2 ::
      (0 <= n1 < |children| && 0 <= i1 < |children[n1]| && 0 <= n2 < |children| && 0 <= i2 < |children[n2]|
       && children[n1][i1] == children[n2][i2]) ==> n1 == n2 && i1 == i2
  }

  predicate Tree(children: Children)
  {
    Forward(children) && UniqueParents(children)
  }

  /** The nodes a recursive walk from n visits, in the order it visits them: n, then each child's subtree in child order. */
  function PreOrder(children: Children, n: nat): (r: seq<nat>)
    requires Forward(children) && n < |children|
    ensures |r| >= 1 && r[0] == n
    decreases |children| - n, |children[n]| + 1
  {
    [n] + Forest(children, n, |children[n]|)
  }

  /** The subtrees of the first k children of n, one after another. */
  function Forest(children: Children, n: nat, k: nat): seq<nat>
    requires Forward(children) && n < |children| && k <= |children[n]|
    decreases |children| - n, k
  {
    if k == 0 then [] else Forest(children, n, k - 1) + PreOrder(children, children[n][k - 1])
  }

  /** A subtree holds its root and nodes numbered after it. */
  lemma {:induction false} PreOrderBounds(children: Children, n: nat, m: nat)
    requires Forward(children) && n < |children| && m in PreOrder(children, n)
    ensures n <= m < |children|
    decreases |children| - n, |children[n]| + 1
  {
    if m != n {
      ForestBounds(children, n, |children[n]|, m);
    }
  }

  lemma {:induction false} ForestBounds(children: Children, n: nat, k: nat, m: nat)
    requires Forward(children) && n < |children| && k <= |children[n]| && m in Forest(children, n, k)
    ensures n < m < |children|
    decreases |children| - n, k
  {
    if m in Forest(children, n, k - 1) {
      ForestBounds(children, n, k - 1, m);
    } else {
      PreOrderBounds(children, children[n][k - 1], m);
    }
  }

  /** Every node of a subtree other than its root is listed as a child by a node of the same subtree. */
  lemma {:induction false} ParentInSubtree(children: Children, n: nat, m: nat) returns (p: nat, i: nat)
    requires Forward(children) && n < |children| && m in PreOrder(children, n) && m != n
    ensures p in PreOrder(children, n) && p < |children| && i < |children[p]| && children[p][i] == m
    decreases |children| - n, |children[n]| + 1
  {
    p, i := ParentInForest(children, n, |children[n]|, m);
  }

  lemma {:induction false} ParentInForest(children: Children, n: nat, k: nat, m: nat) returns (p: nat, i: nat)
    requires Forward(children) && n < |children| && k <= |children[n]| && m in Forest(children, n, k)
    ensures p in PreOrder(children, n) && p < |children| && i < |children[p]| && children[p][i] == m
    decreases |children| - n, k
  {
    var c := children[n][k - 1];
    if m in Forest(children, n, k - 1) {
      p, i := ParentInForest(children, n, k - 1, m);
    } else if m == c {
      p, i := n, k - 1;
    } else {
      p, i := ParentInSubtree(children, c, m);
      ForestSubset(children, n, k, c, p);
    }
  }

  /** The subtree of the k-th child is part of the subtree of n. */
  lemma ForestSubset(children: Children, n: nat, k: nat, c: nat, m: nat)
    requires Forward(children) && n < |children| && 0 < k <= |children[n]| && c == children[n][k - 1]
    requires m in PreOrder(children, c)
    ensures m in PreOrder(children, n)
  {
    ForestGrows(children, n, k, |children[n]|, m);
  }

  lemma {:induction false} ForestGrows(children: Children, n: nat, k: nat, j: nat, m: nat)
    requires Forward(children) && n < |children| && 0 < k <= j <= |children[n]|
    requires m in PreOrder(children, children[n][k - 1])
    ensures m in Forest(children, n, j)
    decreases j
  {
    if j > k {
      ForestGrows(children, n, k, j - 1, m);
    }
  }

  /** Child i of n is in the subtree of n. */
  lemma ChildInSubtree(children: Children, n: nat, i: nat)
    requires Forward(children) && n < |children| && i < |children[n]|
    ensures children[n][i] in PreOrder(children, n)
  {
    ForestSubset(children, n, i + 1, children[n][i], children[n][i]);
  }

  /**
   * In a tree the subtrees of two different children of a node share no
   * node, so a walk of one child's subtree never revisits another's.
   */
  lemma {:induction false} SiblingsDisjoint(children: Children, n: nat, i: nat, j: nat, m: nat)
    requires Tree(children) && n < |children| && i < |children[n]| && j < |children[n]| && i != j
    ensures !(m in PreOrder(children, children[n][i]) && m in PreOrder(children, children[n][j]))
    decreases m
  {
    var a, b := children[n][i], children[n][j];
    if m in PreOrder(children, a) && m in PreOrder(children, b) {
      if m == a {
        var p, k := ParentInSubtree(children, b, m);
        PreOrderBounds(children, b, p);
      } else if m == b {
        var p, k := ParentInSubtree(children, a, m);
        PreOrderBounds(children, a, p);
      } else {
        var p, k := ParentInSubtree(children, a, m);
        var q, l := ParentInSubtree(children, b, m);
        assert children[p][k] == children[q][l];
        SiblingsDisjoint(children, n, i, j, p);
      }
    }
  }

  /** The number of nodes a walk from n visits. */
  function NodeCount(children: Children, n: nat): (r: nat)
    requires Forward(children) && n < |children|
    ensures r == |PreOrder(children, n)| && r >= 1
  {
    |PreOrder(children, n)|
  }

  /** The node counts of the subtrees of the first k children of n, added up. */
  function ForestCount(children: Children, n: nat, k: nat): nat
    requires Forward(children) && n < |children| && k <= |children[n]|
    decreases k
  {
    if k == 0 then 0 else ForestCount(children, n, k - 1) + NodeCount(children, children[n][k - 1])
  }

  /** A subtree counts its root once and then every node of each child's subtree, as the submesh counter does. */
  lemma {:induction false} NodeCountChildren(children: Children, n: nat)
    requires Forward(children) && n < |children|
    ensures NodeCount(children, n) == 1 + ForestCount(children, n, |children[n]|)
  {
    ForestLength(children, n, |children[n]|);
  }

  lemma {:induction false} ForestLength(children: Children, n: nat, k: nat)
    requires Forward(children) && n < |children| && k <= |children[n]|
    ensures |Forest(children, n, k)| == ForestCount(children, n, k)
    decreases k
  {
    if k > 0 {
      ForestLength(children, n, k - 1);
    }
  }

  /** Σ of per-node counts over a run of visits. */
  function SumOf(counts: seq<nat>, vs: seq<nat>): nat
    requires forall k :: 0 <= k < |vs| ==> vs[k] < |counts|
  {
    if vs == [] then 0 else SumOf(counts, vs[..|vs| - 1]) + counts[vs[|vs| - 1]]
  }

  lemma {:induction false} SumOfAppend(counts: seq<nat>, a: seq<nat>, b: seq<nat>)
    requires forall k :: 0 <= k < |a| ==> a[k] < |counts|
    requires forall k :: 0 <= k < |b| ==> b[k] < |counts|
    ensures forall k :: 0 <= k < |a + b| ==> (a + b)[k] < |counts|
    ensures SumOf(counts, a + b) == SumOf(counts, a) + SumOf(counts, b)
    decreases |b|
  {
    if b != [] {
      assert (a + b)[..|a + b| - 1] == a + b[..|b| - 1];
      SumOfAppend(counts, a, b[..|b| - 1]);
    } else {
      assert a + b == a;
    }
  }

  /** Every node a walk visits is a node of the table. */
  lemma PreOrderInRange(children: Children, n: nat)
    requires Forward(children) && n < |children|
    ensures forall k :: 0 <= k < |PreOrder(children, n)| ==> PreOrder(children, n)[k] < |children|
  {
    forall k | 0 <= k < |PreOrder(children, n)|
      ensures PreOrder(children, n)[k] < |children|
    {
      PreOrderBounds(children, n, PreOrder(children, n)[k]);
    }
  }
}
