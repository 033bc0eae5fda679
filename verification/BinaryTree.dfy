/** The implicit binary tree over ordinals 0, 1, 2, ...: used over the members of a section and
    over the nodes of the machine. */
module BinaryTree {

  function LeftChild(i: nat): nat {
    2 * i + 1
  }

  function RightChild(i: nat): nat {
    2 * i + 2
  }

  // -1 stands for "no parent".
  function Parent(i: nat): int {
    if i > 0 then (i - 1) / 2 else -1
  }

  // The children of `which` among the ordinals below max.
  function Leaves(which: nat, max: int): seq<nat> {
    (if LeftChild(which) < max then [LeftChild(which)] else []) +
    (if RightChild(which) < max then [RightChild(which)] else [])
  }

  method ComputeLeaves(which: nat, max: int) returns (res: seq<nat>)
    ensures res == Leaves(which, max)
  {
    var left := LeftChild(which);
    var right := RightChild(which);
    res := [];
    if left >= 0 && left < max {
      res := res + [left];
    }
    if right >= 0 && right < max {
      res := res + [right];
    }
  }

  /** Children and parent are inverse to each other: k is listed as a child of i, once, exactly
      when i is the parent of k and k is an ordinal at all. */
  lemma ChildIffParent(i: nat, k: nat, n: int)
    ensures k in Leaves(i, n) <==> 0 < k < n && Parent(k) == i
    ensures multiset(Leaves(i, n))[k] <= 1
  {
  }

  // a lies on the way from i up to the root, i itself excluded.
  predicate Above(a: nat, i: nat) {
    i > 0 && (Parent(i) == a || Above(a, Parent(i)))
  }

  lemma {:induction false} AboveIsSmaller(a: nat, i: nat)
    requires Above(a, i)
    ensures a < i
  {
    if Parent(i) != a {
      AboveIsSmaller(a, Parent(i));
    }
  }

  lemma {:induction false} AboveTransitive(a: nat, b: nat, c: nat)
    requires Above(a, b) && Above(b, c)
    ensures Above(a, c)
  {
    if Parent(c) != b {
      AboveTransitive(a, b, Parent(c));
    }
  }

  lemma {:induction false} AboveParent(a: nat, i: nat)
    requires a > 0 && Above(a, i)
    ensures Above(Parent(a), i)
  {
    if Parent(i) != a {
      AboveParent(a, Parent(i));
    }
  }

  // The number of steps from i to the root.
  function Depth(i: nat): nat {
    if i == 0 then 0 else 1 + Depth(Parent(i))
  }

  function Pow2(k: nat): nat {
    if k == 0 then 1 else 2 * Pow2(k - 1)
  }

  /** Ordinal i sits at depth floor(log2(i + 1)). */
  lemma {:induction false} DepthIsLog(i: nat)
    ensures Pow2(Depth(i)) <= i + 1 < Pow2(Depth(i) + 1)
  {
    if i > 0 {
      DepthIsLog(Parent(i));
    }
  }

  // Every ordinal below the root has the root above it.
  lemma {:induction false} RootAboveAll(i: nat)
    requires i > 0
    ensures Above(0, i)
  {
    if Parent(i) != 0 {
      RootAboveAll(Parent(i));
    }
  }
}
