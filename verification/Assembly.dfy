/** The parts together: the tree that static insertion has built is what deletion starts from, and
    reductions are exact over it, before elements are deleted and afterwards. */
module Assembly {
  import opened Common
  import Deletion
  import R = Reduction
  import ReductionRuns
  import Sections
  import SpanningTree
  import T = TreeBuilder

  // ---------------------------------------------------------------- trees of elements

  // A tree as its elements know it: who is above each of them, and whom each of them lists below.
  // Parents have a smaller rank.
  datatype Shape = Shape(root: nat, up: map<nat, nat>, rank: map<nat, nat>, down: map<nat, seq<nat>>)

  ghost predicate HasParents(t: Shape) {
    && t.root in t.rank && t.up.Keys == t.rank.Keys - {t.root} && t.down.Keys == t.rank.Keys
    && forall x {:trigger t.up[x]} :: x in t.up ==> t.up[x] in t.rank && t.rank[t.up[x]] < t.rank[x]
  }

  // e lists x once if it is its parent, and not otherwise.
  predicate ListedRightly(t: Shape, e: nat, x: nat)
    requires e in t.down
  {
    Times(t.down[e], x) == if x in t.up && t.up[x] == e then 1 else 0
  }

  ghost predicate IsTree(t: Shape) {
    HasParents(t) && forall e, x: nat {:trigger ListedRightly(t, e, x)} :: e in t.down ==> ListedRightly(t, e, x)
  }

  // ---------------------------------------------------------------- the tree that insertion builds

  // By node, then by time.
  function Rank(b: T.Birth, clock: nat): nat {
    b.node * clock + b.time
  }

  lemma EarlierRank(a: T.Birth, b: T.Birth, clock: nat)
    requires SpanningTree.Earlier(a, b) && a.time < clock
    ensures Rank(a, clock) < Rank(b, clock)
  {
    if a.node < b.node {
      assert (b.node - a.node - 1) * clock >= 0;
      assert b.node * clock == (b.node - a.node - 1) * clock + a.node * clock + clock;
    }
  }

  ghost function ParentOf(s: T.State, x: nat): nat
    requires T.Homed(s) && x in s.birth
  {
    if T.EltsOf(s)[x].up == [] then x else T.EltsOf(s)[x].up[0]
  }

  ghost function Built(s: T.State): Shape
    requires T.Homed(s) && s.nodes[0].endpoint.Some?
  {
    var root := s.nodes[0].endpoint.value;
    Shape(root,
          map x | x in s.birth && x != root :: ParentOf(s, x),
          map x | x in s.birth :: Rank(s.birth[x], s.clock),
          map x | x in s.birth :: T.EltsOf(s)[x].down)
  }

  lemma ParentBuilt(s: T.State, x: nat)
    requires T.Inv(s) && s.msgs == [] && x in s.birth && s.nodes[0].endpoint != Some(x)
    ensures T.EltsOf(s)[x].up == [ParentOf(s, x)] && ParentOf(s, x) in s.birth
    ensures Rank(s.birth[ParentOf(s, x)], s.clock) < Rank(s.birth[x], s.clock)
  {
    var p := SpanningTree.ParentAtRest(s, x);
    assert T.ViewOf(s).Shape() && T.ViewOf(s).birth[p].time < T.ViewOf(s).clock;
    EarlierRank(s.birth[p], s.birth[x], s.clock);
  }

  lemma ListsBuilt(s: T.State, e: nat, x: nat)
    requires T.Inv(s) && s.msgs == [] && e in s.birth
    ensures s.nodes[0].endpoint.Some? && s.nodes[0].endpoint.value in s.birth && ListedRightly(Built(s), e, x)
  {
    SpanningTree.QuiescentTree(s, e);
    if x in Built(s).up {
      ParentBuilt(s, x);
    }
  }

  lemma BuiltKeys(s: T.State)
    requires T.Homed(s) && s.nodes[0].endpoint.Some?
    ensures var t := Built(s);
      t.rank.Keys == t.down.Keys == s.birth.Keys && t.up.Keys == s.birth.Keys - {s.nodes[0].endpoint.value}
  {
    var t := Built(s);
    assert t.rank.Keys == s.birth.Keys && t.down.Keys == s.birth.Keys;
    assert t.up.Keys == s.birth.Keys - {t.root};
  }

  lemma ParentsBuilt(s: T.State)
    requires T.Inv(s) && s.msgs == [] && s.nodes[0].endpoint.Some? && s.nodes[0].endpoint.value in s.birth
    ensures HasParents(Built(s))
  {
    var t := Built(s);
    BuiltKeys(s);
    forall x | x in t.up
      ensures t.up[x] in t.rank && t.rank[t.up[x]] < t.rank[x]
    {
      ParentBuilt(s, x);
    }
  }

  /** At quiescence the elements form a tree. */
  lemma BuiltIsTree(s: T.State)
    requires T.Inv(s) && s.msgs == [] && s.birth != map[]
    ensures s.nodes[0].endpoint.Some? && IsTree(Built(s))
  {
    forall e, x: nat | e in s.birth
      ensures s.nodes[0].endpoint.Some? && s.nodes[0].endpoint.value in s.birth && ListedRightly(Built(s), e, x)
    {
      ListsBuilt(s, e, x);
    }
    var y :| y in s.birth;
    ListsBuilt(s, y, y);
    ParentsBuilt(s);
  }

  // ---------------------------------------------------------------- deletion starts from a tree

  ghost function DeletionStart(t: Shape): Deletion.State
    requires t.down.Keys == t.rank.Keys
  {
    Deletion.State(Deletion.Tree(t.root, t.up, t.rank, t.rank.Keys),
                   map e | e in t.rank :: Deletion.Node(t.down[e], []), map[], [], [])
  }

  lemma DeletionStarts(t: Shape)
    requires IsTree(t)
    ensures Deletion.Initial(DeletionStart(t))
  {
    var s := DeletionStart(t);
    assert s.nodes.Keys == s.tree.live;
    forall e, x: nat | e in s.nodes
      ensures Times(s.nodes[e].down, x) == if x in s.tree.up && s.tree.up[x] == e then 1 else 0
    {
      assert s.nodes[e].down == t.down[e] && ListedRightly(t, e, x);
    }
  }

  // The tree of the elements that are left, each below its nearest live ancestor.
  ghost function Left(s: Deletion.State): Shape
    requires s.tree.Valid() && s.nodes.Keys == s.tree.live
  {
    Shape(s.tree.root,
          map x | x in s.tree.live && x != s.tree.root :: s.tree.Owner(x),
          map x | x in s.tree.live :: s.tree.depth[x],
          map e | e in s.nodes :: s.nodes[e].down)
  }

  lemma LeftLists(s: Deletion.State, e: nat, x: nat)
    requires Deletion.Inv(s) && s.msgs == [] && e in s.tree.live
    ensures ListedRightly(Left(s), e, x)
  {
    Deletion.SettledTree(s, e);
    assert x in Left(s).up <==> s.tree.Child(x);
  }

  /** Once all splices are delivered, what is left is a tree again. */
  lemma LeftIsTree(s: Deletion.State)
    requires Deletion.Inv(s) && s.msgs == []
    ensures IsTree(Left(s))
  {
    var t := Left(s);
    LeftRanks(s);
    forall e, x: nat | e in t.down
      ensures ListedRightly(t, e, x)
    {
      LeftLists(s, e, x);
    }
  }

  lemma LeftRanks(s: Deletion.State)
    requires s.tree.Valid() && s.nodes.Keys == s.tree.live
    ensures HasParents(Left(s)) && Left(s).down.Keys == s.tree.live
  {
    var t := Left(s);
    assert t.rank.Keys == s.tree.live && t.down.Keys == s.tree.live;
    assert t.up.Keys == t.rank.Keys - {t.root};
  }

  // ---------------------------------------------------------------- reductions over a tree

  // The elements, parents before children: by birth, say.
  ghost predicate Orders(t: Shape, order: seq<nat>) {
    && Distinct(order) && (forall x :: x in order <==> x in t.rank)
    && forall i {:trigger order[i]} :: 0 <= i < |order| && order[i] in t.up ==> t.up[order[i]] in order[..i]
  }

  lemma {:induction false} LeastRank(rank: map<nat, nat>, some: set<nat>) returns (x: nat)
    requires some != {} && some <= rank.Keys
    ensures x in some && forall y :: y in some ==> rank[x] <= rank[y]
    decreases some
  {
    x :| x in some;
    if some != {x} {
      var z := LeastRank(rank, some - {x});
      assert forall y :: y in some ==> y == x || y in some - {x};
      x := if rank[z] < rank[x] then z else x;
    }
  }

  // The elements not listed yet go on in the order of their ranks.
  lemma {:induction false} OrderOn(t: Shape, before: seq<nat>, todo: set<nat>) returns (order: seq<nat>)
    requires IsTree(t) && Distinct(before) && forall x :: x in t.rank <==> x in before || x in todo
    requires forall x :: x in before ==> x !in todo
    requires forall x, y :: x in before && y in todo ==> t.rank[x] <= t.rank[y]
    requires forall i {:trigger before[i]} :: 0 <= i < |before| && before[i] in t.up ==> t.up[before[i]] in before[..i]
    ensures Orders(t, order)
    decreases todo
  {
    if todo == {} {
      order := before;
    } else {
      var x := LeastRank(t.rank, todo);
      assert x in t.up ==> t.up[x] in before;
      var longer := before + [x];
      forall i | 0 <= i < |longer| && longer[i] in t.up
        ensures t.up[longer[i]] in longer[..i]
      {
        assert longer[..i] == before[..i];
      }
      order := OrderOn(t, longer, todo - {x});
    }
  }

  /** There is such an order. */
  lemma OrderExists(t: Shape) returns (order: seq<nat>)
    requires IsTree(t)
    ensures Orders(t, order)
  {
    order := OrderOn(t, [], t.rank.Keys);
  }

  function Ordinals(order: seq<nat>, xs: seq<nat>): seq<nat>
    requires forall x :: x in xs ==> x in order
  {
    seq(|xs|, j requires 0 <= j < |xs| => Sections.FirstOf(order, xs[j]))
  }

  // Element order[i] as a member that is about to take part in reduction number `start`.
  ghost function MemberAt(t: Shape, order: seq<nat>, start: nat, i: nat): R.Loc
    requires i < |order| && order[i] in t.down && forall x :: x in t.down[order[i]] ==> x in order
  {
    R.Loc(i, start, Ordinals(order, t.down[order[i]]), map[], map[], map[])
  }

  ghost predicate Lists(t: Shape, order: seq<nat>) {
    && (forall i {:trigger order[i]} :: 0 <= i < |order| ==> order[i] in t.down)
    && (forall e, x {:trigger x in t.down[e]} :: e in t.down && x in t.down[e] ==> x in order)
    && (forall x {:trigger t.up[x]} :: x in t.up ==> t.up[x] in order)
  }

  ghost function ReductionStart(t: Shape, order: seq<nat>, start: nat): R.State
    requires Lists(t, order)
  {
    R.State(seq(|order|, i requires 0 <= i < |order| => MemberAt(t, order, start, i)),
            seq(|order|, i requires 0 <= i < |order| =>
              if order[i] in t.up then Sections.FirstOf(order, t.up[order[i]]) else 0),
            seq(|order|, i => start), multiset{}, [], map[])
  }

  lemma OrderLists(t: Shape, order: seq<nat>)
    requires IsTree(t) && Orders(t, order)
    ensures Lists(t, order) && order != [] && order[0] == t.root
    ensures forall i {:trigger order[i]} :: 0 <= i < |order| ==> (order[i] in t.up <==> i > 0)
  {
    forall e, x | e in t.down && x in t.down[e]
      ensures x in order
    {
      assert ListedRightly(t, e, x) && Times(t.down[e], x) > 0;
    }
    assert t.root in order;
    var r :| 0 <= r < |order| && order[r] == t.root;
    assert order[0] in order && order[..0] == [];
    assert order[0] !in t.up;
  }

  lemma ParentFirst(t: Shape, order: seq<nat>, start: nat, k: nat)
    requires IsTree(t) && Orders(t, order) && Lists(t, order) && 0 < k < |order| && order[k] in t.up
    ensures ReductionStart(t, order, start).parent[k] < k
    ensures order[ReductionStart(t, order, start).parent[k]] == t.up[order[k]]
  {
    var p := t.up[order[k]];
    var f := Sections.FirstOf(order, p);
    var j :| 0 <= j < k && order[..k][j] == p;
    assert order[j] == p == order[f];
  }

  lemma {:induction false} OnlyBounded(xs: seq<nat>, n: nat, k: nat)
    requires (forall j :: 0 <= j < |xs| ==> xs[j] < n) && k >= n
    ensures multiset(xs)[k] == 0
  {
    assert k in xs <==> multiset(xs)[k] > 0;
  }

  // The ordinals a member lists are those of its children.
  lemma ListsChildren(t: Shape, order: seq<nat>, start: nat, i: nat, k: nat)
    requires IsTree(t) && Orders(t, order) && Lists(t, order) && i < |order|
    requires forall h {:trigger order[h]} :: 0 <= h < |order| ==> (order[h] in t.up <==> h > 0)
    ensures var s := ReductionStart(t, order, start);
      multiset(s.locs[i].kids)[k] == if R.ChildOf(s, k, i) then 1 else 0
  {
    var s, xs := ReductionStart(t, order, start), t.down[order[i]];
    var kids: seq<nat> := s.locs[i].kids;
    assert kids == Ordinals(order, xs);
    if k >= |order| {
      OnlyBounded(kids, |order|, k);
    } else {
      ListedTimes(order, xs, k);
      assert ListedRightly(t, order[i], order[k]);
      if k > 0 {
        ParentFirst(t, order, start, k);
      }
    }
  }

  lemma ListedTimes(order: seq<nat>, xs: seq<nat>, k: nat)
    requires Distinct(order) && k < |order| && forall x :: x in xs ==> x in order
    ensures multiset(Ordinals(order, xs))[k] == Times(xs, order[k])
  {
    assert Sections.IndicesAt(order, Ordinals(order, xs)) == xs;
    Sections.OrdinalAt(order, k);
    Sections.ListedAs(order, Ordinals(order, xs), order[k]);
  }

  lemma LinkedStart(t: Shape, order: seq<nat>, start: nat)
    requires Lists(t, order) && order != []
    requires var s := ReductionStart(t, order, start);
      && (forall k {:trigger s.parent[k]} :: 0 < k < |s.parent| ==> s.parent[k] < k)
      && forall i, k: nat {:trigger multiset(s.locs[i].kids)[k]} :: 0 <= i < |s.locs| ==>
           multiset(s.locs[i].kids)[k] == if R.ChildOf(s, k, i) then 1 else 0
    ensures ReductionRuns.Initial(ReductionStart(t, order, start))
  {
  }

  /** Over any tree, reductions can start. */
  lemma ReductionStarts(t: Shape, order: seq<nat>, start: nat)
    requires IsTree(t) && Orders(t, order)
    ensures Lists(t, order) && ReductionRuns.Initial(ReductionStart(t, order, start))
    ensures |ReductionStart(t, order, start).locs| == |order|
  {
    OrderLists(t, order);
    var s := ReductionStart(t, order, start);
    forall k | 0 < k < |s.parent|
      ensures s.parent[k] < k
    {
      ParentFirst(t, order, start, k);
    }
    forall i, k: nat | 0 <= i < |s.locs|
      ensures multiset(s.locs[i].kids)[k] == if R.ChildOf(s, k, i) then 1 else 0
    {
      ListsChildren(t, order, start, i, k);
    }
    LinkedStart(t, order, start);
  }

  // Each element of the tree has contributed to reduction c, and nothing is in flight.
  ghost predicate AllIn(order: seq<nat>, start: nat, states: seq<R.State>, acts: seq<R.Action>, c: nat)
    requires |states| == |acts| + 1
  {
    && (forall a :: a in acts ==> !a.CreateChild?) && states[|acts|].msgs == multiset{} && start <= c
    && forall x {:trigger x in order} :: x in order ==>
         start + ReductionRuns.Contributions(acts, Sections.FirstOf(order, x)) > c
  }

  // The callback has fired once for c, with one contribution number c of each element and nothing else.
  ghost predicate ExactlyOnce(order: seq<nat>, s: R.State, c: nat, j: nat) {
    && j < |s.results| && s.results[j].count == c
    && (forall h :: 0 <= h < |s.results| && s.results[h].count == c ==> h == j)
    && (forall x, d: nat :: x in order ==>
          s.results[j].bag[(Sections.FirstOf(order, x), d)] == if d == c then 1 else 0)
    && (forall i: nat, d: nat :: i >= |order| ==> s.results[j].bag[(i, d)] == 0)
  }

  /** And they are exact, over any tree of elements, in any order of them that lists parents first. */
  lemma TreeReduction(t: Shape, order: seq<nat>, start: nat, states: seq<R.State>, acts: seq<R.Action>, c: nat)
    returns (j: nat)
    requires IsTree(t) && Orders(t, order)
    requires Lists(t, order) && ReductionRuns.Execution(states, acts) && states[0] == ReductionStart(t, order, start)
    requires AllIn(order, start, states, acts, c)
    ensures ExactlyOnce(order, states[|acts|], c, j)
  {
    ReductionStarts(t, order, start);
    forall i: nat | i < |order|
      ensures start + ReductionRuns.Contributions(acts, i) > c
    {
      Sections.OrdinalAt(order, i);
      assert order[i] in order;
    }
    j := ReductionRuns.StaticReduction(start, states, acts, c);
  }

  // ---------------------------------------------------------------- one after the other

  // A run of static insertion that has come to rest.
  ghost predicate Inserted(states: seq<T.State>, acts: seq<T.Action>) {
    && SpanningTree.Execution(states, acts) && SpanningTree.Initial(states[0])
    && states[|acts|].msgs == [] && states[|acts|].birth != map[]
  }

  lemma InsertedIsTree(states: seq<T.State>, acts: seq<T.Action>)
    requires Inserted(states, acts)
    ensures T.Homed(states[|acts|]) && states[|acts|].nodes[0].endpoint.Some? && IsTree(Built(states[|acts|]))
  {
    SpanningTree.ExecutionInv(states, acts, |acts|);
    BuiltIsTree(states[|acts|]);
  }

  /** Reductions are exact over whatever tree static insertion has built. */
  lemma InsertThenReduce(ts: seq<T.State>, inserts: seq<T.Action>, order: seq<nat>, states: seq<R.State>,
        acts: seq<R.Action>, c: nat)
    returns (j: nat)
    requires Inserted(ts, inserts)
    requires T.Homed(ts[|inserts|]) && ts[|inserts|].nodes[0].endpoint.Some? && Orders(Built(ts[|inserts|]), order)
    requires Lists(Built(ts[|inserts|]), order) && ReductionRuns.Execution(states, acts)
    requires states[0] == ReductionStart(Built(ts[|inserts|]), order, 0) && AllIn(order, 0, states, acts, c)
    ensures ExactlyOnce(order, states[|acts|], c, j)
  {
    InsertedIsTree(ts, inserts);
    j := TreeReduction(Built(ts[|inserts|]), order, 0, states, acts, c);
  }

  /** Deletion is exact when it starts from whatever tree static insertion has built: at every moment of every
      run, carrying out the edits staged at a live element or on their way to it would leave it listing, once
      each, exactly the live elements whose nearest live ancestor it is. */
  lemma InsertThenDelete(ts: seq<T.State>, inserts: seq<T.Action>, states: seq<Deletion.State>,
        acts: seq<Deletion.Action>, k: nat, e: nat, x: nat)
    requires Inserted(ts, inserts) && T.Homed(ts[|inserts|]) && ts[|inserts|].nodes[0].endpoint.Some?
    requires Deletion.Execution(states, acts) && states[0] == DeletionStart(Built(ts[|inserts|])) && k < |states|
    requires e in states[k].tree.live
    ensures Deletion.Inv(states[k])
    ensures Deletion.Expected(states[k].tree, states[k].nodes[e], states[k].msgs, e, x)
         == if states[k].tree.Child(x) && states[k].tree.Owner(x) == e then 1 else 0
  {
    InsertedIsTree(ts, inserts);
    DeletionStarts(Built(ts[|inserts|]));
    Deletion.DeletionExact(states, acts, k, e, x);
  }

  /** And reductions are exact over what is left once all splices of such a run are delivered. */
  lemma DeleteThenReduce(ds: seq<Deletion.State>, deletes: seq<Deletion.Action>, order: seq<nat>, start: nat,
        states: seq<R.State>, acts: seq<R.Action>, c: nat)
    returns (j: nat)
    requires Deletion.Execution(ds, deletes) && Deletion.Initial(ds[0]) && ds[|deletes|].msgs == []
    requires Deletion.Shape(ds[|deletes|]) && Orders(Left(ds[|deletes|]), order) && Lists(Left(ds[|deletes|]), order)
    requires ReductionRuns.Execution(states, acts)
    requires states[0] == ReductionStart(Left(ds[|deletes|]), order, start) && AllIn(order, start, states, acts, c)
    ensures ExactlyOnce(order, states[|acts|], c, j)
  {
    Deletion.ExecutionInv(ds, deletes, |deletes|);
    LeftIsTree(ds[|deletes|]);
    j := TreeReduction(Left(ds[|deletes|]), order, start, states, acts, c);
  }
}
