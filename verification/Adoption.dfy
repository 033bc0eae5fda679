/** Where static insertion puts elements: below whom on a node, and on which node. */
module Adoption {
  import opened Common
  import opened BinaryTree
  import opened TreeBuilder
  import opened SpanningTree

  // ---------------------------------------------------------------- below whom

  /** Whoever is given a child had the fewest children on its node. */
  lemma AdopterHasFewest(s: State, a: Action, m: nat, t: nat, e: nat)
    requires Homed(s) && Enabled(s, a) && m < |s.nodes| && t in s.nodes[m].elements && e in s.nodes[m].elements
    ensures m < |Next(s, a).nodes| && t in Next(s, a).nodes[m].elements
    ensures Next(s, a).nodes[m].elements[t].down != s.nodes[m].elements[t].down ==>
              |s.nodes[m].elements[t].down| <= |s.nodes[m].elements[e].down|
  {
  }

  // Each of these elements has one child, but for one that has none.
  ghost predicate Chained(elements: map<nat, Assoc>) {
    elements != map[] ==>
      exists last :: last in elements && elements[last].down == []
        && forall e :: e in elements && e != last ==> |elements[e].down| == 1
  }

  // Requests only come to nodes that have child nodes.
  lemma {:induction false} AboveHasChildren(a: nat, i: nat)
    requires Above(a, i)
    ensures 2 * a + 1 <= i
  {
    if Parent(i) != a {
      AboveHasChildren(a, Parent(i));
    }
  }

  lemma JoinChains(elements: map<nat, Assoc>, t: nat, x: nat)
    requires Chained(elements) && elements != map[] && Fewest(elements, t) && x !in elements
    ensures Chained(PutDownstream(elements, t, x)[x := PutUpstream(FRESH, t)])
  {
    var now := PutDownstream(elements, t, x)[x := PutUpstream(FRESH, t)];
    var last :| last in elements && elements[last].down == []
      && forall e :: e in elements && e != last ==> |elements[e].down| == 1;
    assert t == last;
    assert now[x].down == [] && forall e :: e in now && e != x ==> |now[e].down| == 1;
  }

  lemma InsertChains(s: State, m: nat, x: nat, t: nat)
    requires Enabled(s, Insert(m, x, t)) && Chained(s.nodes[m].elements)
    ensures Chained(Next(s, Insert(m, x, t)).nodes[m].elements)
  {
    if s.nodes[m].elements != map[] {
      JoinChains(s.nodes[m].elements, t, x);
    } else {
      var now := Next(s, Insert(m, x, t)).nodes[m].elements;
      assert x in now && now[x].down == [] && forall e :: e in now ==> e == x;
    }
  }

  // An announcement or a reply changes nobody's children.
  lemma SameChildren(a: map<nat, Assoc>, b: map<nat, Assoc>)
    requires a.Keys == b.Keys && Chained(a) && forall e :: e in a ==> a[e].down == b[e].down
    ensures Chained(b)
  {
    if b != map[] {
      var x :| x in b;
      assert x in a;
      var last :| last in a && a[last].down == [] && forall e :: e in a && e != last ==> |a[e].down| == 1;
      assert last in b && b[last].down == [];
    }
  }

  lemma ReplyKeepsChildren(s: State, i: nat, t: nat)
    requires Enabled(s, Receive(i, t)) && !s.msgs[i].Downstream?
    ensures var m := s.msgs[i].to;
      var now, was := Next(s, Receive(i, t)).nodes[m].elements, s.nodes[m].elements;
      now.Keys == was.Keys && forall e :: e in was ==> now[e].down == was[e].down
  {
  }

  // No request comes to a node without child nodes.
  lemma NoRequest(s: State, i: nat, m: nat)
    requires Inv(s) && i < |s.msgs| && s.msgs[i].to == m && |s.nodes| <= 2 * m + 1
    ensures !s.msgs[i].Downstream?
  {
    assert s.msgs[i] in s.msgs && ViewOf(s).Meaningful(s.msgs[i]);
    if s.msgs[i].Downstream? {
      AboveHasChildren(m, s.msgs[i].src);
    }
  }

  lemma StepChains(s: State, a: Action, m: nat)
    requires Inv(s) && Enabled(s, a) && m < |s.nodes| <= 2 * m + 1 && Chained(s.nodes[m].elements)
    ensures m < |Next(s, a).nodes| && Chained(Next(s, a).nodes[m].elements)
  {
    match a
    case Insert(k, x, t) =>
      if k == m {
        InsertChains(s, m, x, t);
      }
    case Receive(i, t) =>
      if s.msgs[i].to == m {
        NoRequest(s, i, m);
        ReplyKeepsChildren(s, i, t);
        SameChildren(s.nodes[m].elements, Next(s, a).nodes[m].elements);
      }
  }

  /** In every reachable state, the elements of a node that has no child nodes form a chain: each newcomer goes
      below the one before it, which has no children yet. */
  lemma {:induction false} LeafNodesChain(states: seq<State>, acts: seq<Action>, k: nat, m: nat)
    requires Execution(states, acts) && Initial(states[0]) && k < |states| && m < |states[k].nodes| <= 2 * m + 1
    ensures Chained(states[k].nodes[m].elements)
  {
    if k > 0 {
      assert |states[k].nodes| == |states[k - 1].nodes|;
      LeafNodesChain(states, acts, k - 1, m);
      ExecutionInv(states, acts, k - 1);
      StepChains(states[k - 1], acts[k - 1], m);
    }
  }

  // ---------------------------------------------------------------- on which node

  // Node a had no element at some moment after x was inserted.
  ghost predicate WasEmpty(states: seq<State>, k: nat, x: nat, a: nat) {
    exists j :: 0 <= j <= k < |states| && x in states[j].birth && a < |states[j].nodes|
      && states[j].nodes[a].elements == map[]
  }

  // Strictly between node m and node src below it.
  predicate Between(m: nat, a: nat, src: nat) {
    Above(a, src) && Above(m, a)
  }

  // What x's request has passed on its way from src to m was empty.
  ghost predicate PassedEmpty(states: seq<State>, k: nat, x: nat, src: nat, m: nat) {
    forall a: nat {:trigger Between(m, a, src)} :: Between(m, a, src) ==> WasEmpty(states, k, x, a)
  }

  // All requests so far have only passed empty nodes.
  ghost predicate RequestsStop(states: seq<State>, k: nat)
    requires k < |states|
  {
    var s := states[k];
    && (forall i {:trigger s.msgs[i]} :: 0 <= i < |s.msgs| && s.msgs[i].Downstream? ==>
          PassedEmpty(states, k, s.msgs[i].idx, s.msgs[i].src, s.msgs[i].to))
    && (forall x {:trigger s.link[x]} :: x in s.link && x in s.birth && s.link[x] in s.birth
                                           && s.birth[s.link[x]].node != s.birth[x].node ==>
          PassedEmpty(states, k, x, s.birth[x].node, s.birth[s.link[x]].node))
  }

  lemma StillPassed(states: seq<State>, k: nat, x: nat, src: nat, m: nat)
    requires k + 1 < |states| && PassedEmpty(states, k, x, src, m)
    ensures PassedEmpty(states, k + 1, x, src, m)
  {
    forall a: nat | Between(m, a, src)
      ensures WasEmpty(states, k + 1, x, a)
    {
      assert WasEmpty(states, k, x, a);
    }
  }

  // The nodes above a node are all above each other.
  lemma {:induction false} OneWayUp(a: nat, m: nat, src: nat)
    requires Above(a, src) && Above(m, src)
    ensures a == m || Above(a, m) || Above(m, a)
  {
    if Parent(src) != a && Parent(src) != m {
      OneWayUp(a, m, Parent(src));
    }
  }

  lemma NothingBetween(src: nat, a: nat)
    requires src > 0
    ensures !Between(Parent(src), a, src)
  {
    if Between(Parent(src), a, src) {
      AboveIsSmaller(Parent(src), a);
      if a != Parent(src) {
        AboveIsSmaller(a, Parent(src));
      }
    }
  }

  // One node further up there is one node more in between.
  lemma OneMoreBetween(m: nat, a: nat, src: nat)
    requires m > 0 && Above(m, src) && Between(Parent(m), a, src)
    ensures a == m || Between(m, a, src)
  {
    OneWayUp(a, m, src);
    if Above(a, m) {
      NothingBetween(m, a);
    }
  }

  lemma PassesOn(states: seq<State>, k: nat, x: nat, src: nat, m: nat)
    requires k + 1 < |states| && m > 0 && Above(m, src) && PassedEmpty(states, k, x, src, m)
    requires x in states[k].birth && m < |states[k].nodes| && states[k].nodes[m].elements == map[]
    ensures PassedEmpty(states, k + 1, x, src, Parent(m))
  {
    forall a: nat | Between(Parent(m), a, src)
      ensures WasEmpty(states, k + 1, x, a)
    {
      OneMoreBetween(m, a, src);
      if a == m {
        assert x in states[k].birth;
      } else {
        assert WasEmpty(states, k, x, a);
      }
    }
  }

  // The requests after a step were there before, or have just been made or passed on.
  lemma RequestsNext(states: seq<State>, k: nat, a: Action, i: nat)
    requires k + 1 < |states| && Inv(states[k]) && Enabled(states[k], a) && states[k + 1] == Next(states[k], a)
    requires RequestsStop(states, k) && i < |states[k + 1].msgs| && states[k + 1].msgs[i].Downstream?
    ensures var r := states[k + 1].msgs[i]; PassedEmpty(states, k + 1, r.idx, r.src, r.to)
  {
    var s, r := states[k], states[k + 1].msgs[i];
    if j :| 0 <= j < |s.msgs| && s.msgs[j] == r {
      StillPassed(states, k, r.idx, r.src, r.to);
    } else {
      match a
      case Insert(m, x, t) =>
        assert r == Downstream(Parent(m), m, x);
        forall b: nat | Between(Parent(m), b, m)
          ensures false
        {
          NothingBetween(m, b);
        }
      case Receive(j, t) =>
        assert s.msgs[j] in s.msgs && ViewOf(s).Meaningful(s.msgs[j]);
        RequestPassed(s, j, t, r, i);
        PassesOn(states, k, r.idx, r.src, s.msgs[j].to);
    }
  }

  // A request that a handler has sent was passed on from an empty node.
  lemma RequestPassed(s: State, j: nat, t: nat, r: Message, i: nat)
    requires Enabled(s, Receive(j, t)) && r !in s.msgs && r.Downstream?
    requires i < |Next(s, Receive(j, t)).msgs| && Next(s, Receive(j, t)).msgs[i] == r
    ensures s.msgs[j].Downstream? && s.msgs[j].to > 0 && s.nodes[s.msgs[j].to].elements == map[]
    ensures r == Downstream(Parent(s.msgs[j].to), s.msgs[j].src, s.msgs[j].idx)
  {
    var rest := Without(s.msgs, j);
    WithoutSubset(s.msgs, j);
    assert forall h :: 0 <= h < |rest| ==> rest[h] in rest;
  }

  // Whoever is listed anew was inserted next to its parent, or adopted on the node where its request was.
  lemma NewLink(s: State, a: Action, x: nat)
    requires Homed(s) && Enabled(s, a) && x !in s.link && x in Next(s, a).link
    ensures var n := Next(s, a);
      var p := n.link[x];
      && p in s.birth
      && match a
         case Insert(m, y, t) => y == x && s.birth[p].node == m && n.birth == s.birth[x := Birth(m, s.clock)] && p != x
         case Receive(j, t) =>
           s.msgs[j].Downstream? && s.msgs[j].idx == x && s.birth[p].node == s.msgs[j].to && n.birth == s.birth
  {
  }

  lemma LinksNext(states: seq<State>, k: nat, a: Action, x: nat)
    requires k + 1 < |states| && Inv(states[k]) && Enabled(states[k], a) && states[k + 1] == Next(states[k], a)
    requires RequestsStop(states, k)
    requires var n := states[k + 1];
      x in n.link && x in n.birth && n.link[x] in n.birth && n.birth[n.link[x]].node != n.birth[x].node
    ensures var n := states[k + 1]; PassedEmpty(states, k + 1, x, n.birth[x].node, n.birth[n.link[x]].node)
  {
    var s, n := states[k], states[k + 1];
    if x in s.link {
      OldLink(s, a, x);
      StillPassed(states, k, x, n.birth[x].node, n.birth[n.link[x]].node);
    } else {
      NewLink(s, a, x);
      if a.Receive? {
        assert ViewOf(s).Meaningful(s.msgs[a.msg]);
        StillPassed(states, k, x, s.msgs[a.msg].src, s.msgs[a.msg].to);
      }
    }
  }

  lemma BirthKept(s: State, a: Action, x: nat)
    requires Enabled(s, a) && x in s.birth
    ensures x in Next(s, a).birth && Next(s, a).birth[x] == s.birth[x]
  {
  }

  lemma LinkKept(s: State, a: Action, x: nat)
    requires Enabled(s, a) && x in s.link && (a.Insert? ==> a.idx != x)
    requires a.Receive? && s.msgs[a.msg].Downstream? ==> s.msgs[a.msg].idx != x
    ensures x in Next(s, a).link && Next(s, a).link[x] == s.link[x]
  {
  }

  // Nobody is listed elsewhere later.
  lemma OldLink(s: State, a: Action, x: nat)
    requires Inv(s) && Enabled(s, a) && x in s.link
    ensures x in s.birth && s.link[x] in s.birth
    ensures var n := Next(s, a); x in n.link && n.link[x] == s.link[x]
    ensures var n := Next(s, a); x in n.birth && s.link[x] in n.birth
    ensures Next(s, a).birth[x] == s.birth[x] && Next(s, a).birth[s.link[x]] == s.birth[s.link[x]]
  {
    assert x in s.birth && s.link[x] in s.birth by {
      assert ViewOf(s).Before(s.link[x], x);
    }
    assert a.Receive? && s.msgs[a.msg].Downstream? ==> s.msgs[a.msg].idx != x by {
      if a.Receive? {
        assert ViewOf(s).Meaningful(s.msgs[a.msg]);
      }
    }
    BirthKept(s, a, x);
    BirthKept(s, a, s.link[x]);
    LinkKept(s, a, x);
  }

  lemma StepStops(states: seq<State>, k: nat, a: Action)
    requires k + 1 < |states| && Inv(states[k]) && Enabled(states[k], a) && states[k + 1] == Next(states[k], a)
    requires RequestsStop(states, k)
    ensures RequestsStop(states, k + 1)
  {
    var n := states[k + 1];
    forall i | 0 <= i < |n.msgs| && n.msgs[i].Downstream?
      ensures PassedEmpty(states, k + 1, n.msgs[i].idx, n.msgs[i].src, n.msgs[i].to)
    {
      RequestsNext(states, k, a, i);
    }
    forall x | x in n.link && x in n.birth && n.link[x] in n.birth && n.birth[n.link[x]].node != n.birth[x].node
      ensures PassedEmpty(states, k + 1, x, n.birth[x].node, n.birth[n.link[x]].node)
    {
      LinksNext(states, k, a, x);
    }
  }

  /** In every reachable state, requests in flight and requests that were answered have only passed nodes that
      had no element at some moment after the request was made: the first node with elements adopts. */
  lemma {:induction false} RequestsAlwaysStop(states: seq<State>, acts: seq<Action>, k: nat)
    requires Execution(states, acts) && Initial(states[0]) && k < |states|
    ensures RequestsStop(states, k)
  {
    if k > 0 {
      RequestsAlwaysStop(states, acts, k - 1);
      ExecutionInv(states, acts, k - 1);
      StepStops(states, k - 1, acts[k - 1]);
    }
  }
}
