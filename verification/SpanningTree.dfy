/** What static insertion achieves: no cycles, a spanning tree at quiescence, termination, and
    exactly when a handler would abort. */
module SpanningTree {
  import opened Common
  import opened BinaryTree
  import opened TreeBuilder

  // ---------------------------------------------------------------- runs

  ghost predicate Initial(s: State) {
    && |s.nodes| > 0
    && (forall m :: 0 <= m < |s.nodes| ==> s.nodes[m] == Local(0, None, map[]))
    && s.msgs == [] && s.birth == map[] && s.link == map[]
  }

  ghost predicate Execution(states: seq<State>, acts: seq<Action>) {
    && |states| == |acts| + 1
    && forall i :: 0 <= i < |acts| ==> Enabled(states[i], acts[i]) && states[i + 1] == Next(states[i], acts[i])
  }

  lemma {:induction false} ZeroCounts(nodes: seq<Local>)
    requires forall m :: 0 <= m < |nodes| ==> nodes[m].count == 0
    ensures SumCounts(nodes) == 0
    decreases |nodes|
  {
    if nodes != [] {
      ZeroCounts(nodes[..|nodes| - 1]);
    }
  }

  lemma InitialInv(s: State)
    requires Initial(s)
    ensures Inv(s)
  {
    ZeroCounts(s.nodes);
    var v := ViewOf(s);
    assert forall m :: 0 <= m < |v.ends| ==> v.ends[m] == None;
  }

  lemma {:induction false} ExecutionInv(states: seq<State>, acts: seq<Action>, k: nat)
    requires Execution(states, acts) && Initial(states[0]) && k < |states|
    ensures Inv(states[k])
  {
    if k == 0 {
      InitialInv(states[0]);
    } else {
      ExecutionInv(states, acts, k - 1);
      StepKeeps(states[k - 1], acts[k - 1]);
    }
  }

  // ---------------------------------------------------------------- no handler aborts

  // What the source's assertion aborts on: a request reaches node 0, which has nobody to adopt the
  // element and has registered an endpoint already.
  predicate Aborts(s: State, i: nat)
    requires i < |s.msgs|
  {
    s.msgs[i].Downstream? && s.msgs[i].to == 0 < |s.nodes| && s.nodes[0].elements == map[] && s.nodes[0].endpoint.Some?
  }

  lemma {:induction false} FewestAmong(elements: map<nat, Assoc>, some: set<nat>) returns (t: nat)
    requires some != {} && some <= elements.Keys
    ensures t in some && forall e :: e in some ==> |elements[t].down| <= |elements[e].down|
    decreases some
  {
    t :| t in some;
    if some != {t} {
      var u := FewestAmong(elements, some - {t});
      assert forall e :: e in some ==> e == t || e in some - {t};
      t := if |elements[u].down| < |elements[t].down| then u else t;
    }
  }

  /** A message in flight can be handled, by some choice of element, exactly if it is not such a
      request. Announcements find no endpoint set before them, and a reply finds exactly the element
      that asked. */
  lemma HandledUnlessAborts(s: State, i: nat)
    requires Inv(s) && i < |s.msgs|
    ensures s.msgs[i].to < |s.nodes|
    ensures s.msgs[i].Endpoint? ==> s.nodes[s.msgs[i].to].endpoint == None
    ensures s.msgs[i].Upstream? ==>
              forall t :: Unplaced(s.nodes[s.msgs[i].to].elements, t) <==> t == s.msgs[i].asker
    ensures (exists t :: Enabled(s, Receive(i, t))) <==> !Aborts(s, i)
  {
    var v, k := ViewOf(s), s.msgs[i];
    assert v.Meaningful(k);
    match k
    case Endpoint(m, _) =>
      TallyMember(v.msgs, FloodTo(m), i);
      assert v.ends[m] == None;
      assert Enabled(s, Receive(i, 0));
    case Downstream(m, src, _) =>
      AboveIsSmaller(m, src);
      RequestHandled(s, i);
    case Upstream(m, _, _, a) =>
      AskerFound(v, i);
      Registered(s, m);
      assert Unplaced(s.nodes[m].elements, a);
      assert Enabled(s, Receive(i, a));
  }

  lemma RequestHandled(s: State, i: nat)
    requires i < |s.msgs| && s.msgs[i].Downstream? && s.msgs[i].to < |s.nodes|
    ensures (exists t :: Enabled(s, Receive(i, t))) <==> !Aborts(s, i)
  {
    var elements := s.nodes[s.msgs[i].to].elements;
    if elements != map[] {
      var t := FewestAmong(elements, elements.Keys);
      assert Enabled(s, Receive(i, t));
    } else if !Aborts(s, i) {
      assert Enabled(s, Receive(i, 0));
    }
  }

  // ---------------------------------------------------------------- no cycles

  // The well-founded order of elements: by node, then by time of insertion.
  predicate Earlier(a: Birth, b: Birth) {
    a.node < b.node || (a.node == b.node && a.time < b.time)
  }

  lemma BeforeIsEarlier(v: View, p: nat, x: nat)
    requires v.Before(p, x)
    ensures Earlier(v.birth[p], v.birth[x])
  {
    if Above(v.birth[p].node, v.birth[x].node) {
      AboveIsSmaller(v.birth[p].node, v.birth[x].node);
    }
  }

  /** Every parent link leads to an element inserted earlier on the same node, or to an element
      on a node above. */
  lemma ParentsComeFirst(s: State, x: nat, p: nat)
    requires Inv(s) && x in s.birth && p in EltsOf(s)[x].up
    ensures p in s.birth
    ensures (s.birth[p].node == s.birth[x].node
      && s.birth[p].time < s.birth[x].time) || Above(s.birth[p].node, s.birth[x].node)
    ensures Earlier(s.birth[p], s.birth[x])
  {
    var v := ViewOf(s);
    assert v.elts[x].up == [v.link[x]];
    assert v.Before(v.link[x], x);
    BeforeIsEarlier(v, p, x);
  }

  lemma {:induction false} EverEarlier(birth: map<nat, Birth>, path: seq<nat>)
    requires |path| > 1 && forall i {:trigger path[i]} :: 0 <= i < |path| ==> path[i] in birth
    requires forall i {:trigger path[i]} :: 0 <= i < |path| - 1 ==> Earlier(birth[path[i + 1]], birth[path[i]])
    ensures Earlier(birth[path[|path| - 1]], birth[path[0]])
    decreases |path|
  {
    if |path| > 2 {
      var n := |path| - 1;
      EverEarlier(birth, path[..n]);
      assert Earlier(birth[path[n - 1 + 1]], birth[path[n - 1]]);
    }
  }

  /** So following parent links, for any number of steps, leads to ever earlier elements and
      never returns to where it started. */
  lemma NoCycle(s: State, path: seq<nat>)
    requires Inv(s) && |path| > 1
    requires forall i :: 0 <= i < |path| ==> path[i] in s.birth
    requires forall i :: 0 <= i < |path| - 1 ==> path[i + 1] in EltsOf(s)[path[i]].up
    ensures Earlier(s.birth[path[|path| - 1]], s.birth[path[0]])
  {
    forall i | 0 <= i < |path| - 1
      ensures Earlier(s.birth[path[i + 1]], s.birth[path[i]])
    {
      ParentsComeFirst(s, path[i], path[i + 1]);
    }
    EverEarlier(s.birth, path);
  }

  // ---------------------------------------------------------------- quiescence

  lemma {:induction false} AllKnow(v: View, m: nat)
    requires v.Good() && v.msgs == [] && m < |v.ends| && v.Root().Some?
    ensures v.ends[m] == v.Root()
  {
    if m > 0 {
      AllKnow(v, Parent(m));
      assert Tally(v.msgs, FloodTo(m)) == 0;
    }
  }

  lemma {:induction false} SomeRoot(v: View, x: nat)
    requires v.Good() && v.msgs == [] && x in v.elts
    ensures v.Root().Some?
    decreases v.birth[x].node, v.birth[x].time
  {
    if x in v.link {
      BeforeIsEarlier(v, v.link[x], x);
      SomeRoot(v, v.link[x]);
    } else {
      assert Tally(v.msgs, About(x)) == 0;
    }
  }

  lemma AllPlaced(v: View, r: nat)
    requires v.Good() && v.msgs == [] && v.Root() == Some(r) && v.ends[v.birth[r].node].Some?
    ensures r !in v.link && v.elts[r].up == []
    ensures forall y :: y in v.elts ==> v.elts[y].valid
    ensures forall y :: y in v.elts && y != r ==> y in v.link && v.link[y] in v.elts && v.elts[y].up == [v.link[y]]
  {
    forall y | y in v.elts
      ensures v.elts[y].valid
      ensures y != r ==> y in v.link && v.link[y] in v.elts && v.elts[y].up == [v.link[y]]
    {
      assert Tally(v.msgs, About(y)) == 0;
      assert y in v.link ==> v.Before(v.link[y], y);
    }
  }

  lemma ListedByParent(v: View, r: nat)
    requires v.Linked() && v.elts.Keys == v.birth.Keys && r in v.elts && r !in v.link
    requires forall y :: y in v.elts && y != r ==> y in v.link && v.link[y] in v.elts && v.elts[y].up == [v.link[y]]
    ensures forall y, p: nat :: p in v.elts ==>
              multiset(v.elts[p].down)[y] == if y in v.birth && y != r && v.elts[y].up == [p] then 1 else 0
  {
    forall y, p: nat | p in v.elts
      ensures multiset(v.elts[p].down)[y] == if y in v.birth && y != r && v.elts[y].up == [p] then 1 else 0
    {
      assert y in v.link ==> v.Before(v.link[y], y);
    }
  }

  lemma QuietView(v: View, x: nat)
    requires v.Good() && v.msgs == [] && x in v.elts
    ensures v.Root().Some? && v.Root().value in v.birth && v.Root().value !in v.link
    ensures forall m :: 0 <= m < |v.ends| ==> v.ends[m] == v.Root()
    ensures var r := v.Root().value;
      && v.elts[r].up == [] && (forall y :: y in v.elts ==> v.elts[y].valid)
      && (forall y :: y in v.elts && y != r ==> y in v.link && v.link[y] in v.elts && v.elts[y].up == [v.link[y]])
      && (forall y, p: nat :: p in v.elts ==>
            multiset(v.elts[p].down)[y] == if y in v.birth && y != r && v.elts[y].up == [p] then 1 else 0)
  {
    SomeRoot(v, x);
    var r := v.Root().value;
    forall m: nat | m < |v.ends|
      ensures v.ends[m] == v.Root()
    {
      AllKnow(v, m);
    }
    assert v.ends[v.birth[r].node] == v.Root();
    AllPlaced(v, r);
    ListedByParent(v, r);
  }

  /** At quiescence, as soon as there is an element, all nodes name the same element as root; it
      is settled without a parent, and it alone is. Every other element has exactly one parent,
      and is listed once by that parent and by nobody else. */
  lemma QuiescentTree(s: State, x: nat)
    requires Inv(s) && s.msgs == [] && x in s.birth
    ensures var r := s.nodes[0].endpoint;
            && r.Some? && r.value in s.birth
            && (forall m :: 0 <= m < |s.nodes| ==> s.nodes[m].endpoint == r)
            && (forall y :: y in s.birth ==> EltsOf(s)[y].valid)
            && (forall y :: y in s.birth ==> (EltsOf(s)[y].up == [] <==> y == r.value))
            && (forall y :: y in s.birth && y != r.value ==>
                  && y in s.link && s.link[y] in s.birth
                  && EltsOf(s)[y].up == [s.link[y]])
            && (forall y, p: nat :: p in s.birth ==>
                  multiset(EltsOf(s)[p].down)[y]
                  == if y in s.birth && y != r.value && EltsOf(s)[y].up == [p] then 1 else 0)
  {
    QuietView(ViewOf(s), x);
    assert forall m :: 0 <= m < |s.nodes| ==> ViewOf(s).ends[m] == s.nodes[m].endpoint;
  }

  lemma ParentAtRest(s: State, x: nat) returns (p: nat)
    requires Inv(s) && s.msgs == [] && x in s.birth && s.nodes[0].endpoint != Some(x)
    ensures p in s.birth && Earlier(s.birth[p], s.birth[x])
    ensures x in EltsOf(s)[p].down && EltsOf(s)[x].up == [p]
  {
    QuiescentTree(s, x);
    p := s.link[x];
    ParentsComeFirst(s, x, p);
    assert multiset(EltsOf(s)[p].down)[x] == 1;
  }

  // Each element of the path lists the next one as a child, which names it as its parent.
  ghost predicate Descent(s: State, path: seq<nat>)
    requires Homed(s)
  {
    && (forall y :: y in path ==> y in s.birth)
    && forall i :: 0 <= i < |path| - 1 ==>
         path[i + 1] in EltsOf(s)[path[i]].down && EltsOf(s)[path[i + 1]].up == [path[i]]
  }

  lemma DescentExtends(s: State, path: seq<nat>, x: nat)
    requires Homed(s) && Descent(s, path) && path != [] && x in s.birth
    requires x in EltsOf(s)[path[|path| - 1]].down && EltsOf(s)[x].up == [path[|path| - 1]]
    ensures Descent(s, path + [x])
  {
    var longer := path + [x];
    forall i | 0 <= i < |longer| - 1
      ensures longer[i + 1] in EltsOf(s)[longer[i]].down && EltsOf(s)[longer[i + 1]].up == [longer[i]]
    {
    }
  }

  /** And every element is reached from the root through the lists of children. */
  lemma {:induction false} ReachedFromRoot(s: State, x: nat) returns (path: seq<nat>)
    requires Inv(s) && s.msgs == [] && x in s.birth
    ensures |path| > 0 && s.nodes[0].endpoint == Some(path[0]) && path[|path| - 1] == x
    ensures Descent(s, path)
    decreases s.birth[x].node, s.birth[x].time
  {
    if s.nodes[0].endpoint == Some(x) {
      path := [x];
    } else {
      var p := ParentAtRest(s, x);
      path := ReachedFromRoot(s, p);
      DescentExtends(s, path, x);
      path := path + [x];
    }
  }

  /** For every run: whenever nothing is in flight, all nodes name one root, and every element
      hangs below it by mutual parent and child links. */
  lemma SpanningTreeAtQuiescence(states: seq<State>, acts: seq<Action>, k: nat, x: nat) returns (path: seq<nat>)
    requires Execution(states, acts) && Initial(states[0]) && k < |states|
    requires states[k].msgs == [] && x in states[k].birth
    ensures Homed(states[k])
    ensures |path| > 0 && path[|path| - 1] == x && Descent(states[k], path)
    ensures forall m :: 0 <= m < |states[k].nodes| ==> states[k].nodes[m].endpoint == Some(path[0])
  {
    ExecutionInv(states, acts, k);
    QuiescentTree(states[k], x);
    path := ReachedFromRoot(states[k], x);
  }

  // ---------------------------------------------------------------- termination

  // How long a message can still go on: a request climbs at most to node 0.
  function Weight(k: Message): nat {
    match k
    case Endpoint(_, _) => 1
    case Downstream(m, _, _) => 2 + m
    case Upstream(_, _, _, _) => 1
  }

  function Weights(ms: seq<Message>): nat {
    if ms == [] then 0 else Weights(ms[..|ms| - 1]) + Weight(ms[|ms| - 1])
  }

  function Unaware(nodes: seq<Local>): nat {
    if nodes == [] then 0 else Unaware(nodes[..|nodes| - 1]) + if nodes[|nodes| - 1].endpoint == None then 1 else 0
  }

  function Measure(s: State): nat {
    3 * Unaware(s.nodes) + Weights(s.msgs)
  }

  lemma {:induction false} WeightsAppend(a: seq<Message>, b: seq<Message>)
    ensures Weights(a + b) == Weights(a) + Weights(b)
    decreases |b|
  {
    if b == [] {
      assert a + b == a;
    } else {
      assert (a + b)[..|a + b| - 1] == a + b[..|b| - 1];
      WeightsAppend(a, b[..|b| - 1]);
    }
  }

  lemma WeightsReplace(ms: seq<Message>, i: nat, out: seq<Message>)
    requires i < |ms|
    ensures Weights(Without(ms, i) + out) == Weights(ms) - Weight(ms[i]) + Weights(out)
  {
    assert ms == ms[..i] + ([ms[i]] + ms[i + 1..]);
    WeightsAppend(ms[..i], [ms[i]] + ms[i + 1..]);
    WeightsAppend([ms[i]], ms[i + 1..]);
    WeightsAppend(ms[..i], ms[i + 1..]);
    WeightsAppend(Without(ms, i), out);
  }

  lemma {:induction false} UnawareUpdate(nodes: seq<Local>, m: nat, l: Local)
    requires m < |nodes|
    ensures Unaware(nodes[m := l])
         == Unaware(nodes) - (if nodes[m].endpoint == None then 1 else 0) + if l.endpoint == None then 1 else 0
    decreases |nodes|
  {
    var n := |nodes| - 1;
    if m == n {
      assert nodes[m := l][..n] == nodes[..n];
    } else {
      assert nodes[m := l][..n] == nodes[..n][m := l];
      UnawareUpdate(nodes[..n], m, l);
    }
  }

  lemma AnnounceWeight(me: nat, n: nat, x: nat)
    ensures Weights(Announce(Leaves(me, n), x)) <= 2
  {
    var ms := Announce(Leaves(me, n), x);
    if |ms| == 2 {
      assert ms == [ms[0]] + [ms[1]];
      WeightsAppend([ms[0]], [ms[1]]);
    } else if |ms| == 1 {
      assert ms == [ms[0]];
    }
  }

  lemma MeasureAfter(s: State, i: nat, m: nat, l: Local, out: seq<Message>)
    requires i < |s.msgs| && m < |s.nodes|
    requires l.endpoint == s.nodes[m].endpoint || (s.nodes[m].endpoint == None && l.endpoint.Some?)
    ensures Measure(s.(nodes := s.nodes[m := l], msgs := Without(s.msgs, i) + out))
         == Measure(s) - (if l.endpoint == s.nodes[m].endpoint then 0 else 3) - Weight(s.msgs[i]) + Weights(out)
  {
    UnawareUpdate(s.nodes, m, l);
    WeightsReplace(s.msgs, i, out);
  }

  lemma DownstreamEnds(s: State, i: nat, t: nat)
    requires Enabled(s, Receive(i, t)) && s.msgs[i].Downstream?
    ensures Measure(Next(s, Receive(i, t))) < Measure(s)
  {
    var m, src, x := s.msgs[i].to, s.msgs[i].src, s.msgs[i].idx;
    var (l, out) := ReceiveDownstream(m, |s.nodes|, s.nodes[m], src, x, t);
    MeasureAfter(s, i, m, l, out);
    assert Measure(Next(s, Receive(i, t))) == Measure(s.(nodes := s.nodes[m := l], msgs := Without(s.msgs, i) + out));
    if s.nodes[m].elements == map[] && m == 0 {
      AnnounceWeight(0, |s.nodes|, x);
    }
  }

  /** Every handler lowers the measure: after finitely many insertions, finitely many messages. */
  lemma MessagesEnd(s: State, i: nat, t: nat)
    requires Inv(s) && Enabled(s, Receive(i, t))
    ensures Measure(Next(s, Receive(i, t))) < Measure(s)
  {
    HandledUnlessAborts(s, i);
    match s.msgs[i]
    case Endpoint(m, x) =>
      var (l, out) := RegEndpoint(m, |s.nodes|, s.nodes[m], x);
      MeasureAfter(s, i, m, l, out);
      AnnounceWeight(m, |s.nodes|, x);
    case Downstream(_, _, _) =>
      DownstreamEnds(s, i, t);
    case Upstream(m, _, p, _) =>
      MeasureAfter(s, i, m, ReceiveUpstream(s.nodes[m], p, t), []);
      assert Without(s.msgs, i) + [] == Without(s.msgs, i);
  }
}
