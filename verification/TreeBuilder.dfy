/** Building the spanning tree over the elements of an array by static insertion.

    The first element of a node has nobody local to join, so a request climbs the binary tree
    of nodes until a node with elements adopts it and replies, or until node 0, empty, makes it
    the endpoint (root) and floods that fact down the nodes. Every other element joins the
    local element with the fewest children. `count` is the node's produce/consume counter. */
module TreeBuilder {
  import opened Common
  import opened BinaryTree

  // An element's association: its parent (none for the root), whether that is settled, its children.
  datatype Assoc = Assoc(up: seq<nat>, valid: bool, down: seq<nat>)

  // What one node keeps for the array.
  datatype Local = Local(count: int, endpoint: Option<nat>, elements: map<nat, Assoc>)

  // Messages between nodes. `asker` is bookkeeping (not sent): the element that asked.
  datatype Message =
    | Endpoint(to: nat, idx: nat)
    | Downstream(to: nat, src: nat, idx: nat)
    | Upstream(to: nat, src: nat, parent: nat, asker: nat)

  const FRESH := Assoc([], false, [])

  // ---------------------------------------------------------------- the handlers of one node

  // A local element with the fewest children, whichever the hash map yields first.
  predicate Fewest(elements: map<nat, Assoc>, t: nat) {
    t in elements && forall e :: e in elements ==> |elements[t].down| <= |elements[e].down|
  }

  // A local element that has not been given its place yet.
  predicate Unplaced(elements: map<nat, Assoc>, t: nat) {
    t in elements && !elements[t].valid
  }

  function PutDownstream(elements: map<nat, Assoc>, t: nat, idx: nat): map<nat, Assoc>
    requires t in elements
  {
    elements[t := elements[t].(down := elements[t].down + [idx])]
  }

  function PutUpstream(a: Assoc, parent: nat): Assoc {
    a.(valid := true, up := a.up + [parent])
  }

  function SetEndpoint(a: Assoc): Assoc {
    a.(valid := true)
  }

  // Copies of the endpoint announcement, one per child node.
  function Announce(leaves: seq<nat>, idx: nat): seq<Message> {
    seq(|leaves|, i requires 0 <= i < |leaves| => Endpoint(leaves[i], idx))
  }

  // Record the endpoint, mark it if it is here, tell the child nodes.
  function RegEndpoint(me: nat, n: nat, l: Local, idx: nat): (Local, seq<Message>) {
    var elements := if idx in l.elements then l.elements[idx := SetEndpoint(l.elements[idx])] else l.elements;
    (Local(l.count + |Leaves(me, n)| - 1, Some(idx), elements), Announce(Leaves(me, n), idx))
  }

  // Ask the parent node, or become the endpoint at node 0. `src` is the asking element's node.
  function SendUpstream(me: nat, n: nat, l: Local, src: nat, idx: nat): (Local, seq<Message>) {
    var (l1, ms) := if me > 0 then (l, [Downstream(Parent(me), src, idx)]) else RegEndpoint(me, n, l, idx);
    (l1.(count := l1.count + 1), ms)
  }

  // A new element manifests on this node; t is the local parent chosen, if there is one. The
  // element counts as local while it registers, and enters the registry last.
  function Associate(me: nat, n: nat, l: Local, idx: nat, t: nat): (Local, seq<Message>)
    requires l.elements != map[] ==> t in l.elements
    requires idx !in l.elements
  {
    if l.elements != map[] then
      var es := PutDownstream(l.elements, t, idx);
      (l.(elements := es[idx := PutUpstream(FRESH, t)]), [])
    else
      var (l1, ms) := SendUpstream(me, n, l, me, idx);
      var a := if me > 0 then FRESH else SetEndpoint(FRESH);
      (l1.(elements := l1.elements[idx := a]), ms)
  }

  // A request from another node: adopt it here if there is anyone to adopt it, else pass it on.
  function ReceiveDownstream(me: nat, n: nat, l: Local, src: nat, idx: nat, t: nat): (Local, seq<Message>)
    requires l.elements != map[] ==> t in l.elements
  {
    if l.elements != map[] then
      (l.(elements := PutDownstream(l.elements, t, idx)), [Upstream(src, me, t, idx)])
    else
      var (l1, ms) := SendUpstream(me, n, l, src, idx);
      (l1.(count := l1.count - 1), ms)
  }

  // The reply: some unplaced local element becomes the child of `parent`.
  function ReceiveUpstream(l: Local, parent: nat, t: nat): Local
    requires t in l.elements
  {
    l.(elements := l.elements[t := PutUpstream(l.elements[t], parent)], count := l.count - 1)
  }

  // ---------------------------------------------------------------- all nodes

  // When and on which node an element was inserted.
  datatype Birth = Birth(node: nat, time: nat)

  // `birth`, `clock` and `link` are bookkeeping: `link` is the parent under which an element has
  // been listed.
  datatype State = State(nodes: seq<Local>, msgs: seq<Message>, birth: map<nat, Birth>, clock: nat, link: map<nat, nat>)

  datatype Action =
    | Insert(node: nat, idx: nat, pick: nat)
    | Receive(msg: nat, pick: nat)

  // Node 0 registers one endpoint: a second registration aborts on the source's assertion.
  predicate MayAsk(s: State, m: nat, pick: nat)
    requires m < |s.nodes|
  {
    if s.nodes[m].elements != map[] then Fewest(s.nodes[m].elements, pick)
    else m == 0 ==> s.nodes[0].endpoint == None
  }

  // An array index is inserted once, on one node.
  predicate Enabled(s: State, a: Action) {
    match a
    case Insert(m, x, pick) => m < |s.nodes| && x !in s.birth && x !in s.nodes[m].elements && MayAsk(s, m, pick)
    case Receive(i, pick) =>
      i < |s.msgs| && s.msgs[i].to < |s.nodes| &&
      match s.msgs[i]
      case Endpoint(m, _) => true
      case Downstream(m, _, _) => MayAsk(s, m, pick)
      case Upstream(m, _, _, _) => Unplaced(s.nodes[m].elements, pick)
  }

  function Next(s: State, a: Action): State
    requires Enabled(s, a)
  {
    var n := |s.nodes|;
    match a
    case Insert(m, x, t) =>
      var (l, out) := Associate(m, n, s.nodes[m], x, t);
      State(s.nodes[m := l], s.msgs + out, s.birth[x := Birth(m, s.clock)], s.clock + 1,
            if s.nodes[m].elements != map[] then s.link[x := t] else s.link)
    case Receive(i, t) =>
      var rest := Without(s.msgs, i);
      match s.msgs[i]
      case Endpoint(m, x) =>
        var (l, out) := RegEndpoint(m, n, s.nodes[m], x);
        s.(nodes := s.nodes[m := l], msgs := rest + out)
      case Downstream(m, src, x) =>
        var (l, out) := ReceiveDownstream(m, n, s.nodes[m], src, x, t);
        s.(nodes := s.nodes[m := l], msgs := rest + out,
           link := if s.nodes[m].elements != map[] then s.link[x := t] else s.link)
      case Upstream(m, _, p, _) =>
        s.(nodes := s.nodes[m := ReceiveUpstream(s.nodes[m], p, t)], msgs := rest)
  }

  // ---------------------------------------------------------------- counting messages

  function Tally(ms: seq<Message>, p: Message -> bool): nat {
    if ms == [] then 0 else Tally(ms[..|ms| - 1], p) + if p(ms[|ms| - 1]) then 1 else 0
  }

  // Messages about where element x belongs.
  function About(x: nat): Message -> bool {
    (m: Message) => (m.Downstream? && m.idx == x) || (m.Upstream? && m.asker == x)
  }

  // Endpoint announcements on their way to node m.
  function FloodTo(m: nat): Message -> bool {
    (k: Message) => k.Endpoint? && k.to == m
  }

  lemma {:induction false} TallyAppend(a: seq<Message>, b: seq<Message>, p: Message -> bool)
    ensures Tally(a + b, p) == Tally(a, p) + Tally(b, p)
    decreases |b|
  {
    if b == [] {
      assert a + b == a;
    } else {
      assert (a + b)[..|a + b| - 1] == a + b[..|b| - 1];
      TallyAppend(a, b[..|b| - 1], p);
    }
  }

  lemma TallyReplace(ms: seq<Message>, i: nat, out: seq<Message>, p: Message -> bool)
    requires i < |ms|
    ensures Tally(Without(ms, i) + out, p) == Tally(ms, p) - (if p(ms[i]) then 1 else 0) + Tally(out, p)
  {
    assert ms == ms[..i] + ([ms[i]] + ms[i + 1..]);
    TallyAppend(ms[..i], [ms[i]] + ms[i + 1..], p);
    TallyAppend([ms[i]], ms[i + 1..], p);
    TallyAppend(ms[..i], ms[i + 1..], p);
    TallyAppend(Without(ms, i), out, p);
    assert Tally([ms[i]], p) == if p(ms[i]) then 1 else 0;
  }

  lemma WithoutSubset<T>(s: seq<T>, i: nat)
    requires i < |s|
    ensures forall k :: k in Without(s, i) ==> k in s
  {
  }

  lemma {:induction false} TallyMember(ms: seq<Message>, p: Message -> bool, i: nat)
    requires i < |ms| && p(ms[i])
    ensures Tally(ms, p) > 0
    decreases |ms|
  {
    if i < |ms| - 1 {
      TallyMember(ms[..|ms| - 1], p, i);
    }
  }

  lemma OnlyOne(ms: seq<Message>, p: Message -> bool, i: nat)
    requires i < |ms| && p(ms[i]) && Tally(ms, p) <= 1
    ensures forall k :: k in Without(ms, i) ==> !p(k)
  {
    var rest := Without(ms, i);
    TallyReplace(ms, i, [], p);
    assert rest + [] == rest;
    forall k | k in rest
      ensures !p(k)
    {
      var j :| 0 <= j < |rest| && rest[j] == k;
      if p(rest[j]) {
        TallyMember(rest, p, j);
      }
    }
  }

  // The announcements of one node: one to each child node.
  lemma TallyAnnounce(me: nat, n: nat, x: nat, m: nat)
    ensures Tally(Announce(Leaves(me, n), x), FloodTo(m)) == if 0 < m < n && Parent(m) == me then 1 else 0
    ensures Tally(Announce(Leaves(me, n), x), About(m)) == 0
  {
    var ls := Leaves(me, n);
    var ms := Announce(ls, x);
    if |ls| == 2 {
      assert ms == [ms[0]] + [ms[1]];
      TallyAppend([ms[0]], [ms[1]], FloodTo(m));
      TallyAppend([ms[0]], [ms[1]], About(m));
    } else if |ls| == 1 {
      assert ms == [ms[0]];
    }
  }

  function SumCounts(nodes: seq<Local>): int {
    if nodes == [] then 0 else SumCounts(nodes[..|nodes| - 1]) + nodes[|nodes| - 1].count
  }

  lemma {:induction false} SumCountsUpdate(nodes: seq<Local>, m: nat, l: Local)
    requires m < |nodes|
    ensures SumCounts(nodes[m := l]) == SumCounts(nodes) - nodes[m].count + l.count
    decreases |nodes|
  {
    var n := |nodes| - 1;
    if m == n {
      assert nodes[m := l][..n] == nodes[..n];
    } else {
      assert nodes[m := l][..n] == nodes[..n][m := l];
      SumCountsUpdate(nodes[..n], m, l);
    }
  }

  /** Conservation: every handler changes the sum of the nodes' counters by what it produces
      less what it consumes, so the sum stays the number of messages in flight. */
  lemma CounterConservation(s: State, a: Action)
    requires Enabled(s, a) && SumCounts(s.nodes) == |s.msgs|
    ensures SumCounts(Next(s, a).nodes) == |Next(s, a).msgs|
  {
    var m := if a.Insert? then a.node else s.msgs[a.msg].to;
    SumCountsUpdate(s.nodes, m, Next(s, a).nodes[m]);
  }

  // ---------------------------------------------------------------- the invariant

  // The registries and the bookkeeping agree.
  ghost predicate Homed(s: State) {
    && |s.nodes| > 0
    && (forall x :: x in s.birth ==> s.birth[x].node < |s.nodes| && x in s.nodes[s.birth[x].node].elements)
    && (forall m, x :: 0 <= m < |s.nodes| && x in s.nodes[m].elements ==> x in s.birth && s.birth[x].node == m)
  }

  // All elements and all endpoints at a glance.
  datatype View = View(elts: map<nat, Assoc>, birth: map<nat, Birth>, clock: nat, link: map<nat, nat>,
                       ends: seq<Option<nat>>, msgs: seq<Message>) {
    predicate Shape() {
      && |ends| > 0 && elts.Keys == birth.Keys
      && forall x :: x in birth ==> birth[x].node < |ends| && birth[x].time < clock
    }

    function Root(): Option<nat>
      requires Shape()
    {
      ends[0]
    }

    // p was there first: earlier on the same node, or on a node above.
    predicate Before(p: nat, x: nat) {
      && p in birth && x in birth
      && ((birth[p].node == birth[x].node && birth[p].time < birth[x].time) || Above(birth[p].node, birth[x].node))
    }

    // Only the first element of a node can be unplaced.
    ghost predicate Ordered() {
      forall x, y :: x in elts && y in elts && x in birth && y in birth && x != y ==>
        birth[x].node == birth[y].node && !elts[x].valid ==> birth[x].time < birth[y].time
    }

    // An element is listed under its link and nowhere else, once; links lead to earlier elements.
    ghost predicate Linked() {
      && (forall p, x: nat {:trigger multiset(elts[p].down)[x]} :: p in elts ==>
            multiset(elts[p].down)[x] == if x in link && link[x] == p then 1 else 0)
      && (forall x :: x in link ==> Before(link[x], x))
    }

    // Every element is placed under its link, or is the root, or is not placed yet.
    ghost predicate Placed()
      requires Shape()
    {
      && (forall x :: x in elts ==>
            if !elts[x].valid then elts[x].up == []
            else if x in link then elts[x].up == [link[x]]
            else elts[x].up == [] && Root() == Some(x))
      && (Root().Some? ==>
            var r := Root().value;
            r in elts && r !in link && (elts[r].valid <==> ends[birth[r].node].Some?))
    }

    // An unplaced element waits for one message, or for the announcement that it is the root.
    predicate Waits(x: nat)
      requires Shape()
    {
      x in elts && !elts[x].valid && Root() != Some(x)
    }

    ghost predicate Tokens()
      requires Shape()
    {
      forall x: nat :: Tally(msgs, About(x)) == if Waits(x) then 1 else 0
    }

    predicate Meaningful(k: Message)
      requires Shape()
    {
      match k
      case Endpoint(m, x) => m < |ends| && Root() == Some(x)
      case Downstream(m, src, x) => x in birth && birth[x].node == src && Above(m, src) && x !in link
      case Upstream(m, _, p, x) => x in birth && birth[x].node == m && x in link && link[x] == p
    }

    ghost predicate Messages()
      requires Shape()
    {
      forall k :: k in msgs ==> Meaningful(k)
    }

    ghost predicate Flood()
      requires Shape()
    {
      && (forall m: nat :: m < |ends| && ends[m].Some? ==> ends[m] == Root() && (m > 0 ==> ends[Parent(m)].Some?))
      && (forall m: nat :: m < |ends| ==>
            Tally(msgs, FloodTo(m)) == if m > 0 && ends[Parent(m)].Some? && ends[m] == None then 1 else 0)
    }

    ghost predicate Good() {
      Shape() && Ordered() && Linked() && Placed() && Tokens() && Messages() && Flood()
    }
  }

  function Ends(nodes: seq<Local>): seq<Option<nat>> {
    seq(|nodes|, i requires 0 <= i < |nodes| => nodes[i].endpoint)
  }

  ghost function ViewOf(s: State): View
    requires Homed(s)
  {
    View(EltsOf(s), s.birth, s.clock, s.link, Ends(s.nodes), s.msgs)
  }

  ghost predicate Inv(s: State) {
    Homed(s) && ViewOf(s).Good() && SumCounts(s.nodes) == |s.msgs|
  }

  // ---------------------------------------------------------------- what the steps do to the view

  ghost function EltsOf(s: State): map<nat, Assoc>
    requires Homed(s)
  {
    map x | x in s.birth :: s.nodes[s.birth[x].node].elements[x]
  }

  lemma EltsChangeAt(s: State, n: State, m: nat, x: nat)
    requires Homed(s) && Homed(n) && m < |s.nodes| == |n.nodes|
    requires forall k :: 0 <= k < |s.nodes| && k != m ==> n.nodes[k].elements == s.nodes[k].elements
    requires s.nodes[m].elements.Keys <= n.nodes[m].elements.Keys
    ensures x in n.birth <==> x in s.birth || x in n.nodes[m].elements
    ensures x in n.birth ==>
              n.nodes[n.birth[x].node].elements[x] ==
              if x in n.nodes[m].elements then n.nodes[m].elements[x] else s.nodes[s.birth[x].node].elements[x]
  {
    if x in n.birth && x !in n.nodes[m].elements {
      assert x in s.nodes[n.birth[x].node].elements;
    }
    if x in s.birth && x !in n.nodes[m].elements {
      assert x in n.nodes[s.birth[x].node].elements;
    }
  }

  lemma EltsChange(s: State, n: State, m: nat)
    requires Homed(s) && Homed(n) && m < |s.nodes| == |n.nodes|
    requires forall k :: 0 <= k < |s.nodes| && k != m ==> n.nodes[k].elements == s.nodes[k].elements
    requires s.nodes[m].elements.Keys <= n.nodes[m].elements.Keys
    ensures EltsOf(n) == EltsOf(s) + n.nodes[m].elements
  {
    var before, after, l := EltsOf(s), EltsOf(n), n.nodes[m].elements;
    forall x: nat
      ensures x in after <==> x in before + l
      ensures x in after ==> after[x] == (before + l)[x]
    {
      EltsChangeAt(s, n, m, x);
    }
  }

  // The registry of one node changes: x joins it, if x is new.
  ghost predicate Changed(s: State, n: State, m: nat, x: nat) {
    && m < |s.nodes| == |n.nodes|
    && n.nodes == s.nodes[m := n.nodes[m]]
    && (if x in s.birth then n.birth == s.birth && n.nodes[m].elements.Keys == s.nodes[m].elements.Keys
        else n.birth == s.birth[x := Birth(m, s.clock)] && n.nodes[m].elements.Keys == s.nodes[m].elements.Keys + {x})
  }

  lemma HomedChange(s: State, n: State, m: nat, x: nat)
    requires Homed(s) && Changed(s, n, m, x)
    ensures Homed(n)
  {
    forall y | y in n.birth
      ensures n.birth[y].node < |n.nodes| && y in n.nodes[n.birth[y].node].elements
    {
      if y in s.birth {
        assert y in s.nodes[s.birth[y].node].elements;
      }
    }
    forall k, y | 0 <= k < |n.nodes| && y in n.nodes[k].elements
      ensures y in n.birth && n.birth[y].node == k
    {
      assert y in s.nodes[k].elements || (k == m && y == x);
    }
  }

  lemma ViewChange(s: State, n: State, m: nat, x: nat)
    requires Homed(s) && Changed(s, n, m, x)
    ensures Homed(n)
    ensures ViewOf(n) == View(EltsOf(s) + n.nodes[m].elements, n.birth, n.clock, n.link,
      Ends(s.nodes)[m := n.nodes[m].endpoint], n.msgs)
  {
    HomedChange(s, n, m, x);
    EltsChange(s, n, m);
    assert Ends(n.nodes) == Ends(s.nodes)[m := n.nodes[m].endpoint];
  }

  // ---------------------------------------------------------------- each step keeps the view good

  lemma MessagesSent(ms: seq<Message>, out: seq<Message>)
    ensures forall x: nat :: Tally(ms + out, About(x)) == Tally(ms, About(x)) + Tally(out, About(x))
    ensures forall m: nat :: Tally(ms + out, FloodTo(m)) == Tally(ms, FloodTo(m)) + Tally(out, FloodTo(m))
  {
    forall x: nat
      ensures Tally(ms + out, About(x)) == Tally(ms, About(x)) + Tally(out, About(x))
      ensures Tally(ms + out, FloodTo(x)) == Tally(ms, FloodTo(x)) + Tally(out, FloodTo(x))
    {
      TallyAppend(ms, out, About(x));
      TallyAppend(ms, out, FloodTo(x));
    }
  }

  lemma OneMessage(k: Message)
    ensures forall x: nat :: Tally([k], About(x)) == if About(x)(k) then 1 else 0
    ensures forall m: nat :: Tally([k], FloodTo(m)) == if FloodTo(m)(k) then 1 else 0
  {
  }

  function Less(n: nat, b: bool): int {
    n - if b then 1 else 0
  }

  lemma MessageHandled(ms: seq<Message>, i: nat, out: seq<Message>)
    requires i < |ms|
    ensures forall x: nat ::
              Tally(Without(ms, i) + out, About(x))
              == Less(Tally(ms, About(x)), About(x)(ms[i])) + Tally(out, About(x))
    ensures forall m: nat ::
              Tally(Without(ms, i) + out, FloodTo(m))
              == Less(Tally(ms, FloodTo(m)), FloodTo(m)(ms[i])) + Tally(out, FloodTo(m))
  {
    forall x: nat
      ensures Tally(Without(ms, i) + out, About(x)) == Less(Tally(ms, About(x)), About(x)(ms[i])) + Tally(out, About(x))
      ensures Tally(Without(ms, i) + out, FloodTo(x))
        == Less(Tally(ms, FloodTo(x)), FloodTo(x)(ms[i])) + Tally(out, FloodTo(x))
    {
      TallyReplace(ms, i, out, About(x));
      TallyReplace(ms, i, out, FloodTo(x));
    }
  }

  // x is listed under t.
  lemma LinkedPut(v: View, w: View, t: nat, x: nat)
    requires v.Linked() && t in v.elts && x !in v.link
    requires w.link == v.link[x := t] && w.birth.Keys >= v.birth.Keys
    requires forall y :: y in v.birth ==> w.birth[y] == v.birth[y]
    requires w.Before(t, x)
    requires forall p :: p in w.elts ==>
               if p == t then w.elts[p].down == v.elts[p].down + [x]
               else if p in v.elts then w.elts[p].down == v.elts[p].down
               else w.elts[p].down == [] && p !in v.birth
    ensures w.Linked()
  {
    forall p, y: nat | p in w.elts
      ensures multiset(w.elts[p].down)[y] == if y in w.link && w.link[y] == p then 1 else 0
    {
      if p !in v.elts && y in v.link {
        assert v.Before(v.link[y], y);
      }
    }
    forall y | y in w.link
      ensures w.Before(w.link[y], y)
    {
      if y != x {
        assert v.Before(v.link[y], y);
      }
    }
  }

  // Nobody is listed anew.
  lemma LinkedKept(v: View, w: View)
    requires v.Linked()
    requires w.link == v.link && w.birth.Keys >= v.birth.Keys
    requires forall y :: y in v.birth ==> w.birth[y] == v.birth[y]
    requires forall p :: p in w.elts ==>
               if p in v.elts then w.elts[p].down == v.elts[p].down else w.elts[p].down == [] && p !in v.birth
    ensures w.Linked()
  {
    forall y | y in w.link
      ensures w.Before(w.link[y], y)
    {
      assert v.Before(v.link[y], y);
    }
  }

  lemma Unlinked(v: View, x: nat)
    requires v.Linked() && x !in v.birth
    ensures x !in v.link
  {
    assert x in v.link ==> v.Before(v.link[x], x);
  }

  // A new element x next to the local element t.
  function Join(v: View, m: nat, x: nat, t: nat): View
    requires t in v.elts
  {
    v.(elts := PutDownstream(v.elts, t, x)[x := PutUpstream(FRESH, t)], birth := v.birth[x := Birth(m, v.clock)],
       clock := v.clock + 1, link := v.link[x := t])
  }

  lemma JoinLinked(v: View, m: nat, x: nat, t: nat)
    requires v.Shape() && v.Linked()
    requires x !in v.elts && t in v.elts && v.birth[t].node == m
    ensures Join(v, m, x, t).Shape() && Join(v, m, x, t).Linked()
  {
    var w := Join(v, m, x, t);
    Unlinked(v, x);
    assert w.Before(t, x);
    LinkedPut(v, w, t, x);
  }

  lemma JoinOrdered(v: View, m: nat, x: nat, t: nat)
    requires v.Shape() && v.Ordered()
    requires x !in v.elts && t in v.elts && v.birth[t].node == m
    ensures Join(v, m, x, t).Shape() && Join(v, m, x, t).Ordered()
  {
  }

  lemma JoinPlaced(v: View, m: nat, x: nat, t: nat)
    requires v.Shape() && v.Linked() && v.Placed()
    requires x !in v.elts && t in v.elts && v.birth[t].node == m
    ensures Join(v, m, x, t).Shape() && Join(v, m, x, t).Placed()
  {
  }

  lemma JoinTokens(v: View, m: nat, x: nat, t: nat)
    requires v.Shape() && v.Tokens()
    requires x !in v.elts && t in v.elts && v.birth[t].node == m
    ensures Join(v, m, x, t).Shape() && Join(v, m, x, t).Tokens()
  {
  }

  lemma JoinMessages(v: View, m: nat, x: nat, t: nat)
    requires v.Shape() && v.Messages()
    requires x !in v.elts && t in v.elts && v.birth[t].node == m
    ensures Join(v, m, x, t).Shape() && Join(v, m, x, t).Messages()
  {
  }

  lemma JoinGood(v: View, m: nat, x: nat, t: nat)
    requires v.Good()
    requires x !in v.elts && t in v.elts && v.birth[t].node == m
    ensures Join(v, m, x, t).Good()
  {
    JoinLinked(v, m, x, t);
    JoinOrdered(v, m, x, t);
    JoinPlaced(v, m, x, t);
    JoinTokens(v, m, x, t);
    JoinMessages(v, m, x, t);
  }

  // The first element of a node below node 0.
  function Ask(v: View, m: nat, x: nat): View
    requires m > 0
  {
    v.(elts := v.elts[x := FRESH], birth := v.birth[x := Birth(m, v.clock)], clock := v.clock + 1,
       msgs := v.msgs + [Downstream(Parent(m), m, x)])
  }

  lemma AskLinked(v: View, m: nat, x: nat)
    requires v.Shape() && v.Linked()
    requires x !in v.elts && 0 < m < |v.ends|
    ensures Ask(v, m, x).Shape() && Ask(v, m, x).Linked()
  {
    LinkedKept(v, Ask(v, m, x));
  }

  lemma AskOrdered(v: View, m: nat, x: nat)
    requires v.Shape() && v.Ordered() && forall y :: y in v.birth ==> v.birth[y].node != m
    requires x !in v.elts && 0 < m < |v.ends|
    ensures Ask(v, m, x).Shape() && Ask(v, m, x).Ordered()
  {
  }

  lemma AskPlaced(v: View, m: nat, x: nat)
    requires v.Shape() && v.Linked() && v.Placed()
    requires x !in v.elts && 0 < m < |v.ends|
    ensures Ask(v, m, x).Shape() && Ask(v, m, x).Placed()
  {
  }

  lemma AskTokens(v: View, m: nat, x: nat)
    requires v.Shape() && v.Tokens() && v.Linked() && v.Placed()
    requires x !in v.elts && 0 < m < |v.ends|
    ensures Ask(v, m, x).Shape() && Ask(v, m, x).Tokens()
  {
    MessagesSent(v.msgs, [Downstream(Parent(m), m, x)]);
    OneMessage(Downstream(Parent(m), m, x));
  }

  lemma AskMessages(v: View, m: nat, x: nat)
    requires v.Shape() && v.Messages() && v.Linked()
    requires x !in v.elts && 0 < m < |v.ends|
    ensures Ask(v, m, x).Shape() && Ask(v, m, x).Messages()
  {
    Unlinked(v, x);
  }

  lemma AskFlood(v: View, m: nat, x: nat)
    requires v.Shape() && v.Flood()
    requires x !in v.elts && 0 < m < |v.ends|
    ensures Ask(v, m, x).Shape() && Ask(v, m, x).Flood()
  {
    MessagesSent(v.msgs, [Downstream(Parent(m), m, x)]);
    OneMessage(Downstream(Parent(m), m, x));
  }

  lemma AskGood(v: View, m: nat, x: nat)
    requires v.Good()
    requires x !in v.elts && 0 < m < |v.ends|
    requires forall y :: y in v.birth ==> v.birth[y].node != m
    ensures Ask(v, m, x).Good()
  {
    AskLinked(v, m, x);
    AskOrdered(v, m, x);
    AskPlaced(v, m, x);
    AskTokens(v, m, x);
    AskMessages(v, m, x);
    AskFlood(v, m, x);
  }

  // The first element of node 0, when no endpoint is known there.
  function Crown(v: View, x: nat): View
    requires v.Shape()
  {
    v.(elts := v.elts[x := SetEndpoint(FRESH)], birth := v.birth[x := Birth(0, v.clock)], clock := v.clock + 1,
       ends := v.ends[0 := Some(x)], msgs := v.msgs + Announce(Leaves(0, |v.ends|), x))
  }

  lemma CrownLinked(v: View, x: nat)
    requires v.Shape() && v.Linked()
    requires x !in v.elts && v.ends[0] == None
    ensures Crown(v, x).Shape() && Crown(v, x).Linked()
  {
    LinkedKept(v, Crown(v, x));
  }

  lemma CrownOrdered(v: View, x: nat)
    requires v.Shape() && v.Ordered() && forall y :: y in v.birth ==> v.birth[y].node != 0
    requires x !in v.elts && v.ends[0] == None
    ensures Crown(v, x).Shape() && Crown(v, x).Ordered()
  {
  }

  lemma CrownPlaced(v: View, x: nat)
    requires v.Shape() && v.Linked() && v.Placed()
    requires x !in v.elts && v.ends[0] == None
    ensures Crown(v, x).Shape() && Crown(v, x).Placed()
  {
    Unlinked(v, x);
  }

  lemma CrownTokens(v: View, x: nat)
    requires v.Shape() && v.Tokens()
    requires x !in v.elts && v.ends[0] == None
    ensures Crown(v, x).Shape() && Crown(v, x).Tokens()
  {
    MessagesSent(v.msgs, Announce(Leaves(0, |v.ends|), x));
    forall m: nat
      ensures Tally(Announce(Leaves(0, |v.ends|), x), FloodTo(m)) == if 0 < m < |v.ends| && Parent(m) == 0 then 1 else 0
      ensures Tally(Announce(Leaves(0, |v.ends|), x), About(m)) == 0
    {
      TallyAnnounce(0, |v.ends|, x, m);
    }
  }

  lemma CrownMessages(v: View, x: nat)
    requires v.Shape() && v.Messages()
    requires x !in v.elts && v.ends[0] == None
    ensures Crown(v, x).Shape() && Crown(v, x).Messages()
  {
  }

  lemma CrownFlood(v: View, x: nat)
    requires v.Shape() && v.Flood()
    requires x !in v.elts && v.ends[0] == None
    ensures Crown(v, x).Shape() && Crown(v, x).Flood()
  {
    MessagesSent(v.msgs, Announce(Leaves(0, |v.ends|), x));
    forall m: nat
      ensures Tally(Announce(Leaves(0, |v.ends|), x), FloodTo(m)) == if 0 < m < |v.ends| && Parent(m) == 0 then 1 else 0
      ensures Tally(Announce(Leaves(0, |v.ends|), x), About(m)) == 0
    {
      TallyAnnounce(0, |v.ends|, x, m);
    }
  }

  lemma CrownGood(v: View, x: nat)
    requires v.Good()
    requires x !in v.elts && v.ends[0] == None
    requires forall y :: y in v.birth ==> v.birth[y].node != 0
    ensures Crown(v, x).Good()
  {
    CrownLinked(v, x);
    CrownOrdered(v, x);
    CrownPlaced(v, x);
    CrownTokens(v, x);
    CrownMessages(v, x);
    CrownFlood(v, x);
  }

  // The endpoint announcement reaches node m, and goes on to its child nodes.
  function Spread(v: View, i: nat): View
    requires v.Shape() && i < |v.msgs| && v.msgs[i].Endpoint? && v.msgs[i].to < |v.ends|
  {
    var m, x := v.msgs[i].to, v.msgs[i].idx;
    v.(elts := if x in v.elts && v.birth[x].node == m then v.elts[x := SetEndpoint(v.elts[x])] else v.elts,
       ends := v.ends[m := Some(x)], msgs := Without(v.msgs, i) + Announce(Leaves(m, |v.ends|), x))
  }

  lemma SpreadLinked(v: View, i: nat)
    requires v.Shape() && v.Linked()
    requires i < |v.msgs| && v.msgs[i].Endpoint? && v.Meaningful(v.msgs[i])
    ensures Spread(v, i).Shape() && Spread(v, i).Linked()
  {
    LinkedKept(v, Spread(v, i));
  }

  lemma SpreadOrdered(v: View, i: nat)
    requires v.Shape() && v.Ordered()
    requires i < |v.msgs| && v.msgs[i].Endpoint? && v.Meaningful(v.msgs[i])
    ensures Spread(v, i).Shape() && Spread(v, i).Ordered()
  {
  }

  lemma SpreadPlaced(v: View, i: nat)
    requires v.Shape() && v.Linked() && v.Placed()
    requires i < |v.msgs| && v.msgs[i].Endpoint? && v.Meaningful(v.msgs[i])
    ensures Spread(v, i).Shape() && Spread(v, i).Placed()
  {
  }

  lemma SpreadTokens(v: View, i: nat)
    requires v.Shape() && v.Tokens()
    requires i < |v.msgs| && v.msgs[i].Endpoint? && v.Meaningful(v.msgs[i])
    ensures Spread(v, i).Shape() && Spread(v, i).Tokens()
  {
    var m, x := v.msgs[i].to, v.msgs[i].idx;
    MessageHandled(v.msgs, i, Announce(Leaves(m, |v.ends|), x));
    forall k: nat
      ensures Tally(Announce(Leaves(m, |v.ends|), x), FloodTo(k)) == if 0 < k < |v.ends| && Parent(k) == m then 1 else 0
      ensures Tally(Announce(Leaves(m, |v.ends|), x), About(k)) == 0
    {
      TallyAnnounce(m, |v.ends|, x, k);
    }
  }

  lemma SpreadMessages(v: View, i: nat)
    requires v.Shape() && v.Messages()
    requires i < |v.msgs| && v.msgs[i].Endpoint? && v.Meaningful(v.msgs[i])
    ensures Spread(v, i).Shape() && Spread(v, i).Messages()
  {
    WithoutSubset(v.msgs, i);
  }

  lemma SpreadFlood(v: View, i: nat)
    requires v.Shape() && v.Flood()
    requires i < |v.msgs| && v.msgs[i].Endpoint? && v.Meaningful(v.msgs[i])
    ensures Spread(v, i).Shape() && Spread(v, i).Flood()
  {
    var m, x := v.msgs[i].to, v.msgs[i].idx;
    MessageHandled(v.msgs, i, Announce(Leaves(m, |v.ends|), x));
    forall k: nat
      ensures Tally(Announce(Leaves(m, |v.ends|), x), FloodTo(k)) == if 0 < k < |v.ends| && Parent(k) == m then 1 else 0
      ensures Tally(Announce(Leaves(m, |v.ends|), x), About(k)) == 0
    {
      TallyAnnounce(m, |v.ends|, x, k);
    }
    TallyMember(v.msgs, FloodTo(m), i);
  }

  lemma SpreadGood(v: View, i: nat)
    requires v.Good()
    requires i < |v.msgs| && v.msgs[i].Endpoint? && v.Meaningful(v.msgs[i])
    ensures Spread(v, i).Good()
  {
    SpreadLinked(v, i);
    SpreadOrdered(v, i);
    SpreadPlaced(v, i);
    SpreadTokens(v, i);
    SpreadMessages(v, i);
    SpreadFlood(v, i);
  }

  // A request finds the element t to adopt x.
  function Adopt(v: View, i: nat, t: nat): View
    requires i < |v.msgs| && v.msgs[i].Downstream? && t in v.elts
  {
    var k := v.msgs[i];
    v.(elts := PutDownstream(v.elts, t, k.idx), link := v.link[k.idx := t],
       msgs := Without(v.msgs, i) + [Upstream(k.src, k.to, t, k.idx)])
  }

  lemma AdoptLinked(v: View, i: nat, t: nat)
    requires v.Shape() && v.Linked()
    requires i < |v.msgs| && v.msgs[i].Downstream? && v.Meaningful(v.msgs[i]) && t in v.elts
    requires v.birth[t].node == v.msgs[i].to
    ensures Adopt(v, i, t).Shape() && Adopt(v, i, t).Linked()
  {
    LinkedPut(v, Adopt(v, i, t), t, v.msgs[i].idx);
  }

  lemma AdoptOrdered(v: View, i: nat, t: nat)
    requires v.Shape() && v.Ordered()
    requires i < |v.msgs| && v.msgs[i].Downstream? && v.Meaningful(v.msgs[i]) && t in v.elts
    requires v.birth[t].node == v.msgs[i].to
    ensures Adopt(v, i, t).Shape() && Adopt(v, i, t).Ordered()
  {
  }

  lemma AdoptPlaced(v: View, i: nat, t: nat)
    requires v.Shape() && v.Linked() && v.Placed() && v.Tokens()
    requires i < |v.msgs| && v.msgs[i].Downstream? && v.Meaningful(v.msgs[i]) && t in v.elts
    requires v.birth[t].node == v.msgs[i].to
    ensures Adopt(v, i, t).Shape() && Adopt(v, i, t).Placed()
  {
    TallyMember(v.msgs, About(v.msgs[i].idx), i);
  }

  lemma AdoptTokens(v: View, i: nat, t: nat)
    requires v.Shape() && v.Tokens()
    requires i < |v.msgs| && v.msgs[i].Downstream? && v.Meaningful(v.msgs[i]) && t in v.elts
    requires v.birth[t].node == v.msgs[i].to
    ensures Adopt(v, i, t).Shape() && Adopt(v, i, t).Tokens()
  {
    var k := v.msgs[i];
    MessageHandled(v.msgs, i, [Upstream(k.src, k.to, t, k.idx)]);
    OneMessage(Upstream(k.src, k.to, t, k.idx));
  }

  lemma AdoptMessages(v: View, i: nat, t: nat)
    requires v.Shape() && v.Messages() && v.Tokens()
    requires i < |v.msgs| && v.msgs[i].Downstream? && v.Meaningful(v.msgs[i]) && t in v.elts
    requires v.birth[t].node == v.msgs[i].to
    ensures Adopt(v, i, t).Shape() && Adopt(v, i, t).Messages()
  {
    WithoutSubset(v.msgs, i);
    OnlyOne(v.msgs, About(v.msgs[i].idx), i);
  }

  lemma AdoptFlood(v: View, i: nat, t: nat)
    requires v.Shape() && v.Flood()
    requires i < |v.msgs| && v.msgs[i].Downstream? && v.Meaningful(v.msgs[i]) && t in v.elts
    requires v.birth[t].node == v.msgs[i].to
    ensures Adopt(v, i, t).Shape() && Adopt(v, i, t).Flood()
  {
    var k := v.msgs[i];
    MessageHandled(v.msgs, i, [Upstream(k.src, k.to, t, k.idx)]);
    OneMessage(Upstream(k.src, k.to, t, k.idx));
  }

  lemma AdoptGood(v: View, i: nat, t: nat)
    requires v.Good()
    requires i < |v.msgs| && v.msgs[i].Downstream? && v.Meaningful(v.msgs[i]) && t in v.elts
    requires v.birth[t].node == v.msgs[i].to
    ensures Adopt(v, i, t).Good()
  {
    AdoptLinked(v, i, t);
    AdoptOrdered(v, i, t);
    AdoptPlaced(v, i, t);
    AdoptTokens(v, i, t);
    AdoptMessages(v, i, t);
    AdoptFlood(v, i, t);
  }

  // A request passes through a node without elements.
  function Forward(v: View, i: nat): View
    requires i < |v.msgs| && v.msgs[i].Downstream? && v.msgs[i].to > 0
  {
    var k := v.msgs[i];
    v.(msgs := Without(v.msgs, i) + [Downstream(Parent(k.to), k.src, k.idx)])
  }

  lemma ForwardLinked(v: View, i: nat)
    requires v.Shape() && v.Linked()
    requires i < |v.msgs| && v.msgs[i].Downstream? && v.Meaningful(v.msgs[i]) && v.msgs[i].to > 0
    ensures Forward(v, i).Shape() && Forward(v, i).Linked()
  {
    LinkedKept(v, Forward(v, i));
  }

  lemma ForwardOrdered(v: View, i: nat)
    requires v.Shape() && v.Ordered()
    requires i < |v.msgs| && v.msgs[i].Downstream? && v.Meaningful(v.msgs[i]) && v.msgs[i].to > 0
    ensures Forward(v, i).Shape() && Forward(v, i).Ordered()
  {
  }

  lemma ForwardPlaced(v: View, i: nat)
    requires v.Shape() && v.Linked() && v.Placed()
    requires i < |v.msgs| && v.msgs[i].Downstream? && v.Meaningful(v.msgs[i]) && v.msgs[i].to > 0
    ensures Forward(v, i).Shape() && Forward(v, i).Placed()
  {
  }

  lemma ForwardTokens(v: View, i: nat)
    requires v.Shape() && v.Tokens()
    requires i < |v.msgs| && v.msgs[i].Downstream? && v.Meaningful(v.msgs[i]) && v.msgs[i].to > 0
    ensures Forward(v, i).Shape() && Forward(v, i).Tokens()
  {
    var k := v.msgs[i];
    MessageHandled(v.msgs, i, [Downstream(Parent(k.to), k.src, k.idx)]);
    OneMessage(Downstream(Parent(k.to), k.src, k.idx));
  }

  lemma ForwardMessages(v: View, i: nat)
    requires v.Shape() && v.Messages()
    requires i < |v.msgs| && v.msgs[i].Downstream? && v.Meaningful(v.msgs[i]) && v.msgs[i].to > 0
    ensures Forward(v, i).Shape() && Forward(v, i).Messages()
  {
    WithoutSubset(v.msgs, i);
    AboveParent(v.msgs[i].to, v.msgs[i].src);
  }

  lemma ForwardFlood(v: View, i: nat)
    requires v.Shape() && v.Flood()
    requires i < |v.msgs| && v.msgs[i].Downstream? && v.Meaningful(v.msgs[i]) && v.msgs[i].to > 0
    ensures Forward(v, i).Shape() && Forward(v, i).Flood()
  {
    var k := v.msgs[i];
    MessageHandled(v.msgs, i, [Downstream(Parent(k.to), k.src, k.idx)]);
    OneMessage(Downstream(Parent(k.to), k.src, k.idx));
  }

  lemma ForwardGood(v: View, i: nat)
    requires v.Good()
    requires i < |v.msgs| && v.msgs[i].Downstream? && v.Meaningful(v.msgs[i]) && v.msgs[i].to > 0
    ensures Forward(v, i).Good()
  {
    ForwardLinked(v, i);
    ForwardOrdered(v, i);
    ForwardPlaced(v, i);
    ForwardTokens(v, i);
    ForwardMessages(v, i);
    ForwardFlood(v, i);
  }

  // A request reaches node 0, without elements and without an endpoint.
  function CrownRemote(v: View, i: nat): View
    requires v.Shape() && i < |v.msgs| && v.msgs[i].Downstream?
  {
    var x := v.msgs[i].idx;
    v.(ends := v.ends[0 := Some(x)], msgs := Without(v.msgs, i) + Announce(Leaves(0, |v.ends|), x))
  }

  lemma CrownRemoteLinked(v: View, i: nat)
    requires v.Shape() && v.Linked()
    requires i < |v.msgs| && v.msgs[i].Downstream? && v.Meaningful(v.msgs[i]) && v.msgs[i].to == 0 && v.ends[0] == None
    ensures CrownRemote(v, i).Shape() && CrownRemote(v, i).Linked()
  {
    LinkedKept(v, CrownRemote(v, i));
  }

  lemma CrownRemoteOrdered(v: View, i: nat)
    requires v.Shape() && v.Ordered()
    requires i < |v.msgs| && v.msgs[i].Downstream? && v.Meaningful(v.msgs[i]) && v.msgs[i].to == 0 && v.ends[0] == None
    ensures CrownRemote(v, i).Shape() && CrownRemote(v, i).Ordered()
  {
  }

  lemma CrownRemotePlaced(v: View, i: nat)
    requires v.Shape() && v.Linked() && v.Placed() && v.Tokens() && v.Flood()
    requires i < |v.msgs| && v.msgs[i].Downstream? && v.Meaningful(v.msgs[i]) && v.msgs[i].to == 0 && v.ends[0] == None
    ensures CrownRemote(v, i).Shape() && CrownRemote(v, i).Placed()
  {
    TallyMember(v.msgs, About(v.msgs[i].idx), i);
    AboveIsSmaller(0, v.msgs[i].src);
  }

  lemma CrownRemoteTokens(v: View, i: nat)
    requires v.Shape() && v.Tokens()
    requires i < |v.msgs| && v.msgs[i].Downstream? && v.Meaningful(v.msgs[i]) && v.msgs[i].to == 0 && v.ends[0] == None
    ensures CrownRemote(v, i).Shape() && CrownRemote(v, i).Tokens()
  {
    var x := v.msgs[i].idx;
    MessageHandled(v.msgs, i, Announce(Leaves(0, |v.ends|), x));
    forall k: nat
      ensures Tally(Announce(Leaves(0, |v.ends|), x), FloodTo(k)) == if 0 < k < |v.ends| && Parent(k) == 0 then 1 else 0
      ensures Tally(Announce(Leaves(0, |v.ends|), x), About(k)) == 0
    {
      TallyAnnounce(0, |v.ends|, x, k);
    }
  }

  lemma CrownRemoteMessages(v: View, i: nat)
    requires v.Shape() && v.Messages()
    requires i < |v.msgs| && v.msgs[i].Downstream? && v.Meaningful(v.msgs[i]) && v.msgs[i].to == 0 && v.ends[0] == None
    ensures CrownRemote(v, i).Shape() && CrownRemote(v, i).Messages()
  {
    WithoutSubset(v.msgs, i);
  }

  lemma CrownRemoteFlood(v: View, i: nat)
    requires v.Shape() && v.Flood()
    requires i < |v.msgs| && v.msgs[i].Downstream? && v.Meaningful(v.msgs[i]) && v.msgs[i].to == 0 && v.ends[0] == None
    ensures CrownRemote(v, i).Shape() && CrownRemote(v, i).Flood()
  {
    var x := v.msgs[i].idx;
    MessageHandled(v.msgs, i, Announce(Leaves(0, |v.ends|), x));
    forall k: nat
      ensures Tally(Announce(Leaves(0, |v.ends|), x), FloodTo(k)) == if 0 < k < |v.ends| && Parent(k) == 0 then 1 else 0
      ensures Tally(Announce(Leaves(0, |v.ends|), x), About(k)) == 0
    {
      TallyAnnounce(0, |v.ends|, x, k);
    }
  }

  lemma CrownRemoteGood(v: View, i: nat)
    requires v.Good()
    requires i < |v.msgs| && v.msgs[i].Downstream? && v.Meaningful(v.msgs[i]) && v.msgs[i].to == 0 && v.ends[0] == None
    ensures CrownRemote(v, i).Good()
  {
    CrownRemoteLinked(v, i);
    CrownRemoteOrdered(v, i);
    CrownRemotePlaced(v, i);
    CrownRemoteTokens(v, i);
    CrownRemoteMessages(v, i);
    CrownRemoteFlood(v, i);
  }

  // The reply reaches the element that asked.
  function Place(v: View, i: nat, t: nat): View
    requires i < |v.msgs| && v.msgs[i].Upstream? && t in v.elts
  {
    v.(elts := v.elts[t := PutUpstream(v.elts[t], v.msgs[i].parent)], msgs := Without(v.msgs, i))
  }

  lemma PlaceLinked(v: View, i: nat, t: nat)
    requires v.Shape() && v.Linked()
    requires i < |v.msgs| && v.msgs[i].Upstream? && v.Meaningful(v.msgs[i]) && t == v.msgs[i].asker
    ensures Place(v, i, t).Shape() && Place(v, i, t).Linked()
  {
    LinkedKept(v, Place(v, i, t));
  }

  lemma PlaceOrdered(v: View, i: nat, t: nat)
    requires v.Shape() && v.Ordered()
    requires i < |v.msgs| && v.msgs[i].Upstream? && v.Meaningful(v.msgs[i]) && t == v.msgs[i].asker
    ensures Place(v, i, t).Shape() && Place(v, i, t).Ordered()
  {
  }

  lemma PlacePlaced(v: View, i: nat, t: nat)
    requires v.Shape() && v.Linked() && v.Placed() && v.Tokens()
    requires i < |v.msgs| && v.msgs[i].Upstream? && v.Meaningful(v.msgs[i]) && t == v.msgs[i].asker
    ensures Place(v, i, t).Shape() && Place(v, i, t).Placed()
  {
    TallyMember(v.msgs, About(t), i);
  }

  lemma PlaceTokens(v: View, i: nat, t: nat)
    requires v.Shape() && v.Tokens()
    requires i < |v.msgs| && v.msgs[i].Upstream? && v.Meaningful(v.msgs[i]) && t == v.msgs[i].asker
    ensures Place(v, i, t).Shape() && Place(v, i, t).Tokens()
  {
    MessageHandled(v.msgs, i, []);
    assert Without(v.msgs, i) + [] == Without(v.msgs, i);
  }

  lemma PlaceMessages(v: View, i: nat, t: nat)
    requires v.Shape() && v.Messages()
    requires i < |v.msgs| && v.msgs[i].Upstream? && v.Meaningful(v.msgs[i]) && t == v.msgs[i].asker
    ensures Place(v, i, t).Shape() && Place(v, i, t).Messages()
  {
    WithoutSubset(v.msgs, i);
  }

  lemma PlaceFlood(v: View, i: nat, t: nat)
    requires v.Shape() && v.Flood()
    requires i < |v.msgs| && v.msgs[i].Upstream? && v.Meaningful(v.msgs[i]) && t == v.msgs[i].asker
    ensures Place(v, i, t).Shape() && Place(v, i, t).Flood()
  {
    MessageHandled(v.msgs, i, []);
    assert Without(v.msgs, i) + [] == Without(v.msgs, i);
  }

  lemma PlaceGood(v: View, i: nat, t: nat)
    requires v.Good()
    requires i < |v.msgs| && v.msgs[i].Upstream? && v.Meaningful(v.msgs[i]) && t == v.msgs[i].asker
    ensures Place(v, i, t).Good()
  {
    PlaceLinked(v, i, t);
    PlaceOrdered(v, i, t);
    PlacePlaced(v, i, t);
    PlaceTokens(v, i, t);
    PlaceMessages(v, i, t);
    PlaceFlood(v, i, t);
  }

  /** The reply finds exactly the element that asked: it is the only unplaced one on its node. */
  lemma AskerFound(v: View, i: nat)
    requires v.Good() && i < |v.msgs| && v.msgs[i].Upstream?
    ensures var a := v.msgs[i].asker;
            && a in v.elts && !v.elts[a].valid && v.birth[a].node == v.msgs[i].to
            && forall t :: t in v.elts && v.birth[t].node == v.msgs[i].to && !v.elts[t].valid ==> t == a
  {
    assert v.Meaningful(v.msgs[i]);
    TallyMember(v.msgs, About(v.msgs[i].asker), i);
  }

  // ---------------------------------------------------------------- the handlers are these steps

  lemma MergeNone(all: map<nat, Assoc>, part: map<nat, Assoc>)
    requires forall y :: y in part ==> y in all && all[y] == part[y]
    ensures all + part == all
  {
  }

  lemma MergeOne(all: map<nat, Assoc>, part: map<nat, Assoc>, t: nat, a: Assoc)
    requires forall y :: y in part ==> y in all && all[y] == part[y]
    ensures all + part[t := a] == all[t := a]
  {
  }

  lemma MergeTwo(all: map<nat, Assoc>, part: map<nat, Assoc>, t: nat, a: Assoc, x: nat, b: Assoc)
    requires forall y :: y in part ==> y in all && all[y] == part[y]
    ensures all + part[t := a][x := b] == all[t := a][x := b]
  {
  }

  lemma EndsKept(nodes: seq<Local>, m: nat, end: Option<nat>)
    requires m < |nodes| && end == nodes[m].endpoint
    ensures Ends(nodes)[m := end] == Ends(nodes)
  {
  }

  lemma Registered(s: State, m: nat)
    requires Homed(s) && m < |s.nodes|
    ensures forall y :: y in s.nodes[m].elements ==> y in EltsOf(s) && EltsOf(s)[y] == s.nodes[m].elements[y]
    ensures s.nodes[m].elements == map[] ==> forall y :: y in s.birth ==> s.birth[y].node != m
  {
  }

  lemma JoinView(s: State, m: nat, x: nat, t: nat)
    requires Homed(s) && Enabled(s, Insert(m, x, t)) && s.nodes[m].elements != map[]
    ensures Homed(Next(s, Insert(m, x, t)))
    ensures t in EltsOf(s) && ViewOf(Next(s, Insert(m, x, t))) == Join(ViewOf(s), m, x, t)
  {
    var n, es := Next(s, Insert(m, x, t)), s.nodes[m].elements;
    var a, b := es[t].(down := es[t].down + [x]), PutUpstream(FRESH, t);
    Registered(s, m);
    MergeTwo(EltsOf(s), es, t, a, x, b);
    assert n.nodes[m] == s.nodes[m].(elements := es[t := a][x := b]);
    assert n.msgs == s.msgs;
    ViewChange(s, n, m, x);
    EndsKept(s.nodes, m, n.nodes[m].endpoint);
  }

  lemma AskView(s: State, m: nat, x: nat, t: nat)
    requires Homed(s) && Enabled(s, Insert(m, x, t)) && s.nodes[m].elements == map[] && m > 0
    ensures Homed(Next(s, Insert(m, x, t)))
    ensures ViewOf(Next(s, Insert(m, x, t))) == Ask(ViewOf(s), m, x)
  {
    var n := Next(s, Insert(m, x, t));
    ViewChange(s, n, m, x);
    MergeOne(EltsOf(s), map[], x, FRESH);
    EndsKept(s.nodes, m, n.nodes[m].endpoint);
  }

  lemma CrownView(s: State, x: nat, t: nat)
    requires Homed(s) && ViewOf(s).Shape() && Enabled(s, Insert(0, x, t)) && s.nodes[0].elements == map[]
    ensures Homed(Next(s, Insert(0, x, t)))
    ensures ViewOf(Next(s, Insert(0, x, t))) == Crown(ViewOf(s), x)
  {
    ViewChange(s, Next(s, Insert(0, x, t)), 0, x);
    MergeOne(EltsOf(s), map[], x, SetEndpoint(FRESH));
  }

  lemma InsertGood(s: State, m: nat, x: nat, t: nat)
    requires Inv(s) && Enabled(s, Insert(m, x, t))
    ensures Homed(Next(s, Insert(m, x, t))) && ViewOf(Next(s, Insert(m, x, t))).Good()
  {
    Registered(s, m);
    if s.nodes[m].elements != map[] {
      JoinView(s, m, x, t);
      JoinGood(ViewOf(s), m, x, t);
    } else if m > 0 {
      AskView(s, m, x, t);
      AskGood(ViewOf(s), m, x);
    } else {
      CrownView(s, x, t);
      CrownGood(ViewOf(s), x);
    }
  }

  lemma SpreadView(s: State, i: nat, t: nat)
    requires Homed(s) && ViewOf(s).Shape() && Enabled(s, Receive(i, t)) && s.msgs[i].Endpoint?
    requires s.msgs[i].idx in s.birth
    ensures Homed(Next(s, Receive(i, t)))
    ensures ViewOf(Next(s, Receive(i, t))) == Spread(ViewOf(s), i)
  {
    var n := Next(s, Receive(i, t));
    var m, x := s.msgs[i].to, s.msgs[i].idx;
    var es := s.nodes[m].elements;
    ViewChange(s, n, m, x);
    Registered(s, m);
    if x in es {
      MergeOne(EltsOf(s), es, x, SetEndpoint(es[x]));
    } else {
      MergeNone(EltsOf(s), es);
    }
  }

  lemma AdoptView(s: State, i: nat, t: nat)
    requires Homed(s) && Enabled(s, Receive(i, t)) && s.msgs[i].Downstream?
    requires s.msgs[i].idx in s.birth && s.nodes[s.msgs[i].to].elements != map[]
    ensures Homed(Next(s, Receive(i, t)))
    ensures t in EltsOf(s) && ViewOf(Next(s, Receive(i, t))) == Adopt(ViewOf(s), i, t)
  {
    var n := Next(s, Receive(i, t));
    var m, x := s.msgs[i].to, s.msgs[i].idx;
    var es := s.nodes[m].elements;
    ViewChange(s, n, m, x);
    Registered(s, m);
    MergeOne(EltsOf(s), es, t, es[t].(down := es[t].down + [x]));
    EndsKept(s.nodes, m, n.nodes[m].endpoint);
  }

  lemma ForwardView(s: State, i: nat, t: nat)
    requires Homed(s) && Enabled(s, Receive(i, t)) && s.msgs[i].Downstream?
    requires s.msgs[i].idx in s.birth && s.nodes[s.msgs[i].to].elements == map[] && s.msgs[i].to > 0
    ensures Homed(Next(s, Receive(i, t)))
    ensures ViewOf(Next(s, Receive(i, t))) == Forward(ViewOf(s), i)
  {
    var n, m := Next(s, Receive(i, t)), s.msgs[i].to;
    ViewChange(s, n, m, s.msgs[i].idx);
    MergeNone(EltsOf(s), map[]);
    EndsKept(s.nodes, m, n.nodes[m].endpoint);
  }

  lemma CrownRemoteView(s: State, i: nat, t: nat)
    requires Homed(s) && ViewOf(s).Shape() && Enabled(s, Receive(i, t)) && s.msgs[i].Downstream?
    requires s.msgs[i].idx in s.birth && s.nodes[0].elements == map[] && s.msgs[i].to == 0
    ensures Homed(Next(s, Receive(i, t)))
    ensures ViewOf(Next(s, Receive(i, t))) == CrownRemote(ViewOf(s), i)
  {
    ViewChange(s, Next(s, Receive(i, t)), 0, s.msgs[i].idx);
    MergeNone(EltsOf(s), map[]);
  }

  lemma PlaceView(s: State, i: nat, t: nat)
    requires Homed(s) && Enabled(s, Receive(i, t)) && s.msgs[i].Upstream?
    ensures Homed(Next(s, Receive(i, t)))
    ensures t in EltsOf(s) && ViewOf(Next(s, Receive(i, t))) == Place(ViewOf(s), i, t)
  {
    var n, m := Next(s, Receive(i, t)), s.msgs[i].to;
    var es := s.nodes[m].elements;
    var a := PutUpstream(es[t], s.msgs[i].parent);
    Registered(s, m);
    MergeOne(EltsOf(s), es, t, a);
    assert n.nodes[m].elements == es[t := a] && n.nodes[m].endpoint == s.nodes[m].endpoint;
    ViewChange(s, n, m, t);
    EndsKept(s.nodes, m, n.nodes[m].endpoint);
  }

  lemma DownstreamGood(s: State, i: nat, t: nat)
    requires Inv(s) && Enabled(s, Receive(i, t)) && s.msgs[i].Downstream?
    ensures Homed(Next(s, Receive(i, t))) && ViewOf(Next(s, Receive(i, t))).Good()
  {
    var v, m := ViewOf(s), s.msgs[i].to;
    assert v.Meaningful(v.msgs[i]);
    Registered(s, m);
    if s.nodes[m].elements != map[] {
      AdoptView(s, i, t);
      AdoptGood(v, i, t);
    } else if m > 0 {
      ForwardView(s, i, t);
      ForwardGood(v, i);
    } else {
      CrownRemoteView(s, i, t);
      CrownRemoteGood(v, i);
    }
  }

  /** Every insertion and every handler, in every interleaving, keeps the invariant. */
  lemma StepKeeps(s: State, a: Action)
    requires Inv(s) && Enabled(s, a)
    ensures Inv(Next(s, a))
  {
    CounterConservation(s, a);
    match a
    case Insert(m, x, t) => InsertGood(s, m, x, t);
    case Receive(i, t) =>
      assert ViewOf(s).Meaningful(s.msgs[i]);
      match s.msgs[i]
      case Endpoint(_, _) =>
        SpreadView(s, i, t);
        SpreadGood(ViewOf(s), i);
      case Downstream(_, _, _) =>
        DownstreamGood(s, i, t);
      case Upstream(m, _, _, _) =>
        Registered(s, m);
        AskerFound(ViewOf(s), i);
        PlaceView(s, i, t);
        PlaceGood(ViewOf(s), i, t);
  }
}
