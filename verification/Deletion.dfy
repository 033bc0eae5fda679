/** Deleting elements of the managed tree, one element at a time, with every message delivered
    in an arbitrary order.

    A dying element tells its recorded parent to put its children in its place, and (if it had
    children) asks for a forwarding record from itself to that parent. Nobody else is told: its
    children keep it as their recorded parent, and messages to it hop along the records. */
module Deletion {
  import opened Common
  import Interceptor
  import opened Splicing

  // The recorded parent links of all elements ever made; only the live ones still exist.
  // `depth` is bookkeeping: one more than the parent's depth when the element was made.
  datatype Tree = Tree(root: nat, up: map<nat, nat>, depth: map<nat, nat>, live: set<nat>) {
    predicate Valid() {
      && root in live && root in depth
      && live <= depth.Keys
      && up.Keys == depth.Keys - {root}
      && (forall x {:trigger up[x]} :: x in up ==> up[x] in depth && depth[up[x]] < depth[x])
    }

    predicate Child(x: nat) {
      x in live && x in up
    }

    // The first live element on the way from d to the root, d included.
    function FirstLive(d: nat): (e: nat)
      requires Valid() && d in depth
      ensures e in live && depth[e] <= depth[d]
      ensures d in live ==> e == d
      decreases depth[d]
    {
      if d in live then d else FirstLive(up[d])
    }

    // The nearest live ancestor.
    function Owner(x: nat): (e: nat)
      requires Valid() && x in up
      ensures e in live && depth[e] < depth[x]
    {
      FirstLive(up[x])
    }

    function Grow(p: nat, x: nat): Tree
      requires p in depth
    {
      Tree(root, up[x := p], depth[x := depth[p] + 1], live + {x})
    }

    function Shrink(e: nat): Tree {
      this.(live := live - {e})
    }

    // 1 if e is the nearest live ancestor of the live element x.
    function Owns(e: nat, x: nat): nat
      requires Valid()
    {
      if Child(x) && Owner(x) == e then 1 else 0
    }
  }

  // What a live element holds: its downstream list and its staged edits.
  datatype Node = Node(down: seq<nat>, staged: seq<Edit>)

  // "Replace edit.from by edit.to", addressed to dest.
  datatype Message = Message(dest: nat, edit: Edit)

  // `fwd` are the forwarding records in place, `asks` the requests for them in flight.
  datatype State = State(tree: Tree, nodes: map<nat, Node>, fwd: map<nat, nat>, asks: seq<(nat, nat)>,
    msgs: seq<Message>)

  datatype Action =
    | Make(parent: nat, child: nat)
    | Die(elt: nat)
    | Install(ask: nat)
    | Hop(msg: nat)
    | Deliver(msg: nat)

  // A new child is a new index. The root never dies, and an element only dies with no
  // edit staged. A message is delivered to a live element, or hops along a record.
  predicate Enabled(s: State, a: Action) {
    match a
    case Make(p, x) => p in s.tree.live && x !in s.tree.depth
    case Die(e) => e in s.tree.live && e != s.tree.root && e in s.nodes && s.nodes[e].staged == []
    case Install(j) => j < |s.asks|
    case Hop(i) => i < |s.msgs| && s.msgs[i].dest !in s.tree.live && s.msgs[i].dest in s.fwd
    case Deliver(i) => i < |s.msgs| && s.msgs[i].dest in s.tree.live
  }

  ghost predicate Shape(s: State) {
    && s.tree.Valid()
    && s.nodes.Keys == s.tree.live
    && (forall e :: e in s.nodes ==> Staged(s.nodes[e].staged))
  }

  ghost function Next(s: State, a: Action): State
    requires Shape(s) && Enabled(s, a)
  {
    match a
    case Make(p, x) =>
      s.(tree := s.tree.Grow(p, x),
         nodes := s.nodes[p := s.nodes[p].(down := s.nodes[p].down + [x])][x := Node([], [])])
    case Die(e) =>
      var kids, parent := s.nodes[e].down, s.tree.up[e];
      s.(tree := s.tree.Shrink(e),
         nodes := s.nodes - {e},
         msgs := s.msgs + [Message(parent, Edit(e, kids))],
         asks := if kids == [] then s.asks else s.asks + [(e, parent)])
    case Install(j) =>
      s.(fwd := s.fwd[s.asks[j].0 := s.asks[j].1], asks := Without(s.asks, j))
    case Hop(i) =>
      s.(msgs := s.msgs[i := s.msgs[i].(dest := s.fwd[s.msgs[i].dest])])
    case Deliver(i) =>
      var m := s.msgs[i];
      var n := s.nodes[m.dest];
      var (d, st) := Replace(n.down, n.staged, m.edit);
      s.(nodes := s.nodes[m.dest := Node(d, st)], msgs := Without(s.msgs, i))
  }

  // ---------------------------------------------------------------- what every step keeps

  // The undelivered edits that will end up at e.
  function Bound(t: Tree, msgs: seq<Message>, e: nat): seq<Edit>
    requires t.Valid() && forall m :: m in msgs ==> m.dest in t.depth
  {
    if msgs == [] then []
    else
      var rest, last := Bound(t, msgs[..|msgs| - 1], e), msgs[|msgs| - 1];
      if t.FirstLive(last.dest) == e then rest + [last.edit] else rest
  }

  // How those edits change the number of occurrences of x.
  function BoundNet(t: Tree, msgs: seq<Message>, e: nat, x: nat): int
    requires t.Valid() && forall m :: m in msgs ==> m.dest in t.depth
  {
    if msgs == [] then 0
    else
      var last := msgs[|msgs| - 1];
      BoundNet(t, msgs[..|msgs| - 1], e, x) + if t.FirstLive(last.dest) == e then Effect(last.edit, x) else 0
  }

  // How often e would list x if all its staged and undelivered edits were carried out.
  function Expected(t: Tree, n: Node, msgs: seq<Message>, e: nat, x: nat): int
    requires t.Valid() && forall m :: m in msgs ==> m.dest in t.depth
  {
    Times(n.down, x) + Net(n.staged, x) + BoundNet(t, msgs, e, x)
  }

  // An edit on its way to, or staged at, an element: `from` is dead, everything named lies
  // deeper than the element, the replacements deeper than `from`.
  predicate Sound(t: Tree, at: nat, e: Edit) {
    && at in t.depth && e.from in t.depth && e.from !in t.live && t.depth[at] < t.depth[e.from]
    && forall x :: x in e.to ==> x in t.depth && t.depth[e.from] < t.depth[x]
  }

  predicate SoundNode(t: Tree, at: nat, n: Node) {
    && at in t.depth
    && (forall x :: x in n.down ==> x in t.depth && t.depth[at] < t.depth[x])
    && (forall e :: e in n.staged ==> Sound(t, at, e) && e.from !in n.down)
  }

  ghost predicate Sane(s: State) {
    && Shape(s)
    && (forall e :: e in s.nodes ==> SoundNode(s.tree, e, s.nodes[e]))
    && (forall m :: m in s.msgs ==> Sound(s.tree, m.dest, m.edit))
  }

  ghost predicate Exact(s: State)
    requires Sane(s)
  {
    forall e, x: nat :: e in s.nodes ==> Expected(s.tree, s.nodes[e], s.msgs, e, x) == s.tree.Owns(e, x)
  }

  // A dead element with a forwarding record, in place or asked for.
  predicate Recorded(s: State, d: nat) {
    d in s.fwd || exists j :: 0 <= j < |s.asks| && s.asks[j].0 == d
  }

  // Every dead element on the way from d to the first live one has a record.
  ghost predicate Chained(s: State, d: nat)
    requires s.tree.Valid() && d in s.tree.depth
    decreases s.tree.depth[d]
  {
    d in s.tree.live || (Recorded(s, d) && Chained(s, s.tree.up[d]))
  }

  // A record leads from a dead element to its recorded parent, and is asked for once: the
  // abort on a duplicate request is unreachable.
  ghost predicate Records(s: State) {
    && (forall d :: d in s.fwd ==> d in s.tree.up && d !in s.tree.live && s.fwd[d] == s.tree.up[d])
    && (forall j :: 0 <= j < |s.asks| ==> Asked(s, j))
    && (forall j, k :: 0 <= j < k < |s.asks| ==> s.asks[j].0 != s.asks[k].0)
  }

  // Whoever may still be addressed is reachable.
  ghost predicate Reachable(s: State)
    requires Sane(s)
  {
    && (forall x :: s.tree.Child(x) ==> Chained(s, s.tree.up[x]))
    && (forall m :: m in s.msgs ==> Sound(s.tree, m.dest, m.edit) && Chained(s, m.dest))
  }

  ghost predicate Forwarding(s: State)
    requires Sane(s)
  {
    Records(s) && Reachable(s)
  }

  predicate Asked(s: State, j: nat)
    requires j < |s.asks|
  {
    var (d, p) := s.asks[j];
    d in s.tree.up && d !in s.tree.live && d !in s.fwd && p == s.tree.up[d]
  }

  ghost predicate Inv(s: State) {
    Sane(s) && Exact(s) && Forwarding(s)
  }

  // ---------------------------------------------------------------- lemmas on Bound

  lemma {:induction false} BoundMembers(t: Tree, msgs: seq<Message>, e: nat)
    requires t.Valid() && forall m :: m in msgs ==> m.dest in t.depth
    ensures forall ed :: ed in Bound(t, msgs, e) ==> exists m :: m in msgs && m.edit == ed && t.FirstLive(m.dest) == e
    ensures forall m :: m in msgs && t.FirstLive(m.dest) == e ==> m.edit in Bound(t, msgs, e)
    decreases |msgs|
  {
    if msgs != [] {
      var pre, last := msgs[..|msgs| - 1], msgs[|msgs| - 1];
      BoundMembers(t, pre, e);
      assert last in msgs;
    }
  }

  lemma {:induction false} BoundSum(t: Tree, msgs: seq<Message>, e: nat, x: nat)
    requires t.Valid() && forall m :: m in msgs ==> m.dest in t.depth
    ensures Net(Bound(t, msgs, e), x) == BoundNet(t, msgs, e, x)
    decreases |msgs|
  {
    if msgs != [] {
      var pre, last := msgs[..|msgs| - 1], msgs[|msgs| - 1];
      BoundSum(t, pre, e, x);
      var b := Bound(t, msgs, e);
      assert t.FirstLive(last.dest) == e ==> b[..|b| - 1] == Bound(t, pre, e);
    }
  }

  lemma {:induction false} NoneBound(t: Tree, msgs: seq<Message>, e: nat, x: nat)
    requires t.Valid() && forall m :: m in msgs ==> m.dest in t.depth && t.FirstLive(m.dest) != e
    ensures BoundNet(t, msgs, e, x) == 0
    decreases |msgs|
  {
    if msgs != [] {
      assert msgs[|msgs| - 1] in msgs;
      NoneBound(t, msgs[..|msgs| - 1], e, x);
    }
  }

  // Messages count towards the element their addresses lead to, in whatever tree they do so.
  lemma {:induction false} BoundNetSame(t: Tree, u: Tree, msgs: seq<Message>, news: seq<Message>, e: nat, x: nat)
    requires t.Valid() && forall m :: m in msgs ==> m.dest in t.depth
    requires u.Valid() && forall m :: m in news ==> m.dest in u.depth
    requires |msgs| == |news|
    requires forall i :: 0 <= i < |msgs| ==> msgs[i].edit == news[i].edit
    requires forall i :: 0 <= i < |msgs| ==> (t.FirstLive(msgs[i].dest) == e <==> u.FirstLive(news[i].dest) == e)
    ensures BoundNet(t, msgs, e, x) == BoundNet(u, news, e, x)
    decreases |msgs|
  {
    if msgs != [] {
      BoundNetSame(t, u, msgs[..|msgs| - 1], news[..|msgs| - 1], e, x);
    }
  }

  lemma {:induction false} BoundNetWithout(t: Tree, msgs: seq<Message>, i: nat, e: nat, x: nat)
    requires t.Valid() && forall m :: m in msgs ==> m.dest in t.depth
    requires i < |msgs|
    ensures forall m :: m in Without(msgs, i) ==> m.dest in t.depth
    ensures BoundNet(t, msgs, e, x)
         == BoundNet(t, Without(msgs, i), e, x) + if t.FirstLive(msgs[i].dest) == e then Effect(msgs[i].edit, x) else 0
    decreases |msgs|
  {
    var n := |msgs| - 1;
    assert forall m :: m in Without(msgs, i) ==> m in msgs;
    if i == n {
      assert Without(msgs, i) == msgs[..n];
    } else {
      BoundNetWithout(t, msgs[..n], i, e, x);
      assert Without(msgs, i)[..n - 1] == Without(msgs[..n], i);
      assert Without(msgs, i)[n - 1] == msgs[n];
    }
  }

  // ---------------------------------------------------------------- the first live element

  // u has all of t's elements, in their places and as alive as they were.
  predicate Extends(t: Tree, u: Tree) {
    && (forall y :: y in t.depth ==> y in u.depth && t.depth[y] == u.depth[y] && (y in t.live <==> y in u.live))
    && (forall y :: y in t.up ==> y in u.up && t.up[y] == u.up[y])
  }

  lemma {:induction false} FirstLiveSame(t: Tree, u: Tree, d: nat)
    requires t.Valid() && u.Valid() && Extends(t, u) && d in t.depth
    ensures u.FirstLive(d) == t.FirstLive(d)
    decreases t.depth[d]
  {
    if d !in t.live {
      FirstLiveSame(t, u, t.up[d]);
    }
  }

  // When e dies, what led to e leads to e's nearest live ancestor instead.
  lemma {:induction false} FirstLiveDies(t: Tree, e: nat, d: nat)
    requires t.Valid() && t.Child(e) && d in t.depth
    ensures t.Shrink(e).Valid()
    ensures t.Shrink(e).FirstLive(d) == if t.FirstLive(d) == e then t.Owner(e) else t.FirstLive(d)
    decreases t.depth[d]
  {
    if d !in t.live || d == e {
      FirstLiveDies(t, e, t.up[d]);
    }
  }

  // ---------------------------------------------------------------- childless elements

  function DepthOf(t: Tree): nat -> nat {
    x => if x in t.depth then t.depth[x] else 0
  }

  lemma SoundDescends(t: Tree, es: seq<Edit>)
    requires forall e :: e in es ==> exists at :: Sound(t, at, e)
    ensures Descending(es, DepthOf(t))
  {
    forall e, x | e in es && x in e.to
      ensures DepthOf(t)(e.from) < DepthOf(t)(x)
    {
      var at :| Sound(t, at, e);
    }
  }

  // An element with nothing listed and nothing staged owns no element and awaits no message.
  lemma Barren(s: State, e: nat)
    requires Sane(s) && Exact(s) && e in s.nodes
    requires s.nodes[e] == Node([], [])
    ensures forall m :: m in s.msgs ==> s.tree.FirstLive(m.dest) != e
    ensures forall x :: s.tree.Child(x) ==> s.tree.Owner(x) != e
  {
    var b := Bound(s.tree, s.msgs, e);
    BoundMembers(s.tree, s.msgs, e);
    SoundDescends(s.tree, b);
    forall ed | ed in b
      ensures Net(b, ed.from) >= 0
    {
      BoundSum(s.tree, s.msgs, e, ed.from);
      assert Expected(s.tree, s.nodes[e], s.msgs, e, ed.from) == s.tree.Owns(e, ed.from);
    }
    if b != [] {
      NoDeadlock(b, DepthOf(s.tree), 0);
    }
    forall x | s.tree.Child(x)
      ensures s.tree.Owner(x) != e
    {
      BoundSum(s.tree, s.msgs, e, x);
      assert Expected(s.tree, s.nodes[e], s.msgs, e, x) == s.tree.Owns(e, x);
      assert Net(b, x) == 0;
    }
  }

  // ---------------------------------------------------------------- each step keeps the invariant

  lemma GrowFirstLive(t: Tree, p: nat, c: nat, d: nat)
    requires t.Valid() && p in t.live && c !in t.depth && d in t.depth
    ensures t.Grow(p, c).Valid() && t.Grow(p, c).FirstLive(d) == t.FirstLive(d)
  {
    FirstLiveSame(t, t.Grow(p, c), d);
  }

  lemma GrowOwns(t: Tree, p: nat, c: nat, e: nat, x: nat)
    requires t.Valid() && p in t.live && c !in t.depth && e in t.live + {c}
    ensures t.Grow(p, c).Valid()
    ensures t.Grow(p, c).Owns(e, x) == if x == c then (if e == p then 1 else 0) else t.Owns(e, x)
  {
    if t.Child(x) {
      GrowFirstLive(t, p, c, t.up[x]);
    }
  }

  lemma MakeSane(s: State, p: nat, c: nat)
    requires Sane(s) && Enabled(s, Make(p, c))
    ensures Sane(Next(s, Make(p, c)))
  {
    var n := Next(s, Make(p, c));
    GrowFirstLive(s.tree, p, c, p);
    forall m | m in n.msgs
      ensures Sound(n.tree, m.dest, m.edit)
    {
      assert Sound(s.tree, m.dest, m.edit);
    }
    forall e | e in n.nodes
      ensures SoundNode(n.tree, e, n.nodes[e]) && Staged(n.nodes[e].staged)
    {
      if e != c {
        GrowNode(s.tree, p, c, e, s.nodes[e]);
      }
    }
  }

  lemma GrowNode(t: Tree, p: nat, c: nat, e: nat, n: Node)
    requires t.Valid() && p in t.live && c !in t.depth && SoundNode(t, e, n)
    ensures SoundNode(t.Grow(p, c), e, n)
    ensures e == p ==> SoundNode(t.Grow(p, c), e, n.(down := n.down + [c]))
  {
    forall ed | ed in n.staged
      ensures Sound(t.Grow(p, c), e, ed)
    {
      assert Sound(t, e, ed);
    }
  }

  lemma MakeBalance(t: Tree, p: nat, c: nat, n: Node, msgs: seq<Message>, e: nat, x: nat)
    requires t.Valid() && p in t.live && c !in t.depth && e in t.live
    requires forall m :: m in msgs ==> m.dest in t.depth
    requires Expected(t, n, msgs, e, x) == t.Owns(e, x)
    ensures t.Grow(p, c).Valid()
    ensures Expected(t.Grow(p, c), if e == p then n.(down := n.down + [c]) else n, msgs, e, x)
      == t.Grow(p, c).Owns(e, x)
  {
    GrowOwns(t, p, c, e, x);
    forall m | m in msgs
      ensures t.Grow(p, c).FirstLive(m.dest) == t.FirstLive(m.dest)
    {
      GrowFirstLive(t, p, c, m.dest);
    }
    BoundNetSame(t, t.Grow(p, c), msgs, msgs, e, x);
  }

  lemma NewbornBalance(t: Tree, p: nat, c: nat, msgs: seq<Message>, x: nat)
    requires t.Valid() && p in t.live && c !in t.depth
    requires forall m :: m in msgs ==> m.dest in t.depth
    ensures t.Grow(p, c).Valid()
    ensures Expected(t.Grow(p, c), Node([], []), msgs, c, x) == t.Grow(p, c).Owns(c, x)
  {
    GrowOwns(t, p, c, c, x);
    forall m | m in msgs
      ensures t.Grow(p, c).FirstLive(m.dest) != c
    {
      GrowFirstLive(t, p, c, m.dest);
    }
    NoneBound(t.Grow(p, c), msgs, c, x);
  }

  // The messages that were on their way to e go to its nearest live ancestor.
  lemma {:induction false} BoundNetDies(t: Tree, e: nat, msgs: seq<Message>, f: nat, x: nat)
    requires t.Valid() && t.Child(e) && f != e
    requires forall m :: m in msgs ==> m.dest in t.depth
    ensures t.Shrink(e).Valid()
    ensures BoundNet(t.Shrink(e), msgs, f, x)
         == BoundNet(t, msgs, f, x) + if f == t.Owner(e) then BoundNet(t, msgs, e, x) else 0
    decreases |msgs|
  {
    FirstLiveDies(t, e, e);
    if msgs != [] {
      var n := |msgs| - 1;
      FirstLiveDies(t, e, msgs[n].dest);
      BoundNetDies(t, e, msgs[..n], f, x);
    }
  }

  lemma DieSane(s: State, e: nat)
    requires Sane(s) && Enabled(s, Die(e))
    ensures Sane(Next(s, Die(e)))
  {
    var n := Next(s, Die(e));
    FirstLiveDies(s.tree, e, e);
    assert SoundNode(s.tree, e, s.nodes[e]);
    forall f | f in n.nodes
      ensures SoundNode(n.tree, f, n.nodes[f])
    {
      assert SoundNode(s.tree, f, s.nodes[f]);
    }
    forall m | m in n.msgs
      ensures Sound(n.tree, m.dest, m.edit)
    {
      if m in s.msgs {
        assert Sound(s.tree, m.dest, m.edit);
      }
    }
  }

  lemma OwnsDies(t: Tree, e: nat, f: nat, x: nat)
    requires t.Valid() && t.Child(e) && f != e
    ensures t.Shrink(e).Valid()
    ensures t.Shrink(e).Owns(f, x)
         == t.Owns(f, x) + if f == t.Owner(e) then t.Owns(e, x) - if x == e then 1 else 0 else 0
  {
    FirstLiveDies(t, e, e);
    if t.Child(x) {
      FirstLiveDies(t, e, t.up[x]);
    }
  }

  lemma BoundNetSnoc(t: Tree, msgs: seq<Message>, m: Message, e: nat, x: nat)
    requires t.Valid() && forall k :: k in msgs + [m] ==> k.dest in t.depth
    ensures forall k :: k in msgs ==> k in msgs + [m]
    ensures BoundNet(t, msgs + [m], e, x)
         == BoundNet(t, msgs, e, x) + if t.FirstLive(m.dest) == e then Effect(m.edit, x) else 0
  {
    assert (msgs + [m])[..|msgs|] == msgs;
    assert forall k :: k in msgs ==> k in msgs + [m];
  }

  // e's account is closed and added to that of its nearest live ancestor.
  lemma DieBalance(t: Tree, e: nat, kids: seq<nat>, n: Node, msgs: seq<Message>, f: nat, x: nat)
    requires t.Valid() && t.Child(e) && f in t.live && f != e
    requires forall m :: m in msgs ==> m.dest in t.depth
    requires Expected(t, Node(kids, []), msgs, e, x) == t.Owns(e, x)
    requires Expected(t, n, msgs, f, x) == t.Owns(f, x)
    ensures t.Shrink(e).Valid()
    ensures Expected(t.Shrink(e), n, msgs + [Message(t.up[e], Edit(e, kids))], f, x) == t.Shrink(e).Owns(f, x)
  {
    FirstLiveDies(t, e, t.up[e]);
    BoundNetSnoc(t.Shrink(e), msgs, Message(t.up[e], Edit(e, kids)), f, x);
    BoundNetDies(t, e, msgs, f, x);
    OwnsDies(t, e, f, x);
  }

  lemma ReplaceSound(t: Tree, at: nat, n: Node, e: Edit)
    requires SoundNode(t, at, n) && Staged(n.staged) && Sound(t, at, e)
    ensures var (d, st) := Replace(n.down, n.staged, e); SoundNode(t, at, Node(d, st)) && Staged(st)
  {
    ReplaceMembers(n.down, n.staged, e);
    var (d, st) := Replace(n.down, n.staged, e);
    forall x | x in d
      ensures x in t.depth && t.depth[at] < t.depth[x]
    {
      if x !in n.down && x !in e.to {
        var f :| f in n.staged && x in f.to;
        assert Sound(t, at, f);
      }
    }
    forall f | f in st
      ensures Sound(t, at, f) && f.from !in d
    {
    }
  }

  lemma DeliverSane(s: State, i: nat)
    requires Sane(s) && Enabled(s, Deliver(i))
    ensures Sane(Next(s, Deliver(i)))
  {
    var n := Next(s, Deliver(i));
    var m := s.msgs[i];
    assert m in s.msgs;
    ReplaceSound(s.tree, m.dest, s.nodes[m.dest], m.edit);
    assert forall k :: k in n.msgs ==> k in s.msgs;
  }

  lemma DeliverBalance(t: Tree, n: Node, msgs: seq<Message>, i: nat, e: nat, x: nat)
    requires t.Valid() && i < |msgs| && Staged(n.staged)
    requires forall m :: m in msgs ==> m.dest in t.depth
    ensures forall m :: m in Without(msgs, i) ==> m.dest in t.depth
    ensures t.FirstLive(msgs[i].dest) == e ==>
              var (d, st) := Replace(n.down, n.staged, msgs[i].edit);
              Expected(t, Node(d, st), Without(msgs, i), e, x) == Expected(t, n, msgs, e, x)
    ensures t.FirstLive(msgs[i].dest) != e ==> Expected(t, n, Without(msgs, i), e, x) == Expected(t, n, msgs, e, x)
  {
    BoundNetWithout(t, msgs, i, e, x);
    ReplaceConserves(n.down, n.staged, msgs[i].edit, x);
  }

  lemma HopSane(s: State, i: nat)
    requires Sane(s) && Forwarding(s) && Enabled(s, Hop(i))
    ensures Sane(Next(s, Hop(i)))
  {
    var n := Next(s, Hop(i));
    assert s.msgs[i] in s.msgs && Sound(s.tree, s.msgs[i].dest, s.msgs[i].edit);
    forall k | k in n.msgs
      ensures Sound(n.tree, k.dest, k.edit)
    {
      assert k in s.msgs || k == n.msgs[i];
    }
  }

  lemma DestsKnown(s: State)
    requires Sane(s)
    ensures forall m :: m in s.msgs ==> m.dest in s.tree.depth
  {
    forall m | m in s.msgs
      ensures m.dest in s.tree.depth
    {
      assert Sound(s.tree, m.dest, m.edit);
    }
  }

  lemma StepSane(s: State, a: Action)
    requires Sane(s) && Forwarding(s) && Enabled(s, a)
    ensures Sane(Next(s, a))
  {
    match a
    case Make(p, c) => MakeSane(s, p, c);
    case Die(e) => DieSane(s, e);
    case Install(j) =>
    case Hop(i) => HopSane(s, i);
    case Deliver(i) => DeliverSane(s, i);
  }

  lemma MakeExact(s: State, p: nat, c: nat)
    requires Sane(s) && Exact(s) && Enabled(s, Make(p, c)) && Sane(Next(s, Make(p, c)))
    ensures Exact(Next(s, Make(p, c)))
  {
    var n := Next(s, Make(p, c));
    DestsKnown(s);
    forall e, x: nat | e in n.nodes
      ensures Expected(n.tree, n.nodes[e], s.msgs, e, x) == n.tree.Owns(e, x)
    {
      if e == c {
        NewbornBalance(s.tree, p, c, s.msgs, x);
      } else {
        MakeBalance(s.tree, p, c, s.nodes[e], s.msgs, e, x);
      }
    }
  }

  lemma DieExact(s: State, d: nat)
    requires Sane(s) && Exact(s) && Enabled(s, Die(d)) && Sane(Next(s, Die(d)))
    ensures Exact(Next(s, Die(d)))
  {
    var n := Next(s, Die(d));
    DestsKnown(s);
    assert s.nodes[d] == Node(s.nodes[d].down, []);
    forall e, x: nat | e in n.nodes
      ensures Expected(n.tree, n.nodes[e], n.msgs, e, x) == n.tree.Owns(e, x)
    {
      DieBalance(s.tree, d, s.nodes[d].down, s.nodes[e], s.msgs, e, x);
    }
  }

  lemma DeliverExact(s: State, i: nat)
    requires Sane(s) && Exact(s) && Enabled(s, Deliver(i)) && Sane(Next(s, Deliver(i)))
    ensures Exact(Next(s, Deliver(i)))
  {
    var n := Next(s, Deliver(i));
    DestsKnown(s);
    forall e, x: nat | e in n.nodes
      ensures Expected(s.tree, n.nodes[e], n.msgs, e, x) == s.tree.Owns(e, x)
    {
      DeliverBalance(s.tree, s.nodes[e], s.msgs, i, e, x);
    }
  }

  lemma HopExact(s: State, i: nat)
    requires Sane(s) && Exact(s) && Forwarding(s) && Enabled(s, Hop(i)) && Sane(Next(s, Hop(i)))
    ensures Exact(Next(s, Hop(i)))
  {
    var n := Next(s, Hop(i));
    DestsKnown(s);
    DestsKnown(n);
    forall e, x: nat | e in n.nodes
      ensures Expected(s.tree, s.nodes[e], n.msgs, e, x) == s.tree.Owns(e, x)
    {
      BoundNetSame(s.tree, s.tree, s.msgs, n.msgs, e, x);
    }
  }

  // ---------------------------------------------------------------- forwarding records

  lemma {:induction false} ChainedSame(s: State, n: State, d: nat)
    requires s.tree.Valid() && n.tree.Valid() && Extends(s.tree, n.tree) && d in s.tree.depth
    requires forall y :: Recorded(s, y) ==> Recorded(n, y)
    requires Chained(s, d)
    ensures Chained(n, d)
    decreases s.tree.depth[d]
  {
    if d !in s.tree.live {
      ChainedSame(s, n, s.tree.up[d]);
    }
  }

  // After a death, a chain still leads to a live element if it did not lead to the dead one,
  // or if the dead one is recorded and its own parent is reachable.
  lemma {:induction false} ChainedDies(s: State, n: State, e: nat, d: nat)
    requires s.tree.Valid() && s.tree.Child(e) && n.tree == s.tree.Shrink(e) && n.tree.Valid()
    requires forall y :: Recorded(s, y) ==> Recorded(n, y)
    requires d in s.tree.depth && Chained(s, d) && Chained(s, s.tree.up[e])
    requires s.tree.FirstLive(d) == e ==> Recorded(n, e)
    ensures Chained(n, d)
    decreases s.tree.depth[d]
  {
    if d == e {
      if s.tree.FirstLive(s.tree.up[e]) != e {
        ChainedDies(s, n, e, s.tree.up[e]);
      }
    } else if d !in s.tree.live {
      ChainedDies(s, n, e, s.tree.up[d]);
    }
  }

  lemma DieRecords(s: State, e: nat)
    requires Sane(s) && Records(s) && Enabled(s, Die(e))
    ensures Records(Next(s, Die(e)))
    ensures forall y :: Recorded(s, y) ==> Recorded(Next(s, Die(e)), y)
    ensures s.nodes[e].down != [] ==> Recorded(Next(s, Die(e)), e)
  {
    var n := Next(s, Die(e));
    assert s.nodes[e].down != [] ==> n.asks[|s.asks|].0 == e;
    forall y | Recorded(s, y)
      ensures Recorded(n, y)
    {
      if y !in s.fwd {
        var j :| 0 <= j < |s.asks| && s.asks[j].0 == y;
        assert n.asks[j].0 == y;
      }
    }
    forall j | 0 <= j < |s.asks|
      ensures Asked(n, j) && n.asks[j].0 != e
    {
      assert Asked(s, j);
    }
  }

  // An element that dies childless without leaving a record is on nobody's way.
  lemma DieReachable(s: State, e: nat)
    requires Sane(s) && Exact(s) && Reachable(s) && Enabled(s, Die(e)) && Sane(Next(s, Die(e)))
    requires forall y :: Recorded(s, y) ==> Recorded(Next(s, Die(e)), y)
    requires s.nodes[e].down != [] ==> Recorded(Next(s, Die(e)), e)
    ensures Reachable(Next(s, Die(e)))
  {
    var n := Next(s, Die(e));
    if s.nodes[e].down == [] {
      assert s.nodes[e] == Node([], []);
      Barren(s, e);
    }
    assert s.tree.Child(e);
    ChainedDies(s, n, e, s.tree.up[e]);
    forall x | n.tree.Child(x)
      ensures Chained(n, n.tree.up[x])
    {
      assert s.tree.Child(x);
      ChainedDies(s, n, e, s.tree.up[x]);
    }
    forall m | m in n.msgs
      ensures Chained(n, m.dest)
    {
      if m in s.msgs {
        ChainedDies(s, n, e, m.dest);
      }
    }
  }

  lemma OtherRecords(s: State, a: Action)
    requires Sane(s) && Records(s) && Enabled(s, a) && !a.Die? && !a.Install?
    ensures Records(Next(s, a))
  {
    var n := Next(s, a);
    forall j | 0 <= j < |n.asks|
      ensures Asked(n, j)
    {
      assert Asked(s, j);
    }
  }

  lemma InstallRecords(s: State, i: nat)
    requires Sane(s) && Records(s) && i < |s.asks|
    ensures Records(Next(s, Install(i)))
    ensures forall y :: Recorded(s, y) ==> Recorded(Next(s, Install(i)), y)
  {
    var n := Next(s, Install(i));
    assert Asked(s, i);
    forall j | 0 <= j < |n.asks|
      ensures Asked(n, j)
    {
      assert Asked(s, if j < i then j else j + 1);
    }
    forall y | Recorded(s, y)
      ensures Recorded(n, y)
    {
      if y !in n.fwd {
        var j :| 0 <= j < |s.asks| && s.asks[j].0 == y;
        assert n.asks[if j < i then j else j - 1].0 == y;
      }
    }
  }

  // Steps that let nobody die: addresses only change by following a record.
  ghost predicate Steady(s: State, n: State) {
    && Extends(s.tree, n.tree)
    && (forall y :: Recorded(s, y) ==> Recorded(n, y))
    && (forall x :: n.tree.Child(x) ==> s.tree.Child(x) || n.tree.up[x] in n.tree.live)
    && (forall m :: m in n.msgs ==> m in s.msgs || exists k :: k in s.msgs && Passed(s.tree, k, m))
  }

  // m has the address to which a message to the dead element of k is passed on.
  predicate Passed(t: Tree, k: Message, m: Message) {
    k.dest in t.up && k.dest !in t.live && m.dest == t.up[k.dest]
  }

  lemma SteadyReachable(s: State, n: State)
    requires Sane(s) && Reachable(s) && Sane(n) && Steady(s, n)
    ensures Reachable(n)
  {
    forall x | n.tree.Child(x)
      ensures Chained(n, n.tree.up[x])
    {
      if s.tree.Child(x) {
        ChainedSame(s, n, s.tree.up[x]);
      }
    }
    forall m | m in n.msgs
      ensures Sound(n.tree, m.dest, m.edit) && Chained(n, m.dest)
    {
      StillChained(s, n, m);
    }
  }

  lemma StillChained(s: State, n: State, m: Message)
    requires s.tree.Valid() && n.tree.Valid() && Steady(s, n) && m in n.msgs
    requires forall k :: k in s.msgs ==> k.dest in s.tree.depth && Chained(s, k.dest)
    ensures m.dest in s.tree.depth && m.dest in n.tree.depth && Chained(n, m.dest)
  {
    if m !in s.msgs {
      var k :| k in s.msgs && Passed(s.tree, k, m);
      assert Chained(s, k.dest);
    }
    ChainedSame(s, n, m.dest);
  }

  lemma SameRecords(s: State, n: State)
    requires n.fwd == s.fwd && n.asks == s.asks
    ensures forall y :: Recorded(s, y) ==> Recorded(n, y)
  {
  }

  lemma MakeSteady(s: State, p: nat, c: nat)
    requires Shape(s) && Enabled(s, Make(p, c))
    ensures Steady(s, Next(s, Make(p, c)))
  {
    SameRecords(s, Next(s, Make(p, c)));
  }

  lemma HopSteady(s: State, i: nat)
    requires Shape(s) && Records(s) && Enabled(s, Hop(i))
    ensures Steady(s, Next(s, Hop(i)))
  {
    var n := Next(s, Hop(i));
    SameRecords(s, n);
    assert s.msgs[i] in s.msgs && Passed(s.tree, s.msgs[i], n.msgs[i]);
    assert forall m :: m in n.msgs ==> m in s.msgs || m == n.msgs[i];
  }

  lemma DeliverSteady(s: State, i: nat)
    requires Shape(s) && Enabled(s, Deliver(i))
    ensures Steady(s, Next(s, Deliver(i)))
  {
    SameRecords(s, Next(s, Deliver(i)));
  }

  lemma InstallSteady(s: State, i: nat)
    requires Sane(s) && Records(s) && i < |s.asks|
    ensures Steady(s, Next(s, Install(i)))
  {
    InstallRecords(s, i);
  }

  lemma StepReachable(s: State, a: Action)
    requires Sane(s) && Forwarding(s) && Enabled(s, a) && !a.Die? && Sane(Next(s, a))
    ensures Reachable(Next(s, a))
  {
    match a {
      case Make(p, c) => MakeSteady(s, p, c);
      case Install(j) => InstallSteady(s, j);
      case Hop(i) => HopSteady(s, i);
      case Deliver(i) => DeliverSteady(s, i);
    }
    SteadyReachable(s, Next(s, a));
  }

  /** Every step, under every interleaving, keeps the invariant. */
  lemma StepKeeps(s: State, a: Action)
    requires Inv(s) && Enabled(s, a)
    ensures Inv(Next(s, a))
  {
    StepSane(s, a);
    match a
    case Make(p, c) => MakeExact(s, p, c); OtherRecords(s, a); StepReachable(s, a);
    case Die(e) => DieExact(s, e); DieRecords(s, e); DieReachable(s, e);
    case Install(j) => assert Exact(Next(s, a)); InstallRecords(s, j); StepReachable(s, a);
    case Hop(i) => HopExact(s, i); OtherRecords(s, a); StepReachable(s, a);
    case Deliver(i) => DeliverExact(s, i); OtherRecords(s, a); StepReachable(s, a);
  }

  // ---------------------------------------------------------------- whole runs

  // All elements alive, nothing in flight, every list exactly the recorded children.
  ghost predicate Initial(s: State) {
    && Shape(s)
    && s.tree.live == s.tree.depth.Keys
    && s.fwd == map[] && s.asks == [] && s.msgs == []
    && (forall e :: e in s.nodes ==> s.nodes[e].staged == [])
    && (forall e, x: nat :: e in s.nodes ==>
          Times(s.nodes[e].down, x) == if x in s.tree.up && s.tree.up[x] == e then 1 else 0)
  }

  ghost predicate Execution(states: seq<State>, acts: seq<Action>) {
    && |states| == |acts| + 1
    && forall i :: 0 <= i < |acts| ==>
         Shape(states[i]) && Enabled(states[i], acts[i]) && states[i + 1] == Next(states[i], acts[i])
  }

  lemma InitialSane(s: State)
    requires Initial(s)
    ensures Sane(s)
  {
    forall e | e in s.nodes
      ensures SoundNode(s.tree, e, s.nodes[e])
    {
      forall x | x in s.nodes[e].down
        ensures x in s.tree.depth && s.tree.depth[e] < s.tree.depth[x]
      {
        assert Times(s.nodes[e].down, x) == if x in s.tree.up && s.tree.up[x] == e then 1 else 0;
      }
    }
  }

  lemma InitialOwns(t: Tree, e: nat, x: nat)
    requires t.Valid() && t.live == t.depth.Keys
    ensures t.Owns(e, x) == if x in t.up && t.up[x] == e then 1 else 0
  {
  }

  lemma InitialExact(s: State)
    requires Initial(s) && Sane(s)
    ensures Exact(s)
  {
    forall e, x: nat | e in s.nodes
      ensures Expected(s.tree, s.nodes[e], s.msgs, e, x) == s.tree.Owns(e, x)
    {
      InitialOwns(s.tree, e, x);
      assert Times(s.nodes[e].down, x) == if x in s.tree.up && s.tree.up[x] == e then 1 else 0;
    }
  }

  lemma InitialInv(s: State)
    requires Initial(s)
    ensures Inv(s)
  {
    InitialSane(s);
    InitialExact(s);
  }

  lemma {:induction false} ExecutionInv(states: seq<State>, acts: seq<Action>, k: nat)
    requires Execution(states, acts) && Initial(states[0])
    requires k < |states|
    ensures Inv(states[k])
  {
    if k == 0 {
      InitialInv(states[0]);
    } else {
      ExecutionInv(states, acts, k - 1);
      StepKeeps(states[k - 1], acts[k - 1]);
    }
  }

  /** At every moment of every run, carrying out the edits that are staged at a live element or
      still on their way to it would leave it listing, once each, exactly the live elements
      whose nearest live ancestor it is. */
  lemma DeletionExact(states: seq<State>, acts: seq<Action>, k: nat, e: nat, x: nat)
    requires Execution(states, acts) && Initial(states[0]) && k < |states|
    requires e in states[k].tree.live
    ensures Inv(states[k])
    ensures Expected(states[k].tree, states[k].nodes[e], states[k].msgs, e, x)
         == if states[k].tree.Child(x) && states[k].tree.Owner(x) == e then 1 else 0
  {
    ExecutionInv(states, acts, k);
  }

  // Element d died in this run while it still listed children.
  ghost predicate LeftChildren(states: seq<State>, acts: seq<Action>, k: nat, d: nat)
    requires k <= |acts| && |states| == |acts| + 1
  {
    exists i :: 0 <= i < k && acts[i] == Die(d) && d in states[i].nodes && states[i].nodes[d].down != []
  }

  lemma StepRecords(s: State, a: Action, d: nat)
    requires Shape(s) && Enabled(s, a)
    ensures Recorded(Next(s, a), d) <==> Recorded(s, d) || (a == Die(d) && d in s.nodes && s.nodes[d].down != [])
  {
    var n := Next(s, a);
    if j :| 0 <= j < |s.asks| && s.asks[j].0 == d {
      if a.Install? {
        assert a.ask != j ==> n.asks[if j < a.ask then j else j - 1].0 == d;
      } else {
        assert n.asks[j].0 == d;
      }
    }
    if a == Die(d) && s.nodes[d].down != [] {
      assert n.asks[|s.asks|].0 == d;
    }
    if j :| 0 <= j < |n.asks| && n.asks[j].0 == d {
      if a.Install? {
        assert s.asks[if j < a.ask then j else j + 1].0 == d;
      } else if j < |s.asks| {
        assert s.asks[j].0 == d;
      }
    }
  }

  /** A forwarding record for an element is there, or asked for, exactly if it died while it listed children. */
  lemma {:induction false} RecordedIff(states: seq<State>, acts: seq<Action>, k: nat, d: nat)
    requires Execution(states, acts) && Initial(states[0]) && k < |states|
    ensures Recorded(states[k], d) <==> LeftChildren(states, acts, k, d)
  {
    if k > 0 {
      RecordedIff(states, acts, k - 1, d);
      StepRecords(states[k - 1], acts[k - 1], d);
      if LeftChildren(states, acts, k, d) {
        var i :| 0 <= i < k && acts[i] == Die(d) && d in states[i].nodes && states[i].nodes[d].down != [];
        assert i < k - 1 ==> LeftChildren(states, acts, k - 1, d);
      }
    }
  }

  /** Once all splice messages of a run are delivered, no edit is left staged and the lists
      themselves are exact: the live elements form a spanning tree again. */
  lemma SettledTree(s: State, e: nat)
    requires Inv(s) && s.msgs == [] && e in s.tree.live
    ensures s.nodes[e].staged == []
    ensures forall x: nat :: Times(s.nodes[e].down, x) == if s.tree.Child(x) && s.tree.Owner(x) == e then 1 else 0
  {
    var st := s.nodes[e].staged;
    assert SoundNode(s.tree, e, s.nodes[e]);
    SoundDescends(s.tree, st);
    forall ed | ed in st
      ensures Net(st, ed.from) >= 0
    {
      assert Sound(s.tree, e, ed);
      assert Expected(s.tree, s.nodes[e], s.msgs, e, ed.from) == s.tree.Owns(e, ed.from);
    }
    if st != [] {
      NoDeadlock(st, DepthOf(s.tree), 0);
    }
    forall x: nat
      ensures Times(s.nodes[e].down, x) == s.tree.Owns(e, x)
    {
      assert Expected(s.tree, s.nodes[e], s.msgs, e, x) == s.tree.Owns(e, x);
    }
  }

  lemma RecordsDescend(s: State)
    requires s.tree.Valid() && forall x :: x in s.fwd ==> x in s.tree.up && s.fwd[x] == s.tree.up[x]
    ensures Interceptor.Descends(s.fwd, DepthOf(s.tree))
  {
  }

  lemma {:induction false} DealiasChained(s: State, d: nat)
    requires Sane(s) && Records(s) && s.asks == [] && Interceptor.Descends(s.fwd, DepthOf(s.tree))
    requires d in s.tree.depth && Chained(s, d)
    ensures Interceptor.Dealias(s.fwd, d, DepthOf(s.tree)) == s.tree.FirstLive(d)
    decreases s.tree.depth[d]
  {
    if d !in s.tree.live {
      DealiasChained(s, s.tree.up[d]);
    }
  }

  /** With all requested records in place, following them from any live element's recorded
      parent terminates at its nearest live ancestor. */
  lemma ForwardingReachesOwner(s: State, x: nat)
    requires Inv(s) && s.asks == [] && s.tree.Child(x)
    ensures Interceptor.Descends(s.fwd, DepthOf(s.tree))
    ensures Interceptor.Dealias(s.fwd, s.tree.up[x], DepthOf(s.tree)) == s.tree.Owner(x)
  {
    RecordsDescend(s);
    DealiasChained(s, s.tree.up[x]);
  }

  // The hops a message may still take, plus one for its delivery.
  function Distance(t: Tree, msgs: seq<Message>): nat {
    if msgs == [] then 0
    else
      var d := msgs[|msgs| - 1].dest;
      Distance(t, msgs[..|msgs| - 1]) + 1 + if d in t.depth then t.depth[d] else 0
  }

  lemma {:induction false} DistanceShrinks(t: Tree, msgs: seq<Message>, i: nat, m: Message)
    requires i < |msgs|
    ensures Distance(t, Without(msgs, i)) < Distance(t, msgs)
    ensures m.dest in t.depth && msgs[i].dest in t.depth && t.depth[m.dest] < t.depth[msgs[i].dest] ==>
              Distance(t, msgs[i := m]) < Distance(t, msgs)
    decreases |msgs|
  {
    var n := |msgs| - 1;
    if i == n {
      assert Without(msgs, i) == msgs[..n] == msgs[i := m][..n];
    } else {
      DistanceShrinks(t, msgs[..n], i, m);
      assert Without(msgs, i)[..n - 1] == Without(msgs[..n], i);
      assert msgs[i := m][..n] == msgs[..n][i := m];
    }
  }

  /** While anything is in flight some delivery, hop or record can happen, and each of them
      brings the end nearer: once elements stop being made and dying, all messages arrive. */
  lemma FlightsEnd(s: State)
    requires Inv(s)
    ensures s.msgs != [] || s.asks != [] ==> exists a: Action :: !a.Make? && !a.Die? && Enabled(s, a)
    ensures forall a: Action :: !a.Make? && !a.Die? && Enabled(s, a) ==>
              Distance(Next(s, a).tree, Next(s, a).msgs) + |Next(s, a).asks| < Distance(s.tree, s.msgs) + |s.asks|
  {
    if s.asks != [] {
      assert Enabled(s, Install(0));
    } else if s.msgs != [] {
      var m := s.msgs[0];
      assert m in s.msgs && Chained(s, m.dest);
      if m.dest in s.tree.live {
        assert Enabled(s, Deliver(0));
      } else {
        assert Enabled(s, Hop(0));
      }
    }
    forall a: Action | !a.Make? && !a.Die? && Enabled(s, a)
      ensures Distance(Next(s, a).tree, Next(s, a).msgs) + |Next(s, a).asks| < Distance(s.tree, s.msgs) + |s.asks|
    {
      DestsKnown(s);
      match a
      case Install(j) =>
      case Hop(i) => DistanceShrinks(s.tree, s.msgs, i, Next(s, a).msgs[i]);
      case Deliver(i) => DistanceShrinks(s.tree, s.msgs, i, s.msgs[i]);
    }
  }

  // ---------------------------------------------------------------- a run

  // The root has the children 1 and 3, and 1 has the child 2.
  const SMALL_TREE := Tree(0, map[1 := 0, 2 := 1, 3 := 0], map[0 := 0, 1 := 1, 2 := 2, 3 := 1], {0, 1, 2, 3})
  const LEAF := Node([], [])

  // Then 1 dies; 2 takes its place; and messages to 1 will go to the root.
  const ALIVE := State(SMALL_TREE, map[0 := Node([1, 3], []), 1 := Node([2], []), 2 := LEAF, 3 := LEAF], map[], [], [])
  const DEAD := State(SMALL_TREE.Shrink(1), map[0 := Node([1, 3], []), 2 := LEAF, 3 := LEAF], map[], [(1, 0)],
                      [Message(0, Edit(1, [2]))])
  const SPLICED := DEAD.(nodes := map[0 := Node([2, 3], []), 2 := LEAF, 3 := LEAF], msgs := [])
  const RECORDED := SPLICED.(fwd := map[1 := 0], asks := [])

  lemma TreeBefore()
    ensures SMALL_TREE.Valid() && SMALL_TREE.live == SMALL_TREE.depth.Keys == ALIVE.nodes.Keys
    ensures DEAD.nodes.Keys == SPLICED.nodes.Keys == SMALL_TREE.Shrink(1).live == {0, 2, 3}
  {
  }

  // How often each element is listed at first.
  lemma ListedBefore(e: nat, x: nat)
    requires e in ALIVE.nodes
    ensures Times(ALIVE.nodes[e].down, x) == if x in SMALL_TREE.up && SMALL_TREE.up[x] == e then 1 else 0
  {
    assert e == 0 || e == 1 || e == 2 || e == 3;
  }

  lemma AliveInitial()
    ensures Initial(ALIVE)
  {
    TreeBefore();
    forall e, x: nat | e in ALIVE.nodes
      ensures Times(ALIVE.nodes[e].down, x) == if x in SMALL_TREE.up && SMALL_TREE.up[x] == e then 1 else 0
    {
      ListedBefore(e, x);
    }
  }

  lemma DeathStep()
    ensures Shape(ALIVE) && Enabled(ALIVE, Die(1)) && Next(ALIVE, Die(1)) == DEAD
  {
    TreeBefore();
    var none: seq<Message>, nobody: seq<(nat, nat)> := [], [];
    assert none + [Message(0, Edit(1, [2]))] == [Message(0, Edit(1, [2]))] && nobody + [(1, 0)] == [(1, 0)];
    assert ALIVE.nodes - {1} == DEAD.nodes;
  }

  lemma SpliceLists()
    ensures Replace([1, 3], [], Edit(1, [2])) == ([2, 3], [])
  {
    ReplacedInPlace([1, 3], Edit(1, [2]), 0);
    assert [1, 3][..0] + [2] + [1, 3][1..] + [2][1..] == [2, 3];
  }

  lemma SpliceStep()
    ensures Shape(DEAD) && Enabled(DEAD, Deliver(0)) && Next(DEAD, Deliver(0)) == SPLICED
  {
    TreeBefore();
    SpliceLists();
    assert Without(DEAD.msgs, 0) == [];
    assert DEAD.nodes[0 := Node([2, 3], [])] == SPLICED.nodes;
  }

  lemma RecordStep()
    ensures Shape(SPLICED) && Enabled(SPLICED, Install(0)) && Next(SPLICED, Install(0)) == RECORDED
  {
    TreeBefore();
    assert Without(SPLICED.asks, 0) == [];
  }

  ghost predicate Leads(s: State, a: Action, n: State) {
    Shape(s) && Enabled(s, a) && n == Next(s, a)
  }

  lemma ThreeSteps(states: seq<State>, acts: seq<Action>)
    requires |acts| == 3 && |states| == 4
    requires Leads(states[0], acts[0], states[1]) && Leads(states[1], acts[1], states[2])
    requires Leads(states[2], acts[2], states[3])
    ensures Execution(states, acts)
  {
    forall i | 0 <= i < |acts|
      ensures Leads(states[i], acts[i], states[i + 1])
    {
      assert i == 0 || i == 1 || i == 2;
    }
  }

  /** An element in the middle of the tree can die; when all is delivered its child has its place in the list of
      its parent, and the record is there. */
  lemma MiddleDies() returns (states: seq<State>, acts: seq<Action>)
    ensures states == [ALIVE, DEAD, SPLICED, RECORDED] && acts == [Die(1), Deliver(0), Install(0)]
    ensures Initial(ALIVE) && Execution(states, acts)
    ensures RECORDED.nodes[0] == Node([2, 3], []) && RECORDED.fwd == map[1 := 0]
  {
    states, acts := [ALIVE, DEAD, SPLICED, RECORDED], [Die(1), Deliver(0), Install(0)];
    AliveInitial();
    DeathStep();
    SpliceStep();
    RecordStep();
    ThreeSteps(states, acts);
  }

  /** A child that is made is listed behind those that were made before it. */
  lemma NewChildLast(s: State, p: nat, c: nat)
    requires Shape(s) && Enabled(s, Make(p, c))
    ensures var n := Next(s, Make(p, c));
      && n.nodes[p].down == s.nodes[p].down + [c] && n.nodes[c] == LEAF && n.tree.up[c] == p
      && forall e :: e in s.nodes && e != p ==> e in n.nodes && n.nodes[e] == s.nodes[e]
  {
  }
}
