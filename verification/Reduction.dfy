/** Reductions over a tree of localities.

    A contribution creates a reducer with a port per child, drains the values that were queued
    for those ports, and adds the local value. A reducer that has all its values sends their
    combination to the parent, or fires the callback at the root. Members contribute at their
    own pace, messages arrive in any order, and between contributions members get new children,
    which start at their parent's reduction number. */
module Reduction {
  import opened Common

  // A combined value: which member's contribution to which reduction it holds, how many times.
  // This is the free commutative combination; any order-insensitive combiner factors through it.
  type Bag = multiset<(nat, nat)>

  // A port is identified by the reduction number and the member the value comes from.
  datatype Port = Port(count: nat, index: nat)

  datatype Dev = Dev(src: nat, bag: Bag)

  // A reducer waits for `need` values.
  datatype Reducer = Reducer(need: nat, devs: seq<Dev>)

  // One member: its number of reductions so far, its children, the open ports and the reducers
  // they lead to (one reducer per reduction number), and the values that came too early.
  datatype Loc = Loc(mine: nat, count: nat, kids: seq<nat>, ports: map<Port, nat>,
                     queue: map<Port, seq<Bag>>, reducers: map<nat, Reducer>)

  // A completed reducer's output.
  datatype Out = Out(count: nat, bag: Bag)

  // ---------------------------------------------------------------- one member

  function QueueOf(q: map<Port, seq<Bag>>, p: Port): seq<Bag> {
    if p in q then q[p] else []
  }

  function SumBags(devs: seq<Dev>): Bag {
    if devs == [] then multiset{} else SumBags(devs[..|devs| - 1]) + devs[|devs| - 1].bag
  }

  function Put(l: Loc, c: nat, d: Dev): Loc
    requires c in l.reducers
  {
    var r := l.reducers[c];
    l.(reducers := l.reducers[c := r.(devs := r.devs + [d])])
  }

  predicate Full(l: Loc, c: nat)
    requires c in l.reducers
  {
    |l.reducers[c].devs| >= l.reducers[c].need
  }

  // The reducer is done: it is discarded, and its ports are closed.
  function Finish(l: Loc, c: nat): Loc {
    l.(reducers := l.reducers - {c}, ports := map p | p in l.ports && l.ports[p] != c :: l.ports[p])
  }

  // A value enters an active reducer.
  function Stage(l: Loc, c: nat, d: Dev): (Loc, Option<Out>)
    requires c in l.reducers
  {
    var l1 := Put(l, c, d);
    if Full(l1, c) then (Finish(l1, c), Some(Out(c, SumBags(l1.reducers[c].devs)))) else (l1, None)
  }

  // A value arrives for a port: it goes through if the port is open, else it is queued.
  function Receive(l: Loc, p: Port, bag: Bag): (Loc, Option<Out>)
    requires p in l.ports ==> l.ports[p] in l.reducers
  {
    if p in l.ports then Stage(l, l.ports[p], Dev(p.index, bag))
    else (l.(queue := l.queue[p := QueueOf(l.queue, p) + [bag]]), None)
  }

  function Reversed(src: nat, bags: seq<Bag>): seq<Dev> {
    seq(|bags|, i requires 0 <= i < |bags| => Dev(src, bags[|bags| - 1 - i]))
  }

  // The values queued for these children, in the order in which an inactive reducer hands them
  // out once it is activated: the latest to enter first.
  function Collected(kids: seq<nat>, queue: map<Port, seq<Bag>>, c: nat): seq<Dev> {
    if kids == [] then []
    else
      var k := kids[|kids| - 1];
      Reversed(k, QueueOf(queue, Port(c, k))) + Collected(kids[..|kids| - 1], queue, c)
  }

  function PortsOf(kids: seq<nat>, c: nat): set<Port> {
    set k | k in kids :: Port(c, k)
  }

  function WithPorts(ports: map<Port, nat>, ps: set<Port>, c: nat): map<Port, nat> {
    ports + map p | p in ps :: c
  }

  // The member with the ports of its next reduction opened.
  function Opened(l: Loc): Loc {
    var c := l.count;
    l.(count := c + 1,
       ports := WithPorts(l.ports, PortsOf(l.kids, c), c),
       queue := l.queue - PortsOf(l.kids, c),
       reducers := l.reducers[c := Reducer(|l.kids| + 1, Collected(l.kids, l.queue, c))])
  }

  // The next local contribution.
  function Contribute(l: Loc): (Loc, Option<Out>) {
    Stage(Opened(l), l.count, Dev(l.mine, multiset{(l.mine, l.count)}))
  }

  // ---------------------------------------------------------------- all members

  datatype Message = Message(dest: nat, port: Port, bag: Bag)

  // Members are numbered so that children come after their parents. `seed` is the number of a
  // member's first reduction. `sums` is bookkeeping: what each completed reducer put out.
  datatype State = State(locs: seq<Loc>, parent: seq<nat>, seed: seq<nat>, msgs: multiset<Message>,
                         results: seq<Out>, sums: map<(nat, nat), Bag>)

  datatype Action =
    | Contribution(member: nat)
    | Delivery(msg: Message)
    | CreateChild(member: nat)

  // Every open port leads to a reducer.
  predicate WiredLoc(l: Loc) {
    forall p :: p in l.ports ==> l.ports[p] in l.reducers
  }

  ghost predicate Wired(s: State) {
    && |s.locs| == |s.parent| == |s.seed|
    && forall i {:trigger WiredLoc(s.locs[i])} :: 0 <= i < |s.locs| ==> WiredLoc(s.locs[i])
  }

  predicate Enabled(s: State, a: Action) {
    match a
    case Contribution(i) => i < |s.locs|
    case Delivery(m) => m in s.msgs && m.dest < |s.locs|
    case CreateChild(i) => i < |s.locs|
  }

  // Member i is now l; what its reducer put out, if anything, is the root's result or goes on
  // to the parent.
  function Emit(s: State, i: nat, l: Loc, out: Option<Out>): State
    requires i < |s.locs| == |s.parent|
  {
    var t := s.(locs := s.locs[i := l]);
    match out
    case None => t
    case Some(o) =>
      var u := t.(sums := t.sums[(i, o.count) := o.bag]);
      if i == 0 then u.(results := u.results + [o])
      else u.(msgs := u.msgs + multiset{Message(s.parent[i], Port(o.count, i), o.bag)})
  }

  // Member i gets a child, whose first reduction is i's next one.
  function Grown(s: State, i: nat): State
    requires i < |s.locs|
  {
    var n, l := |s.locs|, s.locs[i];
    s.(locs := s.locs[i := l.(kids := l.kids + [n])] + [Loc(n, l.count, [], map[], map[], map[])],
       parent := s.parent + [i], seed := s.seed + [l.count])
  }

  ghost function Next(s: State, a: Action): State
    requires Wired(s) && Enabled(s, a)
  {
    match a
    case Contribution(i) =>
      var (l, out) := Contribute(s.locs[i]);
      Emit(s, i, l, out)
    case Delivery(m) =>
      assert WiredLoc(s.locs[m.dest]);
      var (l, out) := Receive(s.locs[m.dest], m.port, m.bag);
      Emit(s.(msgs := s.msgs - multiset{m}), m.dest, l, out)
    case CreateChild(i) => Grown(s, i)
  }

  // ---------------------------------------------------------------- the invariant

  // The children that take part in reduction c.
  function Joined(kids: seq<nat>, seed: seq<nat>, c: nat): seq<nat> {
    if kids == [] then []
    else
      var k := kids[|kids| - 1];
      Joined(kids[..|kids| - 1], seed, c) + if k < |seed| && seed[k] <= c then [k] else []
  }

  function Sources(devs: seq<Dev>): seq<nat> {
    seq(|devs|, j requires 0 <= j < |devs| => devs[j].src)
  }

  predicate Fired(s: State, i: nat, c: nat) {
    (i, c) in s.sums
  }

  ghost predicate TreeOk(s: State) {
    && |s.locs| == |s.parent| == |s.seed| > 0
    && (forall i {:trigger s.locs[i]} :: 0 <= i < |s.locs| ==> s.locs[i].mine == i && s.seed[i] <= s.locs[i].count)
    && (forall k {:trigger s.parent[k]} :: 0 < k < |s.parent| ==>
          s.parent[k] < k && s.seed[s.parent[k]] <= s.seed[k] <= s.locs[s.parent[k]].count)
    && (forall i, k: nat {:trigger multiset(s.locs[i].kids)[k]} :: 0 <= i < |s.locs| ==>
          multiset(s.locs[i].kids)[k] == if ChildOf(s, k, i) then 1 else 0)
  }

  predicate ChildOf(s: State, k: nat, i: nat) {
    0 < k < |s.parent| && s.parent[k] == i
  }

  // A port is open exactly while its reducer waits, for the children that take part.
  predicate PortOk(s: State, i: nat, p: Port)
    requires i < |s.locs| == |s.parent| == |s.seed|
  {
    var l := s.locs[i];
    && (p in l.ports <==> p.count in l.reducers && ChildOf(s, p.index, i) && s.seed[p.index] <= p.count)
    && (p in l.ports ==> l.ports[p] == p.count)
  }

  // A value in a reducer is the member's own or what a child's reducer put out.
  predicate DevOk(s: State, i: nat, c: nat, d: Dev)
    requires |s.parent| == |s.seed|
  {
    (d.src == i && d.bag == multiset{(i, c)}) ||
    (ChildOf(s, d.src, i) && s.seed[d.src] <= c && Fired(s, d.src, c) && d.bag == s.sums[(d.src, c)])
  }

  // Member i has a reducer for every reduction it has contributed to and that is not complete.
  predicate ReducerOk(s: State, i: nat, c: nat)
    requires i < |s.locs| == |s.parent| == |s.seed|
  {
    var l := s.locs[i];
    && (c in l.reducers <==> s.seed[i] <= c < l.count && !Fired(s, i, c))
    && (c in l.reducers ==>
          var r := l.reducers[c];
          && r.need == |Joined(l.kids, s.seed, c)| + 1
          && multiset(Sources(r.devs))[i] == 1
          && forall d {:trigger DevOk(s, i, c, d)} :: d in r.devs ==> DevOk(s, i, c, d))
  }

  predicate FiredOk(s: State, i: nat, c: nat)
    requires |s.locs| == |s.seed|
  {
    Fired(s, i, c) ==> i < |s.locs| && s.seed[i] <= c < s.locs[i].count
  }

  // What is in flight is what a child's reducer put out, on its way to the parent.
  predicate MessageOk(s: State, m: Message) {
    && 0 < m.port.index < |s.parent| && m.dest == s.parent[m.port.index]
    && Fired(s, m.port.index, m.port.count) && m.bag == s.sums[(m.port.index, m.port.count)]
  }

  // So is what is queued, for a reduction the member has not yet contributed to.
  predicate QueueOk(s: State, i: nat, p: Port)
    requires i < |s.locs|
  {
    p in s.locs[i].queue ==>
      && ChildOf(s, p.index, i) && s.locs[i].count <= p.count && Fired(s, p.index, p.count)
      && forall b {:trigger b in s.locs[i].queue[p]} :: b in s.locs[i].queue[p] ==> b == s.sums[(p.index, p.count)]
  }

  function Flying(s: State, k: nat, c: nat): nat
    requires k < |s.parent|
  {
    if Fired(s, k, c) then s.msgs[Message(s.parent[k], Port(c, k), s.sums[(k, c)])] else 0
  }

  function Waiting(l: Loc, k: nat, c: nat): nat {
    |QueueOf(l.queue, Port(c, k))|
  }

  function Held(l: Loc, k: nat, c: nat): nat {
    if c in l.reducers then multiset(Sources(l.reducers[c].devs))[k] else 0
  }

  function Merged(s: State, k: nat, c: nat): nat
    requires k < |s.parent| == |s.seed|
  {
    if Fired(s, s.parent[k], c) && s.seed[k] <= c then 1 else 0
  }

  // Once k has put out its value for reduction c, the value is in exactly one place: in flight,
  // queued, held by the parent's reducer, or part of what the parent has put out in turn.
  predicate EdgeOk(s: State, k: nat, c: nat)
    requires 0 < k < |s.parent| == |s.seed| && s.parent[k] < |s.locs|
  {
    Flying(s, k, c) + Waiting(s.locs[s.parent[k]], k, c) + Held(s.locs[s.parent[k]], k, c) + Merged(s, k, c)
    == if Fired(s, k, c) then 1 else 0
  }

  // What member i puts out: its own contribution and what its children in reduction c put out.
  function Output(sums: map<(nat, nat), Bag>, k: nat, c: nat): Bag {
    if (k, c) in sums then sums[(k, c)] else multiset{}
  }

  function SumOf(sums: map<(nat, nat), Bag>, ks: seq<nat>, c: nat): Bag {
    if ks == [] then multiset{} else SumOf(sums, ks[..|ks| - 1], c) + Output(sums, ks[|ks| - 1], c)
  }

  predicate SumOk(s: State, i: nat, c: nat) {
    Fired(s, i, c) && i < |s.locs| ==>
      s.sums[(i, c)] == multiset{(i, c)} + SumOf(s.sums, Joined(s.locs[i].kids, s.seed, c), c)
  }

  // The results are what the root has put out, each once.
  predicate ResultsOk(s: State) {
    && (forall i {:trigger s.results[i]} :: 0 <= i < |s.results| ==>
          Fired(s, 0, s.results[i].count) && s.results[i].bag == s.sums[(0, s.results[i].count)])
    && (forall i, j :: 0 <= i < j < |s.results| ==> s.results[i].count != s.results[j].count)
  }

  predicate ResultOf(s: State, c: nat) {
    Fired(s, 0, c) ==> Out(c, s.sums[(0, c)]) in s.results
  }

  // All but that every reducer still waits: a reducer may just have become full.
  ghost predicate Settling(s: State) {
    && TreeOk(s)
    && (forall i: nat, p: Port {:trigger PortOk(s, i, p)} :: i < |s.locs| ==> PortOk(s, i, p))
    && (forall i: nat, c: nat {:trigger ReducerOk(s, i, c)} :: i < |s.locs| ==> ReducerOk(s, i, c))
    && (forall i: nat, c: nat {:trigger FiredOk(s, i, c)} :: FiredOk(s, i, c))
    && (forall m {:trigger MessageOk(s, m)} :: m in s.msgs ==> MessageOk(s, m))
    && (forall i: nat, p: Port {:trigger QueueOk(s, i, p)} :: i < |s.locs| ==> QueueOk(s, i, p))
    && (forall k: nat, c: nat {:trigger EdgeOk(s, k, c)} :: 0 < k < |s.parent| ==> EdgeOk(s, k, c))
    && (forall i: nat, c: nat {:trigger SumOk(s, i, c)} :: SumOk(s, i, c))
    && ResultsOk(s)
    && (forall c: nat {:trigger ResultOf(s, c)} :: ResultOf(s, c))
  }

  predicate Waits(s: State, i: nat, c: nat)
    requires i < |s.locs|
  {
    c in s.locs[i].reducers ==> !Full(s.locs[i], c)
  }

  ghost predicate Inv(s: State) {
    && Settling(s)
    && forall i: nat, c: nat {:trigger Waits(s, i, c)} :: i < |s.locs| ==> Waits(s, i, c)
  }

  lemma SettlingWired(s: State)
    requires Settling(s)
    ensures Wired(s)
  {
    forall i: nat | i < |s.locs|
      ensures WiredLoc(s.locs[i])
    {
      forall p | p in s.locs[i].ports
        ensures s.locs[i].ports[p] in s.locs[i].reducers
      {
        assert PortOk(s, i, p);
      }
    }
  }

  // ---------------------------------------------------------------- a reducer fires

  lemma SourcesSnoc(devs: seq<Dev>, d: Dev)
    ensures Sources(devs + [d]) == Sources(devs) + [d.src]
  {
  }

  lemma SumSnoc(sums: map<(nat, nat), Bag>, ks: seq<nat>, k: nat, c: nat)
    ensures SumOf(sums, ks + [k], c) == SumOf(sums, ks, c) + Output(sums, k, c)
  {
    assert (ks + [k])[..|ks|] == ks;
  }

  lemma {:induction false} SumWithout(sums: map<(nat, nat), Bag>, ks: seq<nat>, i: nat, c: nat)
    requires i < |ks|
    ensures SumOf(sums, ks, c) == SumOf(sums, Without(ks, i), c) + Output(sums, ks[i], c)
    decreases |ks|
  {
    var n := |ks| - 1;
    if i == n {
      assert Without(ks, i) == ks[..n];
    } else {
      SumWithout(sums, ks[..n], i, c);
      assert Without(ks, i) == Without(ks[..n], i) + [ks[n]];
      SumSnoc(sums, Without(ks[..n], i), ks[n], c);
    }
  }

  // Combination does not depend on the order of arrival.
  lemma {:induction false} SumPermuted(sums: map<(nat, nat), Bag>, a: seq<nat>, b: seq<nat>, c: nat)
    requires multiset(a) == multiset(b)
    ensures SumOf(sums, a, c) == SumOf(sums, b, c)
    decreases |a|
  {
    if a == [] {
      assert |multiset(b)| == 0;
    } else {
      var n := |a| - 1;
      assert Without(a, n) == a[..n];
      WithoutMultiset(a, n);
      assert a[n] in multiset(b);
      var i :| 0 <= i < |b| && b[i] == a[n];
      WithoutMultiset(b, i);
      SumWithout(sums, a, n, c);
      SumWithout(sums, b, i, c);
      SumPermuted(sums, a[..n], Without(b, i), c);
    }
  }

  lemma {:induction false} SumOfDevs(sums: map<(nat, nat), Bag>, devs: seq<Dev>, c: nat)
    requires forall d :: d in devs ==> (d.src, c) in sums && d.bag == sums[(d.src, c)]
    ensures SumBags(devs) == SumOf(sums, Sources(devs), c)
    decreases |devs|
  {
    if devs != [] {
      var n := |devs| - 1;
      SumOfDevs(sums, devs[..n], c);
      assert Sources(devs)[..n] == Sources(devs[..n]);
    }
  }

  lemma {:induction false} JoinedCounts(kids: seq<nat>, seed: seq<nat>, c: nat, k: nat)
    ensures multiset(Joined(kids, seed, c))[k] == if k < |seed| && seed[k] <= c then multiset(kids)[k] else 0
    decreases |kids|
  {
    if kids != [] {
      var n := |kids| - 1;
      assert kids == kids[..n] + [kids[n]];
      JoinedCounts(kids[..n], seed, c, k);
    }
  }

  lemma {:induction false} SumIgnores(sums: map<(nat, nat), Bag>, i: nat, bag: Bag, ks: seq<nat>, c: nat, c': nat)
    requires c != c' || i !in ks
    ensures SumOf(sums[(i, c') := bag], ks, c) == SumOf(sums, ks, c)
    decreases |ks|
  {
    if ks != [] {
      SumIgnores(sums, i, bag, ks[..|ks| - 1], c, c');
    }
  }

  lemma SubMultisetEqual<T>(a: multiset<T>, b: multiset<T>)
    requires a <= b && |a| >= |b|
    ensures a == b
  {
    assert b == a + (b - a);
    assert |b - a| == 0;
  }

  lemma FullSources(s: State, i: nat, c: nat)
    requires Settling(s) && i < |s.locs| && c in s.locs[i].reducers && Full(s.locs[i], c)
    ensures multiset(Sources(s.locs[i].reducers[c].devs)) == multiset([i] + Joined(s.locs[i].kids, s.seed, c))
  {
    var kids: seq<nat>, ks: seq<nat> := s.locs[i].kids, Joined(s.locs[i].kids, s.seed, c);
    var a, b := multiset(Sources(s.locs[i].reducers[c].devs)), multiset([i] + ks);
    assert ReducerOk(s, i, c);
    forall k: nat | k in a
      ensures a[k] <= b[k]
    {
      HeldOnce(s, i, c, k);
      JoinedCounts(kids, s.seed, c, k);
      assert multiset(kids)[k] == if 0 < k < |s.parent| && s.parent[k] == i then 1 else 0;
    }
    SubMultisetEqual(a, b);
  }

  // The sum over the children and the member itself, whose own value is not recorded yet.
  lemma SumWithOwn(sums: map<(nat, nat), Bag>, i: nat, c: nat, ks: seq<nat>, own: Bag)
    requires i !in ks
    ensures SumOf(sums[(i, c) := own], [i] + ks, c) == own + SumOf(sums, ks, c)
  {
    var with := sums[(i, c) := own];
    SumWithout(with, [i] + ks, 0, c);
    assert Without([i] + ks, 0) == ks;
    SumIgnores(sums, i, own, ks, c, c);
  }

  /** A full reducer has its own contribution and one value of each child that takes part, and
      so puts out their sum, whatever the order in which they came. */
  lemma FullIsComplete(s: State, i: nat, c: nat)
    requires Settling(s) && i < |s.locs| && c in s.locs[i].reducers && Full(s.locs[i], c)
    ensures SumBags(s.locs[i].reducers[c].devs)
      == multiset{(i, c)} + SumOf(s.sums, Joined(s.locs[i].kids, s.seed, c), c)
  {
    var ks, devs := Joined(s.locs[i].kids, s.seed, c), s.locs[i].reducers[c].devs;
    var with := s.sums[(i, c) := multiset{(i, c)}];
    assert ReducerOk(s, i, c);
    forall d | d in devs
      ensures (d.src, c) in with && d.bag == with[(d.src, c)]
    {
      assert DevOk(s, i, c, d);
    }
    SumOfDevs(with, devs, c);
    FullSources(s, i, c);
    SumPermuted(with, Sources(devs), [i] + ks, c);
    assert i !in ks by {
      JoinedCounts(s.locs[i].kids, s.seed, c, i);
      assert multiset(s.locs[i].kids)[i] == 0;
    }
    SumWithOwn(s.sums, i, c, ks, multiset{(i, c)});
  }

  lemma HeldOnce(s: State, i: nat, c: nat, k: nat)
    requires Settling(s) && i < |s.locs| && c in s.locs[i].reducers
    ensures multiset(Sources(s.locs[i].reducers[c].devs))[k]
         <= if k == i || (0 < k < |s.parent| && s.parent[k] == i && s.seed[k] <= c) then 1 else 0
  {
    var devs := s.locs[i].reducers[c].devs;
    assert ReducerOk(s, i, c);
    if k != i && k in Sources(devs) {
      var j :| 0 <= j < |devs| && devs[j].src == k;
      assert DevOk(s, i, c, devs[j]);
      assert EdgeOk(s, k, c);
    }
  }

  // The full reducer c of member i puts out its sum.
  function Fire(s: State, i: nat, c: nat): State
    requires i < |s.locs| == |s.parent| && c in s.locs[i].reducers
  {
    Emit(s, i, Finish(s.locs[i], c), Some(Out(c, SumBags(s.locs[i].reducers[c].devs))))
  }

  // The shape of the tree does not depend on ports, queues and reducers.
  lemma UpdateTree(s: State, t: State, i: nat)
    requires TreeOk(s) && i < |s.locs| == |t.locs| && t.parent == s.parent && t.seed == s.seed
    requires t.locs == s.locs[i := t.locs[i]]
    requires t.locs[i].mine == i && t.locs[i].kids == s.locs[i].kids && t.locs[i].count >= s.locs[i].count
    ensures TreeOk(t)
  {
  }

  lemma FireTree(s: State, i: nat, c: nat)
    requires TreeOk(s) && i < |s.locs| && c in s.locs[i].reducers
    ensures TreeOk(Fire(s, i, c))
  {
    UpdateTree(s, Fire(s, i, c), i);
  }

  lemma FirePort(s: State, i: nat, c: nat, j: nat, p: Port)
    requires TreeOk(s) && i < |s.locs| && c in s.locs[i].reducers && j < |s.locs| && PortOk(s, j, p)
    ensures PortOk(Fire(s, i, c), j, p)
  {
  }

  lemma FireReducer(s: State, i: nat, c: nat, j: nat, d: nat)
    requires TreeOk(s) && i < |s.locs| && c in s.locs[i].reducers && j < |s.locs| && ReducerOk(s, i, c)
    requires ReducerOk(s, j, d)
    ensures ReducerOk(Fire(s, i, c), j, d)
  {
    var n := Fire(s, i, c);
    assert n.locs[j].kids == s.locs[j].kids;
    if d in n.locs[j].reducers {
      forall e | e in n.locs[j].reducers[d].devs
        ensures DevOk(n, j, d, e)
      {
        assert DevOk(s, j, d, e);
      }
    }
  }

  lemma FireQueue(s: State, i: nat, c: nat, j: nat, p: Port)
    requires Settling(s) && i < |s.locs| && c in s.locs[i].reducers && j < |s.locs|
    ensures QueueOk(Fire(s, i, c), j, p)
  {
    assert ReducerOk(s, i, c) && QueueOk(s, j, p);
  }

  lemma FireFired(s: State, i: nat, c: nat, j: nat, d: nat)
    requires Settling(s) && i < |s.locs| && c in s.locs[i].reducers
    ensures FiredOk(Fire(s, i, c), j, d)
  {
    assert ReducerOk(s, i, c) && FiredOk(s, j, d);
  }

  lemma FireMessage(s: State, i: nat, c: nat, m: Message)
    requires Settling(s) && i < |s.locs| && c in s.locs[i].reducers && m in Fire(s, i, c).msgs
    ensures MessageOk(Fire(s, i, c), m)
  {
    assert ReducerOk(s, i, c);
    if m in s.msgs {
      assert MessageOk(s, m);
    }
  }

  // What fires was not fired before, so its value is nowhere yet.
  lemma FireOwnEdge(s: State, i: nat, c: nat)
    requires TreeOk(s) && 0 < i < |s.locs| && c in s.locs[i].reducers && ReducerOk(s, i, c) && EdgeOk(s, i, c)
    requires forall m {:trigger MessageOk(s, m)} :: m in s.msgs ==> MessageOk(s, m)
    ensures EdgeOk(Fire(s, i, c), i, c)
  {
    var n := Fire(s, i, c);
    var m := Message(s.parent[i], Port(c, i), n.sums[(i, c)]);
    assert s.msgs[m] == 0 by {
      assert !MessageOk(s, m);
    }
  }

  // The values of the children move into the sum.
  lemma FireChildEdge(s: State, i: nat, c: nat, k: nat)
    requires Settling(s) && i < |s.locs| && c in s.locs[i].reducers && Full(s.locs[i], c) && ChildOf(s, k, i)
    ensures EdgeOk(Fire(s, i, c), k, c)
  {
    assert EdgeOk(s, k, c) && ReducerOk(s, i, c);
    assert Held(s.locs[i], k, c) == if s.seed[k] <= c then 1 else 0 by {
      FullSources(s, i, c);
      JoinedCounts(s.locs[i].kids, s.seed, c, k);
      assert multiset(s.locs[i].kids)[k] == 1;
    }
    FireEdgeMoves(s, i, c, k);
  }

  lemma FireEdgeMoves(s: State, i: nat, c: nat, k: nat)
    requires TreeOk(s) && i < |s.locs| && c in s.locs[i].reducers && ChildOf(s, k, i) && !Fired(s, i, c)
    requires EdgeOk(s, k, c)
    requires Held(s.locs[i], k, c) == if s.seed[k] <= c then 1 else 0
    ensures EdgeOk(Fire(s, i, c), k, c)
  {
  }

  lemma FireOtherEdge(s: State, i: nat, c: nat, k: nat, d: nat)
    requires TreeOk(s) && i < |s.locs| && c in s.locs[i].reducers && 0 < k < |s.parent| && EdgeOk(s, k, d)
    requires d != c || (k != i && s.parent[k] != i)
    ensures EdgeOk(Fire(s, i, c), k, d)
  {
  }

  lemma FireEdge(s: State, i: nat, c: nat, k: nat, d: nat)
    requires Settling(s) && i < |s.locs| && c in s.locs[i].reducers && Full(s.locs[i], c)
    requires 0 < k < |s.parent|
    ensures EdgeOk(Fire(s, i, c), k, d)
  {
    assert EdgeOk(s, k, d) && ReducerOk(s, i, c);
    if k == i && d == c {
      FireOwnEdge(s, i, c);
    } else if s.parent[k] == i && d == c {
      FireChildEdge(s, i, c, k);
    } else {
      FireOtherEdge(s, i, c, k, d);
    }
  }

  // A parent has not put out its sum before a child that takes part.
  lemma ParentFiresLater(s: State, i: nat, c: nat, j: nat)
    requires Settling(s) && i < |s.locs| && j < |s.locs| && !Fired(s, i, c) && i in Joined(s.locs[j].kids, s.seed, c)
    ensures !Fired(s, j, c) && j != i
  {
    JoinedCounts(s.locs[j].kids, s.seed, c, i);
    assert multiset(s.locs[j].kids)[i] > 0;
    assert EdgeOk(s, i, c);
  }

  lemma FireSums(s: State, i: nat, c: nat, j: nat, d: nat)
    requires Settling(s) && i < |s.locs| && c in s.locs[i].reducers && Full(s.locs[i], c)
    ensures SumOk(Fire(s, i, c), j, d)
  {
    var n := Fire(s, i, c);
    assert ReducerOk(s, i, c) && SumOk(s, j, d);
    FullIsComplete(s, i, c);
    if j < |s.locs| {
      var ks := Joined(s.locs[j].kids, s.seed, d);
      if d == c && i in ks {
        ParentFiresLater(s, i, c, j);
      } else {
        SumIgnores(s.sums, i, n.sums[(i, c)], ks, d, c);
      }
    }
  }

  lemma FireResults(s: State, i: nat, c: nat, d: nat)
    requires Settling(s) && i < |s.locs| && c in s.locs[i].reducers
    ensures ResultsOk(Fire(s, i, c)) && ResultOf(Fire(s, i, c), d)
  {
    assert ReducerOk(s, i, c) && ResultOf(s, d);
  }

  lemma FireWaits(s: State, i: nat, c: nat, j: nat, d: nat)
    requires i < |s.locs| && c in s.locs[i].reducers && j < |s.locs| == |s.parent|
    requires (j == i && d == c) || Waits(s, j, d)
    ensures Waits(Fire(s, i, c), j, d)
  {
  }

  /** Firing a full reducer keeps everything. */
  lemma FireKeeps(s: State, i: nat, c: nat)
    requires Settling(s) && i < |s.locs| && c in s.locs[i].reducers && Full(s.locs[i], c)
    requires forall j: nat, d: nat {:trigger Waits(s, j, d)} :: j < |s.locs| && (j != i || d != c) ==> Waits(s, j, d)
    ensures Inv(Fire(s, i, c))
  {
    var n := Fire(s, i, c);
    FireTree(s, i, c);
    forall j: nat, p: Port | j < |n.locs| ensures PortOk(n, j, p) { assert PortOk(s, j, p); FirePort(s, i, c, j, p); }
    forall j: nat, d: nat | j < |n.locs| ensures ReducerOk(n, j, d) {
      assert ReducerOk(s, i, c) && ReducerOk(s, j, d);
      FireReducer(s, i, c, j, d);
    }
    forall j: nat, d: nat ensures FiredOk(n, j, d) { FireFired(s, i, c, j, d); }
    forall m | m in n.msgs ensures MessageOk(n, m) { FireMessage(s, i, c, m); }
    forall j: nat, p: Port | j < |n.locs| ensures QueueOk(n, j, p) { FireQueue(s, i, c, j, p); }
    forall k: nat, d: nat | 0 < k < |n.parent| ensures EdgeOk(n, k, d) { FireEdge(s, i, c, k, d); }
    forall j: nat, d: nat ensures SumOk(n, j, d) { FireSums(s, i, c, j, d); }
    FireResults(s, i, c, c);
    forall d: nat ensures ResultOf(n, d) { FireResults(s, i, c, d); }
    forall j: nat, d: nat | j < |n.locs| ensures Waits(n, j, d) { FireWaits(s, i, c, j, d); }
  }
}
