/** Every step keeps the reduction invariant: a value that enters its reducer, a value that comes
    too early, a contribution, and a new child. */
module ReductionSteps {
  import opened Reduction

  // What only depends on the tree and on what has been put out.
  lemma SameSums(s: State, t: State, j: nat, d: nat)
    requires t.sums == s.sums && t.seed == s.seed && |t.locs| == |s.locs|
    requires j < |s.locs| ==> t.locs[j].kids == s.locs[j].kids
    requires SumOk(s, j, d)
    ensures SumOk(t, j, d)
  {
  }

  // ---------------------------------------------------------------- a value enters its reducer

  predicate CanTake(s: State, m: Message) {
    m in s.msgs && m.dest < |s.locs| && m.port in s.locs[m.dest].ports && m.port.count in s.locs[m.dest].reducers
  }

  function Taken(s: State, m: Message): State
    requires CanTake(s, m)
  {
    s.(locs := s.locs[m.dest := Put(s.locs[m.dest], m.port.count, Dev(m.port.index, m.bag))],
      msgs := s.msgs - multiset{m})
  }

  lemma TakenReducer(s: State, m: Message, j: nat, d: nat)
    requires TreeOk(s) && CanTake(s, m) && MessageOk(s, m) && PortOk(s, m.dest, m.port) && j < |s.locs|
    requires ReducerOk(s, j, d)
    ensures ReducerOk(Taken(s, m), j, d)
  {
    var t := Taken(s, m);
    if d in s.locs[j].reducers {
      var devs := s.locs[j].reducers[d].devs;
      if j == m.dest && d == m.port.count {
        SourcesSnoc(devs, Dev(m.port.index, m.bag));
      }
      forall e | e in t.locs[j].reducers[d].devs
        ensures DevOk(t, j, d, e)
      {
        if e in devs {
          assert DevOk(s, j, d, e);
        }
      }
    }
  }

  lemma TakenPort(s: State, m: Message, j: nat, p: Port)
    requires TreeOk(s) && CanTake(s, m) && j < |s.locs| && PortOk(s, j, p)
    ensures PortOk(Taken(s, m), j, p)
  {
  }

  lemma TakenValues(s: State, m: Message, j: nat, p: Port, d: nat)
    requires TreeOk(s) && CanTake(s, m)
    requires j < |s.locs| ==> QueueOk(s, j, p)
    requires FiredOk(s, j, d)
    ensures j < |s.locs| ==> QueueOk(Taken(s, m), j, p)
    ensures FiredOk(Taken(s, m), j, d)
  {
  }

  lemma TakenEdge(s: State, m: Message, k: nat, d: nat)
    requires TreeOk(s) && CanTake(s, m) && MessageOk(s, m) && 0 < k < |s.parent| && EdgeOk(s, k, d)
    ensures EdgeOk(Taken(s, m), k, d)
  {
    var i, c := m.dest, m.port.count;
    SourcesSnoc(s.locs[i].reducers[c].devs, Dev(m.port.index, m.bag));
  }

  lemma TakenSettles(s: State, m: Message)
    requires Settling(s) && CanTake(s, m)
    ensures Settling(Taken(s, m))
  {
    var t := Taken(s, m);
    UpdateTree(s, t, m.dest);
    assert MessageOk(s, m) && PortOk(s, m.dest, m.port);
    forall j: nat, p: Port | j < |t.locs| ensures PortOk(t, j, p) { assert PortOk(s, j, p); TakenPort(s, m, j, p); }
    forall j: nat, d: nat | j < |t.locs|
      ensures ReducerOk(t, j, d)
    {
      assert ReducerOk(s, j, d);
      TakenReducer(s, m, j, d);
    }
    forall j: nat, d: nat ensures FiredOk(t, j, d) { assert FiredOk(s, j, d); }
    forall a | a in t.msgs ensures MessageOk(t, a) { assert MessageOk(s, a); }
    forall j: nat, p: Port | j < |t.locs| ensures QueueOk(t, j, p) {
      assert QueueOk(s, j, p) && FiredOk(s, j, 0);
      TakenValues(s, m, j, p, 0);
    }
    forall k: nat, d: nat | 0 < k < |t.parent|
      ensures EdgeOk(t, k, d)
    {
      assert EdgeOk(s, k, d);
      TakenEdge(s, m, k, d);
    }
    forall j: nat, d: nat ensures SumOk(t, j, d) { assert SumOk(s, j, d); SameSums(s, t, j, d); }
    forall d: nat ensures ResultOf(t, d) { assert ResultOf(s, d); }
  }

  // ---------------------------------------------------------------- a value comes too early

  predicate CanQueue(s: State, m: Message) {
    m in s.msgs && m.dest < |s.locs| && m.port !in s.locs[m.dest].ports
  }

  function Queued(s: State, m: Message): State
    requires CanQueue(s, m)
  {
    var l := s.locs[m.dest];
    s.(locs := s.locs[m.dest := l.(queue := l.queue[m.port := QueueOf(l.queue, m.port) + [m.bag]])],
      msgs := s.msgs - multiset{m})
  }

  /** A value whose port is closed belongs to a reduction the member has not contributed to: no
      value comes too late. */
  lemma TooEarly(s: State, m: Message)
    requires Settling(s) && CanQueue(s, m)
    ensures MessageOk(s, m) && s.locs[m.dest].count <= m.port.count
  {
    assert MessageOk(s, m);
    var k, c := m.port.index, m.port.count;
    assert EdgeOk(s, k, c) && PortOk(s, m.dest, m.port) && ReducerOk(s, m.dest, c) && FiredOk(s, k, c);
  }

  lemma QueuedQueue(s: State, m: Message, j: nat, p: Port)
    requires TreeOk(s) && CanQueue(s, m) && MessageOk(s, m) && s.locs[m.dest].count <= m.port.count
    requires j < |s.locs| && QueueOk(s, j, p)
    ensures QueueOk(Queued(s, m), j, p)
  {
  }

  lemma QueuedPort(s: State, m: Message, j: nat, p: Port)
    requires TreeOk(s) && CanQueue(s, m) && j < |s.locs| && PortOk(s, j, p)
    ensures PortOk(Queued(s, m), j, p)
  {
  }

  lemma QueuedReducer(s: State, m: Message, j: nat, d: nat)
    requires TreeOk(s) && CanQueue(s, m) && j < |s.locs| && ReducerOk(s, j, d)
    ensures ReducerOk(Queued(s, m), j, d)
  {
    var t := Queued(s, m);
    if d in s.locs[j].reducers {
      forall e | e in s.locs[j].reducers[d].devs
        ensures DevOk(t, j, d, e)
      {
        assert DevOk(s, j, d, e);
      }
    }
  }

  lemma QueuedEdge(s: State, m: Message, k: nat, d: nat)
    requires TreeOk(s) && CanQueue(s, m) && MessageOk(s, m) && 0 < k < |s.parent| && EdgeOk(s, k, d)
    ensures EdgeOk(Queued(s, m), k, d)
  {
  }

  lemma QueuedKeeps(s: State, m: Message)
    requires Inv(s) && CanQueue(s, m)
    ensures Inv(Queued(s, m))
  {
    var t := Queued(s, m);
    UpdateTree(s, t, m.dest);
    TooEarly(s, m);
    forall j: nat, p: Port | j < |t.locs| ensures PortOk(t, j, p) { assert PortOk(s, j, p); QueuedPort(s, m, j, p); }
    forall j: nat, d: nat | j < |t.locs|
      ensures ReducerOk(t, j, d)
    {
      assert ReducerOk(s, j, d);
      QueuedReducer(s, m, j, d);
    }
    forall j: nat, d: nat ensures FiredOk(t, j, d) { assert FiredOk(s, j, d); }
    forall a | a in t.msgs ensures MessageOk(t, a) { assert MessageOk(s, a); }
    forall j: nat, p: Port | j < |t.locs| ensures QueueOk(t, j, p) { assert QueueOk(s, j, p); QueuedQueue(s, m, j, p); }
    forall k: nat, d: nat | 0 < k < |t.parent|
      ensures EdgeOk(t, k, d)
    {
      assert EdgeOk(s, k, d);
      QueuedEdge(s, m, k, d);
    }
    forall j: nat, d: nat ensures SumOk(t, j, d) { assert SumOk(s, j, d); SameSums(s, t, j, d); }
    forall d: nat ensures ResultOf(t, d) { assert ResultOf(s, d); }
    forall j: nat, d: nat | j < |t.locs| ensures Waits(t, j, d) { assert Waits(s, j, d); }
  }

  // ---------------------------------------------------------------- a contribution

  // Member i with its next reducer opened and its own value added.
  function Opening(s: State, i: nat): State
    requires i < |s.locs|
  {
    var l := s.locs[i];
    s.(locs := s.locs[i := Put(Opened(l), l.count, Dev(l.mine, multiset{(l.mine, l.count)}))])
  }

  lemma {:induction false} ReversedCounts(src: nat, bags: seq<Bag>, k: nat)
    ensures multiset(Sources(Reversed(src, bags)))[k] == if k == src then |bags| else 0
    ensures forall d {:trigger d in Reversed(src, bags)} :: d in Reversed(src, bags) ==> d.src == src && d.bag in bags
    decreases |bags|
  {
    if bags != [] {
      ReversedCounts(src, bags[1..], k);
      assert Reversed(src, bags) == Reversed(src, bags[1..]) + [Dev(src, bags[0])];
      SourcesSnoc(Reversed(src, bags[1..]), Dev(src, bags[0]));
      forall d | d in Reversed(src, bags)
        ensures d.src == src && d.bag in bags
      {
        assert d in Reversed(src, bags[1..]) || d == Dev(src, bags[0]);
      }
    }
  }

  lemma SourcesConcat(a: seq<Dev>, b: seq<Dev>)
    ensures Sources(a + b) == Sources(a) + Sources(b)
  {
  }

  // What a new reducer collects: the queued values of each child.
  lemma {:induction false} CollectedCounts(kids: seq<nat>, queue: map<Port, seq<Bag>>, c: nat, k: nat)
    requires multiset(kids)[k] <= 1
    ensures multiset(Sources(Collected(kids, queue, c)))[k] == if multiset(kids)[k] == 1 then
      |QueueOf(queue, Port(c, k))| else 0
    decreases |kids|
  {
    if kids != [] {
      var n := |kids| - 1;
      assert kids == kids[..n] + [kids[n]];
      CollectedCounts(kids[..n], queue, c, k);
      CollectedNext(kids[..n], kids[n], queue, c, k);
    }
  }

  lemma CollectedNext(kids: seq<nat>, up: nat, queue: map<Port, seq<Bag>>, c: nat, k: nat)
    ensures Collected(kids + [up], queue, c) == Reversed(up, QueueOf(queue, Port(c, up))) + Collected(kids, queue, c)
    ensures multiset(Sources(Collected(kids + [up], queue, c)))[k] == multiset(Sources(Collected(kids, queue, c)))[k]
         + if k == up then |QueueOf(queue, Port(c, k))| else 0
  {
    assert (kids + [up])[..|kids|] == kids;
    var bags := QueueOf(queue, Port(c, up));
    ReversedCounts(up, bags, k);
    SourcesConcat(Reversed(up, bags), Collected(kids, queue, c));
  }

  lemma {:induction false} CollectedFrom(kids: seq<nat>, queue: map<Port, seq<Bag>>, c: nat, d: Dev)
    requires d in Collected(kids, queue, c)
    ensures d.src in kids && d.bag in QueueOf(queue, Port(c, d.src))
    decreases |kids|
  {
    var n := |kids| - 1;
    ReversedCounts(kids[n], QueueOf(queue, Port(c, kids[n])), 0);
    if d !in Reversed(kids[n], QueueOf(queue, Port(c, kids[n]))) {
      CollectedFrom(kids[..n], queue, c, d);
    }
  }

  lemma {:induction false} AllJoined(kids: seq<nat>, seed: seq<nat>, c: nat)
    requires forall x {:trigger kids[x]} :: 0 <= x < |kids| ==> kids[x] < |seed| && seed[kids[x]] <= c
    ensures Joined(kids, seed, c) == kids
    decreases |kids|
  {
    if kids != [] {
      var k := kids[|kids| - 1];
      assert kids == kids[..|kids| - 1] + [k];
      AllJoined(kids[..|kids| - 1], seed, c);
    }
  }

  lemma KidsAreChildren(s: State, i: nat, k: nat)
    requires TreeOk(s) && i < |s.locs|
    ensures k in s.locs[i].kids <==> ChildOf(s, k, i)
  {
    var kids: seq<nat> := s.locs[i].kids;
    assert multiset(kids)[k] == if ChildOf(s, k, i) then 1 else 0;
    assert k in kids <==> multiset(kids)[k] > 0;
  }

  lemma NotYet(s: State, i: nat)
    requires Settling(s) && i < |s.locs|
    ensures !Fired(s, i, s.locs[i].count) && s.locs[i].count !in s.locs[i].reducers
  {
    assert FiredOk(s, i, s.locs[i].count) && ReducerOk(s, i, s.locs[i].count);
  }

  lemma OpeningTree(s: State, i: nat)
    requires TreeOk(s) && i < |s.locs|
    ensures TreeOk(Opening(s, i))
  {
    UpdateTree(s, Opening(s, i), i);
  }

  lemma OpeningPort(s: State, i: nat, j: nat, p: Port)
    requires TreeOk(s) && i < |s.locs| && j < |s.locs| && PortOk(s, j, p)
    ensures PortOk(Opening(s, i), j, p)
  {
    KidsAreChildren(s, i, p.index);
  }

  lemma NewReducer(s: State, i: nat)
    requires Settling(s) && i < |s.locs|
    ensures ReducerOk(Opening(s, i), i, s.locs[i].count)
  {
    var t, l, c := Opening(s, i), s.locs[i], s.locs[i].count;
    NotYet(s, i);
    var got, own := Collected(l.kids, l.queue, c), Dev(l.mine, multiset{(l.mine, c)});
    assert t.locs[i].reducers[c] == Reducer(|l.kids| + 1, got + [own]);
    assert Joined(l.kids, s.seed, c) == l.kids by {
      forall x | 0 <= x < |l.kids|
        ensures l.kids[x] < |s.seed| && s.seed[l.kids[x]] <= c
      {
        KidsAreChildren(s, i, l.kids[x]);
      }
      AllJoined(l.kids, s.seed, c);
    }
    assert multiset(Sources(got + [own]))[i] == 1 by {
      OwnOnce(s, i);
    }
    forall d | d in got + [own]
      ensures DevOk(t, i, c, d)
    {
      if d in got {
        CollectedFrom(l.kids, l.queue, c, d);
        KidsAreChildren(s, i, d.src);
        assert QueueOk(s, i, Port(c, d.src));
      }
    }
  }

  lemma OwnOnce(s: State, i: nat)
    requires TreeOk(s) && i < |s.locs|
    ensures var l := s.locs[i];
      multiset(Sources(Collected(l.kids, l.queue, l.count) + [Dev(l.mine, multiset{(l.mine, l.count)})]))[i] == 1
  {
    var l := s.locs[i];
    SourcesSnoc(Collected(l.kids, l.queue, l.count), Dev(l.mine, multiset{(l.mine, l.count)}));
    KidsAreChildren(s, i, i);
    CollectedCounts(l.kids, l.queue, l.count, i);
  }

  lemma OpeningReducer(s: State, i: nat, j: nat, d: nat)
    requires Settling(s) && i < |s.locs| && j < |s.locs|
    ensures ReducerOk(Opening(s, i), j, d)
  {
    var t := Opening(s, i);
    if i == j && d == s.locs[i].count {
      NewReducer(s, i);
    } else {
      assert ReducerOk(s, j, d);
      OldReducer(s, i, j, d);
    }
  }

  lemma OldReducer(s: State, i: nat, j: nat, d: nat)
    requires TreeOk(s) && i < |s.locs| && j < |s.locs| && (i != j || d != s.locs[i].count) && ReducerOk(s, j, d)
    ensures ReducerOk(Opening(s, i), j, d)
  {
    var t := Opening(s, i);
    if d in s.locs[j].reducers {
      forall e | e in s.locs[j].reducers[d].devs
        ensures DevOk(t, j, d, e)
      {
        assert DevOk(s, j, d, e);
      }
    }
  }

  lemma OpeningValues(s: State, i: nat, j: nat, p: Port)
    requires TreeOk(s) && i < |s.locs| && j < |s.locs| && QueueOk(s, j, p)
    ensures QueueOk(Opening(s, i), j, p)
  {
    KidsAreChildren(s, i, p.index);
  }

  lemma OpeningEdge(s: State, i: nat, k: nat, d: nat)
    requires TreeOk(s) && i < |s.locs| && 0 < k < |s.parent| && EdgeOk(s, k, d)
    requires s.locs[i].count !in s.locs[i].reducers
    ensures EdgeOk(Opening(s, i), k, d)
  {
    var l, c := s.locs[i], s.locs[i].count;
    if s.parent[k] == i && d == c {
      var got, own := Collected(l.kids, l.queue, c), Dev(l.mine, multiset{(l.mine, c)});
      KidsAreChildren(s, i, k);
      assert multiset(l.kids)[k] == 1;
      CollectedCounts(l.kids, l.queue, c, k);
      SourcesSnoc(got, own);
    }
  }

  lemma OpeningSettles(s: State, i: nat)
    requires Settling(s) && i < |s.locs|
    ensures Settling(Opening(s, i))
  {
    var t := Opening(s, i);
    OpeningTree(s, i);
    NotYet(s, i);
    forall j: nat, p: Port | j < |t.locs| ensures PortOk(t, j, p) { assert PortOk(s, j, p); OpeningPort(s, i, j, p); }
    forall j: nat, d: nat | j < |t.locs| ensures ReducerOk(t, j, d) { OpeningReducer(s, i, j, d); }
    forall j: nat, d: nat ensures FiredOk(t, j, d) { assert FiredOk(s, j, d); }
    forall a | a in t.msgs ensures MessageOk(t, a) { assert MessageOk(s, a); }
    forall j: nat, p: Port | j < |t.locs|
      ensures QueueOk(t, j, p)
    {
      assert QueueOk(s, j, p);
      OpeningValues(s, i, j, p);
    }
    forall k: nat, d: nat | 0 < k < |t.parent|
      ensures EdgeOk(t, k, d)
    {
      assert EdgeOk(s, k, d);
      OpeningEdge(s, i, k, d);
    }
    forall j: nat, d: nat ensures SumOk(t, j, d) { assert SumOk(s, j, d); SameSums(s, t, j, d); }
    forall d: nat ensures ResultOf(t, d) { assert ResultOf(s, d); }
  }

  // ---------------------------------------------------------------- a new child

  lemma GrownTree(s: State, i: nat)
    requires TreeOk(s) && i < |s.locs|
    ensures TreeOk(Grown(s, i))
  {
    var t, n := Grown(s, i), |s.locs|;
    forall j, k: nat | 0 <= j < |t.locs|
      ensures multiset(t.locs[j].kids)[k] == if ChildOf(t, k, j) then 1 else 0
    {
      if j < n {
        KidsAreChildren(s, j, k);
        assert multiset(s.locs[j].kids)[k] == if ChildOf(s, k, j) then 1 else 0;
      }
    }
  }

  lemma {:induction false} JoinedGrows(kids: seq<nat>, seed: seq<nat>, more: seq<nat>, c: nat)
    requires forall x {:trigger kids[x]} :: 0 <= x < |kids| ==> kids[x] < |seed|
    ensures Joined(kids, seed + more, c) == Joined(kids, seed, c)
    decreases |kids|
  {
    if kids != [] {
      var k := kids[|kids| - 1];
      assert kids == kids[..|kids| - 1] + [k];
      JoinedGrows(kids[..|kids| - 1], seed, more, c);
    }
  }

  // The new child takes no part in the reductions its parent has already contributed to.
  lemma JoinedSame(s: State, i: nat, j: nat, c: nat)
    requires TreeOk(s) && i < |s.locs| && j < |s.locs| && (i == j ==> c < s.locs[i].count)
    ensures Joined(Grown(s, i).locs[j].kids, Grown(s, i).seed, c) == Joined(s.locs[j].kids, s.seed, c)
  {
    var kids := s.locs[j].kids;
    forall x | 0 <= x < |kids|
      ensures kids[x] < |s.seed|
    {
      KidsAreChildren(s, j, kids[x]);
    }
    JoinedGrows(kids, s.seed, [s.locs[i].count], c);
    if i == j {
      assert (kids + [|s.locs|])[..|kids|] == kids;
    }
  }

  lemma GrownReducer(s: State, i: nat, j: nat, d: nat)
    requires Settling(s) && i < |s.locs| && j < |s.locs|
    ensures ReducerOk(Grown(s, i), j, d)
  {
    var t := Grown(s, i);
    assert ReducerOk(s, j, d);
    if d in s.locs[j].reducers {
      JoinedSame(s, i, j, d);
      forall e | e in s.locs[j].reducers[d].devs
        ensures DevOk(t, j, d, e)
      {
        assert DevOk(s, j, d, e);
      }
    }
  }

  lemma GrownPort(s: State, i: nat, j: nat, p: Port)
    requires TreeOk(s) && i < |s.locs| && j < |s.locs| && PortOk(s, j, p) && ReducerOk(s, j, p.count)
    ensures PortOk(Grown(s, i), j, p)
  {
  }

  lemma NewMember(s: State, i: nat, p: Port, c: nat)
    requires Settling(s) && i < |s.locs|
    ensures var t, n := Grown(s, i), |s.locs|; PortOk(t, n, p) && ReducerOk(t, n, c) && QueueOk(t, n, p)
  {
    assert FiredOk(s, |s.locs|, c);
  }

  lemma GrownQueue(s: State, i: nat, j: nat, p: Port)
    requires TreeOk(s) && i < |s.locs| && j < |s.locs| && QueueOk(s, j, p)
    ensures QueueOk(Grown(s, i), j, p)
  {
  }

  lemma GrownEdge(s: State, i: nat, k: nat, d: nat)
    requires TreeOk(s) && i < |s.locs| && 0 < k < |s.parent| && EdgeOk(s, k, d)
    ensures EdgeOk(Grown(s, i), k, d)
  {
  }

  lemma NewEdge(s: State, i: nat, d: nat)
    requires Settling(s) && i < |s.locs|
    ensures EdgeOk(Grown(s, i), |s.locs|, d)
  {
    var t, n, p := Grown(s, i), |s.locs|, Port(d, |s.locs|);
    assert FiredOk(s, n, d) && FiredOk(s, i, d) && QueueOk(s, i, p) && ReducerOk(s, i, d);
    if d in s.locs[i].reducers {
      var devs := s.locs[i].reducers[d].devs;
      forall x | 0 <= x < |devs|
        ensures devs[x].src < n
      {
        assert DevOk(s, i, d, devs[x]);
      }
      assert n !in Sources(devs);
    }
  }

  lemma GrownSum(s: State, i: nat, j: nat, d: nat)
    requires Settling(s) && i < |s.locs|
    ensures SumOk(Grown(s, i), j, d)
  {
    assert SumOk(s, j, d) && FiredOk(s, j, d);
    if j < |s.locs| && Fired(s, j, d) {
      JoinedSame(s, i, j, d);
    }
  }

  lemma GrownKeeps(s: State, i: nat)
    requires Inv(s) && i < |s.locs|
    ensures Inv(Grown(s, i))
  {
    var t, n := Grown(s, i), |s.locs|;
    GrownTree(s, i);
    forall j: nat, p: Port | j < |t.locs| ensures PortOk(t, j, p) {
      if j < n { assert PortOk(s, j, p) && ReducerOk(s, j, p.count); GrownPort(s, i, j, p); }
        else { NewMember(s, i, p, 0); }
    }
    forall j: nat, d: nat | j < |t.locs| ensures ReducerOk(t, j, d) {
      if j < n { GrownReducer(s, i, j, d); } else { NewMember(s, i, Port(0, 0), d); }
    }
    forall j: nat, p: Port | j < |t.locs| ensures QueueOk(t, j, p) {
      if j < n { assert QueueOk(s, j, p); GrownQueue(s, i, j, p); } else { NewMember(s, i, p, 0); }
    }
    GrownRest(s, i);
    forall k: nat, d: nat | 0 < k < |t.parent| ensures EdgeOk(t, k, d) {
      if k < n { assert EdgeOk(s, k, d); GrownEdge(s, i, k, d); } else { NewEdge(s, i, d); }
    }
    forall j: nat, d: nat ensures SumOk(t, j, d) { GrownSum(s, i, j, d); }
  }

  lemma GrownRest(s: State, i: nat)
    requires Inv(s) && i < |s.locs|
    ensures var t := Grown(s, i);
      && (forall j: nat, d: nat {:trigger FiredOk(t, j, d)} :: FiredOk(t, j, d))
      && (forall m {:trigger MessageOk(t, m)} :: m in t.msgs ==> MessageOk(t, m))
      && ResultsOk(t)
      && (forall d: nat {:trigger ResultOf(t, d)} :: ResultOf(t, d))
      && (forall j: nat, d: nat {:trigger Waits(t, j, d)} :: j < |t.locs| ==> Waits(t, j, d))
  {
    var t := Grown(s, i);
    forall j: nat, d: nat ensures FiredOk(t, j, d) { assert FiredOk(s, j, d); }
    forall m | m in t.msgs ensures MessageOk(t, m) { assert MessageOk(s, m); }
    forall d: nat ensures ResultOf(t, d) { assert ResultOf(s, d); }
    forall j: nat, d: nat | j < |t.locs| ensures Waits(t, j, d) {
      if j < |s.locs| { assert Waits(s, j, d); }
    }
  }

  // ---------------------------------------------------------------- every step

  lemma DeliveryIs(s: State, m: Message)
    requires Wired(s) && Enabled(s, Delivery(m))
    requires m.port in s.locs[m.dest].ports ==> CanTake(s, m) && s.locs[m.dest].ports[m.port] == m.port.count
    ensures var n := Next(s, Delivery(m));
      if m.port !in s.locs[m.dest].ports then n == Queued(s, m)
      else if Full(Taken(s, m).locs[m.dest], m.port.count) then n == Fire(Taken(s, m), m.dest, m.port.count)
      else n == Taken(s, m)
  {
    var n := Next(s, Delivery(m));
    if m.port in s.locs[m.dest].ports && Full(Taken(s, m).locs[m.dest], m.port.count) {
      assert n.locs == Fire(Taken(s, m), m.dest, m.port.count).locs;
    }
  }

  lemma OthersWait(s: State, t: State, i: nat, c: nat)
    requires Inv(s) && |t.locs| == |s.locs|
    requires forall j: nat, d: nat :: j < |s.locs| && (j != i || d != c) ==> (Waits(s, j, d) ==> Waits(t, j, d))
    ensures forall j: nat, d: nat {:trigger Waits(t, j, d)} :: j < |t.locs| && (j != i || d != c) ==> Waits(t, j, d)
  {
    forall j: nat, d: nat | j < |t.locs| && (j != i || d != c)
      ensures Waits(t, j, d)
    {
      assert Waits(s, j, d);
    }
  }

  lemma Settled(t: State, i: nat, c: nat)
    requires Settling(t) && i < |t.locs| && c in t.locs[i].reducers
    requires forall j: nat, d: nat {:trigger Waits(t, j, d)} :: j < |t.locs| && (j != i || d != c) ==> Waits(t, j, d)
    ensures Inv(if Full(t.locs[i], c) then Fire(t, i, c) else t)
  {
    if Full(t.locs[i], c) {
      FireKeeps(t, i, c);
    }
  }

  lemma DeliveryKeeps(s: State, m: Message)
    requires Inv(s) && Wired(s) && Enabled(s, Delivery(m))
    ensures Inv(Next(s, Delivery(m)))
  {
    assert PortOk(s, m.dest, m.port);
    DeliveryIs(s, m);
    if m.port in s.locs[m.dest].ports {
      var t := Taken(s, m);
      TakenSettles(s, m);
      OthersWait(s, t, m.dest, m.port.count);
      Settled(t, m.dest, m.port.count);
    } else {
      QueuedKeeps(s, m);
    }
  }

  lemma ContributionIs(s: State, i: nat)
    requires Wired(s) && i < |s.locs|
    ensures var t, n, c := Opening(s, i), Next(s, Contribution(i)), s.locs[i].count;
      n == if Full(t.locs[i], c) then Fire(t, i, c) else t
  {
    var t, c := Opening(s, i), s.locs[i].count;
    if Full(t.locs[i], c) {
      assert Next(s, Contribution(i)).locs == Fire(t, i, c).locs;
    }
  }

  lemma ContributionKeeps(s: State, i: nat)
    requires Inv(s) && Wired(s) && i < |s.locs|
    ensures Inv(Next(s, Contribution(i)))
  {
    var t, c := Opening(s, i), s.locs[i].count;
    ContributionIs(s, i);
    OpeningSettles(s, i);
    OthersWait(s, t, i, c);
    Settled(t, i, c);
  }

  /** Every contribution, delivery and creation keeps the invariant. */
  lemma StepKeeps(s: State, a: Action)
    requires Inv(s) && Wired(s) && Enabled(s, a)
    ensures Inv(Next(s, a)) && Wired(Next(s, a))
  {
    match a {
      case Contribution(i) => ContributionKeeps(s, i);
      case Delivery(m) => DeliveryKeeps(s, m);
      case CreateChild(i) => GrownKeeps(s, i);
    }
    SettlingWired(Next(s, a));
  }
}
