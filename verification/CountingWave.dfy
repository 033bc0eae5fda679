/** When the counting wave that detects quiescence can be trusted, once insertions have stopped: exactly
    if every node with two child nodes knows the endpoint already, or nothing is in flight. */
module CountingWave {
  import opened Common
  import opened BinaryTree
  import opened TreeBuilder
  import opened SpanningTree
  import opened Continuations

  // ---------------------------------------------------------------- counters that only fall

  // Every node that passes the announcement on to two others has heard of the endpoint.
  predicate Flooded(s: State) {
    forall m :: 0 <= m < |s.nodes| && 2 * m + 2 < |s.nodes| ==> s.nodes[m].endpoint.Some?
  }

  // Handling raises the counter of a node only where two announcements replace one message.
  lemma CountChanges(s: State, i: nat, t: nat)
    requires Enabled(s, Receive(i, t))
    ensures var n, m := Next(s, Receive(i, t)), s.msgs[i].to;
      && m < |n.nodes| == |s.nodes|
      && (n.nodes[m].count > s.nodes[m].count ==> Crowning(m)(s.msgs[i]) && 2 * m + 2 < |s.nodes|)
    ensures s.msgs[i].Downstream? && s.msgs[i].to == 0 && s.nodes[0].endpoint.Some? ==>
      Next(s, Receive(i, t)).nodes[0].count == s.nodes[0].count
  {
  }

  /** Once the nodes with two child nodes know the endpoint, a handler can only lower a counter. */
  lemma CountersFall(s: State, i: nat, t: nat, m: nat)
    requires Inv(s) && Flooded(s) && Enabled(s, Receive(i, t)) && m < |s.nodes|
    ensures |Next(s, Receive(i, t)).nodes| == |s.nodes|
    ensures Next(s, Receive(i, t)).nodes[m].count <= s.nodes[m].count
  {
    HandledUnlessAborts(s, i);
    HandlerChanges(s, i, t, m);
    CountChanges(s, i, t);
  }

  lemma StaysFlooded(s: State, i: nat, t: nat)
    requires Inv(s) && Flooded(s) && Enabled(s, Receive(i, t))
    ensures Flooded(Next(s, Receive(i, t)))
  {
    var n := Next(s, Receive(i, t));
    HandlerChanges(s, i, t, 0);
    forall m: nat | m < |n.nodes| && 2 * m + 2 < |n.nodes|
      ensures n.nodes[m].endpoint.Some?
    {
      HandlerChanges(s, i, t, m);
    }
  }

  lemma {:induction false} FloodedAlong(s: State, states: seq<State>, acts: seq<Action>, k: nat)
    requires Inv(s) && Flooded(s) && Continuation(s, states, acts) && k < |states|
    ensures Flooded(states[k])
  {
    if k > 0 {
      FloodedAlong(s, states, acts, k - 1);
      ContinuationInv(s, states, acts, k - 1);
      StaysFlooded(states[k - 1], acts[k - 1].msg, acts[k - 1].pick);
    }
  }

  lemma FallsNext(s: State, states: seq<State>, acts: seq<Action>, k: nat, m: nat)
    requires Inv(s) && Flooded(s) && Continuation(s, states, acts) && k < |acts| && m < |s.nodes|
    ensures |states[k + 1].nodes| == |states[k].nodes| == |s.nodes|
    ensures states[k + 1].nodes[m].count <= states[k].nodes[m].count
  {
    FloodedAlong(s, states, acts, k);
    ContinuationInv(s, states, acts, k);
    CountersFall(states[k], acts[k].msg, acts[k].pick, m);
  }

  lemma {:induction false} FallAlong(states: seq<State>, i: nat, k: nat, m: nat)
    requires i <= k < |states| && forall j :: i <= j <= k ==> m < |states[j].nodes|
    requires forall j :: i <= j < k ==> states[j + 1].nodes[m].count <= states[j].nodes[m].count
    ensures states[k].nodes[m].count <= states[i].nodes[m].count
    decreases k
  {
    if i < k {
      FallAlong(states, i, k - 1, m);
      assert states[k - 1 + 1].nodes[m].count <= states[k - 1].nodes[m].count;
    }
  }

  lemma CountersFallAlong(s: State, states: seq<State>, acts: seq<Action>, i: nat, k: nat, m: nat)
    requires Inv(s) && Flooded(s) && Continuation(s, states, acts) && i <= k < |states| && m < |s.nodes|
    ensures |states[i].nodes| == |states[k].nodes| == |s.nodes|
    ensures states[k].nodes[m].count <= states[i].nodes[m].count
  {
    forall j | 0 <= j < |states|
      ensures |states[j].nodes| == |s.nodes|
      ensures j < |acts| ==> states[j + 1].nodes[m].count <= states[j].nodes[m].count
    {
      ContinuationInv(s, states, acts, j);
      if j < |acts| {
        FallsNext(s, states, acts, j, m);
      }
    }
    FallAlong(states, i, k, m);
  }

  // The counters of all nodes, each read at its own time.
  function SumRead(states: seq<State>, when: seq<nat>): int
    requires forall m :: 0 <= m < |when| ==> when[m] < |states| && m < |states[when[m]].nodes|
  {
    if when == [] then 0
    else
      var m := |when| - 1;
      SumRead(states, when[..m]) + states[when[m]].nodes[m].count
  }

  lemma {:induction false} SumReadBounds(states: seq<State>, when: seq<nat>, nodes: seq<Local>)
    requires forall m :: 0 <= m < |when| ==> when[m] < |states| && m < |states[when[m]].nodes|
    requires |nodes| == |when|
    requires forall m :: 0 <= m < |when| ==> nodes[m].count <= states[when[m]].nodes[m].count
    ensures SumCounts(nodes) <= SumRead(states, when)
    decreases |when|
  {
    if when != [] {
      var n := |when| - 1;
      SumReadBounds(states, when[..n], nodes[..n]);
    }
  }

  // One reading of each node during a run.
  predicate Readings(states: seq<State>, when: seq<nat>, n: nat) {
    |when| == n && forall m :: 0 <= m < n ==> when[m] < |states| && m < |states[when[m]].nodes|
  }

  /** The counting wave is sound from then on: if insertions have stopped and every node with two child
      nodes knows the endpoint, counters read at any different times that sum to zero prove that nothing
      is in flight after the last reading. */
  lemma StaggeredCounting(s: State, states: seq<State>, acts: seq<Action>, when: seq<nat>)
    requires Inv(s) && Flooded(s) && Continuation(s, states, acts) && Readings(states, when, |s.nodes|)
    ensures SumRead(states, when) == 0 ==> states[|acts|].msgs == []
  {
    var end := states[|acts|];
    ContinuationInv(s, states, acts, |acts|);
    forall m | 0 <= m < |when|
      ensures end.nodes[m].count <= states[when[m]].nodes[m].count
    {
      CountersFallAlong(s, states, acts, when[m], |acts|, m);
    }
    SumReadBounds(states, when, end.nodes);
  }

  // ---------------------------------------------------------------- how to fool it before

  // Only announcements below node h are in flight.
  predicate Below(s: State, h: nat) {
    forall k :: k in s.msgs ==> k.Endpoint? && k.to > h
  }

  lemma BelowStep(s: State, i: nat, t: nat, h: nat)
    requires Enabled(s, Receive(i, t)) && Below(s, h) && h < |s.nodes|
    ensures Below(Next(s, Receive(i, t)), h) && Next(s, Receive(i, t)).nodes[h] == s.nodes[h]
  {
    assert s.msgs[i] in s.msgs;
    HandlerChanges(s, i, t, h);
    SentReplaces(s, i, t);
    WithoutSubset(s.msgs, i);
    assert forall k :: k in Sent(s, i, t) ==> k.Endpoint? && k.to > s.msgs[i].to;
  }

  /** The rest of the flood does not touch the node it comes from. */
  lemma {:induction false} BelowAlong(s: State, states: seq<State>, acts: seq<Action>, k: nat, h: nat)
    requires Inv(s) && Continuation(s, states, acts) && Below(s, h) && h < |s.nodes| && k < |states|
    ensures Below(states[k], h) && h < |states[k].nodes| && states[k].nodes[h] == s.nodes[h]
  {
    if k > 0 {
      BelowAlong(s, states, acts, k - 1, h);
      ContinuationInv(s, states, acts, k - 1);
      BelowStep(states[k - 1], acts[k - 1].msg, acts[k - 1].pick, h);
    }
  }

  lemma {:induction false} TallyAll(ms: seq<Message>, p: Message -> bool)
    requires forall k :: k in ms ==> p(k)
    ensures Tally(ms, p) == |ms|
    decreases |ms|
  {
    if ms != [] {
      assert ms[|ms| - 1] in ms;
      TallyAll(ms[..|ms| - 1], p);
    }
  }

  /** An element that nobody lists on node 0 is the endpoint: so node 0 is empty as long as it knows none. */
  lemma {:induction false} NodeZeroKnows(s: State, x: nat)
    requires Inv(s) && x in s.nodes[0].elements
    ensures s.nodes[0].endpoint.Some?
    decreases s.birth[x].time
  {
    var v := ViewOf(s);
    if x in v.link {
      assert v.Before(v.link[x], x);
      if Above(v.birth[v.link[x]].node, 0) {
        AboveIsSmaller(v.birth[v.link[x]].node, 0);
      }
      NodeZeroKnows(s, v.link[x]);
    } else if v.Waits(x) {
      assert Tally(v.msgs, About(x)) == 1;
      NoRequestFromZero(s, x);
    }
  }

  lemma NoRequestFromZero(s: State, x: nat)
    requires Inv(s) && x in s.nodes[0].elements && x !in s.link
    ensures Tally(s.msgs, About(x)) == 0
  {
    forall k | k in s.msgs
      ensures !About(x)(k)
    {
      assert ViewOf(s).Meaningful(k);
      if k.Downstream? && k.idx == x {
        AboveIsSmaller(k.to, 0);
      }
    }
    TallyNone(s.msgs, About(x));
  }

  // All that is left is what makes h register, and that is one message.
  lemma OneCrown(s: State, h: nat)
    requires Inv(s) && Safe(s) && h < |s.nodes| && s.nodes[h].endpoint == None && s.birth != map[]
    requires forall i :: 0 <= i < |s.msgs| ==> Crowning(h)(s.msgs[i])
    ensures |s.msgs| == 1
  {
    var v := ViewOf(s);
    if s.msgs == [] {
      var x :| x in s.birth;
      QuiescentTree(s, x);
    }
    if h > 0 {
      TallyAll(s.msgs, FloodTo(h));
    } else {
      OneCrownAtZero(s);
    }
  }

  lemma OneCrownAtZero(s: State)
    requires Inv(s) && Safe(s) && s.nodes[0].endpoint == None
    requires forall i :: 0 <= i < |s.msgs| ==> Crowning(0)(s.msgs[i])
    ensures |s.msgs| <= 1
  {
    EmptyWhileUnaware(s);
    TallyZero(s.msgs, FloodTo(0));
    TallyAll(s.msgs, Climbing(s.nodes));
  }

  lemma {:induction false} TallyZero(ms: seq<Message>, p: Message -> bool)
    requires Tally(ms, p) == 0
    ensures forall k :: k in ms ==> !p(k)
    decreases |ms|
  {
    if ms != [] {
      TallyZero(ms[..|ms| - 1], p);
      assert ms == ms[..|ms| - 1] + [ms[|ms| - 1]];
    }
  }

  // Handle everything but what makes h register.
  lemma Isolate(s: State, h: nat) returns (states: seq<State>, acts: seq<Action>)
    requires Inv(s) && Safe(s) && s.birth != map[] && h < |s.nodes| && s.nodes[h].endpoint == None
    ensures Continuation(s, states, acts) && Holds(states, acts, Crowning(h))
    ensures var end := states[|acts|];
      && Inv(end) && Safe(end) && |end.nodes| == |s.nodes| && end.birth == s.birth && end.nodes[h].endpoint == None
      && |end.msgs| == 1 && Crowning(h)(end.msgs[0])
  {
    states, acts := HandleAll(s, Crowning(h));
    var end := states[|acts|];
    ContinuationInv(s, states, acts, |acts|);
    SafeAlong(s, states, acts, |acts|);
    StaysUnaware(s, states, acts, |acts|, h);
    forall i | 0 <= i < |end.msgs|
      ensures Crowning(h)(end.msgs[i])
    {
      SafeNeverAborts(end, i);
    }
    OneCrown(end, h);
  }

  // Then h registers: its counter rises by one, and two announcements are in flight below it.
  lemma Registers(s: State, h: nat) returns (a: Action)
    requires Inv(s) && Safe(s) && 2 * h + 2 < |s.nodes| && s.nodes[h].endpoint == None
    requires |s.msgs| == 1 && Crowning(h)(s.msgs[0])
    ensures Enabled(s, a) && a.Receive?
    ensures var n := Next(s, a);
      && |n.nodes| == |s.nodes| && n.birth == s.birth && Inv(n) && Safe(n) && Below(n, h)
      && n.nodes[h].count == s.nodes[h].count + 1 && n.nodes[2 * h + 2].endpoint == None
  {
    SafeNeverAborts(s, 0);
    HandledUnlessAborts(s, 0);
    var t :| Enabled(s, Receive(0, t));
    a := Receive(0, t);
    assert Inv(Next(s, a)) && Safe(Next(s, a)) by {
      StepKeeps(s, a);
      SafeKept(s, 0, t);
    }
    RegistersAs(s, h, t);
  }

  lemma RegistersAs(s: State, h: nat, t: nat)
    requires Inv(s) && Enabled(s, Receive(0, t))
    requires 2 * h + 2 < |s.nodes| && s.nodes[h].endpoint == None && |s.msgs| == 1 && Crowning(h)(s.msgs[0])
    ensures var n := Next(s, Receive(0, t));
      && |n.nodes| == |s.nodes| && n.birth == s.birth && Below(n, h)
      && n.nodes[h].count == s.nodes[h].count + 1 && n.nodes[2 * h + 2].endpoint == None
  {
    EmptyWhileUnaware(s);
    Announces(s, h, t);
    ChildUnaware(s, h);
    HandlerChanges(s, 0, t, 2 * h + 2);
  }

  lemma ChildUnaware(s: State, h: nat)
    requires Inv(s) && 2 * h + 2 < |s.nodes| && s.nodes[h].endpoint == None
    ensures s.nodes[2 * h + 2].endpoint == None
  {
    var v := ViewOf(s);
    assert Parent(2 * h + 2) == h && v.ends[h] == None;
    assert v.ends[2 * h + 2] == s.nodes[2 * h + 2].endpoint;
  }

  lemma EmptyWhileUnaware(s: State)
    requires Inv(s)
    ensures s.nodes[0].endpoint == None ==> s.nodes[0].elements == map[]
  {
    if x :| x in s.nodes[0].elements {
      NodeZeroKnows(s, x);
    }
  }

  lemma Announces(s: State, h: nat, t: nat)
    requires Enabled(s, Receive(0, t)) && 2 * h + 2 < |s.nodes| && |s.msgs| == 1 && Crowning(h)(s.msgs[0])
    requires s.msgs[0].Downstream? ==> s.nodes[0].elements == map[]
    ensures var n, x := Next(s, Receive(0, t)), s.msgs[0].idx;
      && n.msgs == [Endpoint(2 * h + 1, x), Endpoint(2 * h + 2, x)] && h < |n.nodes| == |s.nodes| && n.birth == s.birth
      && n.nodes[h].count == s.nodes[h].count + 1
  {
    var x := s.msgs[0].idx;
    SentReplaces(s, 0, t);
    assert Without(s.msgs, 0) == [];
    assert Leaves(h, |s.nodes|) == [2 * h + 1, 2 * h + 2];
    assert Announce(Leaves(h, |s.nodes|), x) == [Endpoint(2 * h + 1, x), Endpoint(2 * h + 2, x)];
  }

  // ---------------------------------------------------------------- the run that fools it

  // Two runs, the second from where a handler leads after the first.
  lemma Concatenate(s: State, a: seq<State>, x: seq<Action>, act: Action, b: seq<State>, y: seq<Action>)
    requires Continuation(s, a, x) && Enabled(a[|x|], act) && act.Receive? && Continuation(Next(a[|x|], act), b, y)
    ensures Continuation(s, a + b, x + [act] + y) && (a + b)[|x + [act] + y|] == b[|y|]
  {
    var states, acts := a + b, x + [act] + y;
    forall j | 0 <= j < |acts|
      ensures Enabled(states[j], acts[j]) && states[j + 1] == Next(states[j], acts[j]) && acts[j].Receive?
    {
      if j < |x| {
        assert acts[j] == x[j] && states[j] == a[j] && states[j + 1] == a[j + 1];
      } else if j > |x| {
        assert acts[j] == y[j - |x| - 1] && states[j] == b[j - |x| - 1];
      }
    }
  }

  // Read node h at time i, all others at time k.
  function Reading(n: nat, h: nat, i: nat, k: nat): seq<nat> {
    seq(n, m => if m == h then i else k)
  }

  lemma {:induction false} SumReading(states: seq<State>, n: nat, h: nat, i: nat, k: nat)
    requires i < |states| && k < |states| && n <= |states[k].nodes| && (h < n ==> h < |states[i].nodes|)
    ensures Readings(states, Reading(n, h, i, k), n)
    ensures SumRead(states, Reading(n, h, i, k))
      == SumCounts(states[k].nodes[..n]) + if h < n then states[i].nodes[h].count - states[k].nodes[h].count else 0
  {
    if n > 0 {
      SumReading(states, n - 1, h, i, k);
      assert Reading(n, h, i, k)[..n - 1] == Reading(n - 1, h, i, k);
      assert states[k].nodes[..n][..n - 1] == states[k].nodes[..n - 1];
    }
  }

  // A node read one message too early makes up for the message in flight.
  lemma ReadBefore(a: seq<State>, b: seq<State>, n: nat, h: nat)
    requires a != [] && b != [] && h < n == |a[|a| - 1].nodes| == |b[|b| - 1].nodes|
    requires SumCounts(b[|b| - 1].nodes) == 1 && b[|b| - 1].nodes[h].count == a[|a| - 1].nodes[h].count + 1
    ensures Readings(a + b, Reading(n, h, |a| - 1, |a| + |b| - 1), n)
    ensures SumRead(a + b, Reading(n, h, |a| - 1, |a| + |b| - 1)) == 0
  {
    var states, i, k := a + b, |a| - 1, |a| + |b| - 1;
    assert states[i] == a[i] && states[k] == b[|b| - 1];
    SumReading(states, n, h, i, k);
    assert states[k].nodes[..n] == states[k].nodes;
  }

  // h is read before it registers, all others at the end: the rise of its counter hides a message.
  lemma HidesOne(s: State, a: seq<State>, x: seq<Action>, act: Action, b: seq<State>, y: seq<Action>, h: nat)
    requires Continuation(s, a, x) && Enabled(a[|x|], act) && act.Receive? && Continuation(Next(a[|x|], act), b, y)
    requires h < |s.nodes| == |a[|x|].nodes| == |b[|y|].nodes| && SumCounts(b[|y|].nodes) == 1
    requires b[|y|].nodes[h].count == a[|x|].nodes[h].count + 1
    ensures var states, acts, when := a + b, x + [act] + y, Reading(|s.nodes|, h, |x|, |x| + |y| + 1);
      Continuation(s, states, acts) && Readings(states, when, |s.nodes|) && SumRead(states, when) == 0
        && states[|acts|] == b[|y|]
  {
    ReadBefore(a, b, |s.nodes|, h);
    Concatenate(s, a, x, act, b, y);
  }

  // Up to the moment when h has registered.
  lemma FirstPart(s: State, h: nat) returns (a: seq<State>, x: seq<Action>, act: Action)
    requires Inv(s) && Safe(s) && s.birth != map[] && 2 * h + 2 < |s.nodes| && s.nodes[h].endpoint == None
    ensures Continuation(s, a, x) && Enabled(a[|x|], act) && act.Receive? && |a[|x|].nodes| == |s.nodes|
    ensures var after := Next(a[|x|], act);
      && Inv(after) && Safe(after) && after.birth != map[] && Below(after, h) && |after.nodes| == |s.nodes|
      && after.nodes[h].count == a[|x|].nodes[h].count + 1 && after.nodes[2 * h + 2].endpoint == None
  {
    a, x := Isolate(s, h);
    act := Registers(a[|x|], h);
  }

  // From there to the moment when one announcement is left.
  lemma SecondPart(s: State, h: nat) returns (b: seq<State>, y: seq<Action>)
    requires Inv(s) && Safe(s) && s.birth != map[] && Below(s, h) && 2 * h + 2 < |s.nodes|
    requires s.nodes[2 * h + 2].endpoint == None
    ensures Continuation(s, b, y) && |b[|y|].nodes| == |s.nodes| && SumCounts(b[|y|].nodes) == 1 == |b[|y|].msgs|
    ensures b[|y|].nodes[h].count == s.nodes[h].count
  {
    b, y := Isolate(s, 2 * h + 2);
    BelowAlong(s, b, y, |y|, h);
  }

  /** While insertions have stopped but some node with two child nodes does not know the endpoint, and
      messages are in flight: let that node be read, then let it register, let all of the flood through
      but for one announcement, and read all other nodes. The readings sum to zero. */
  lemma Fooled(s: State, h: nat) returns (states: seq<State>, acts: seq<Action>, when: seq<nat>)
    requires Inv(s) && Safe(s) && s.msgs != [] && 2 * h + 2 < |s.nodes| && s.nodes[h].endpoint == None
    ensures Continuation(s, states, acts) && Readings(states, when, |s.nodes|)
    ensures SumRead(states, when) == 0 && states[|acts|].msgs != []
  {
    SomeoneIsThere(s);
    var a, x, act := FirstPart(s, h);
    var b, y := SecondPart(Next(a[|x|], act), h);
    HidesOne(s, a, x, act, b, y, h);
    states, acts, when := a + b, x + [act] + y, Reading(|s.nodes|, h, |x|, |x| + |y| + 1);
  }

  lemma SomeoneIsThere(s: State)
    requires Inv(s) && s.msgs != []
    ensures s.birth != map[]
  {
    assert s.msgs[0] in s.msgs && ViewOf(s).Meaningful(s.msgs[0]);
  }

  // ---------------------------------------------------------------- exactly when it can be trusted

  // Whatever the handlers do from here and whenever the nodes are read: a sum of zero means quiescence.
  ghost predicate Trusted(s: State) {
    forall states: seq<State>, acts: seq<Action>, when ::
      Continuation(s, states, acts) && Readings(states, when, |s.nodes|) && SumRead(states, when) == 0 ==>
        states[|acts|].msgs == []
  }

  lemma NothingHappens(s: State, states: seq<State>, acts: seq<Action>)
    requires Continuation(s, states, acts)
    ensures acts == [] || s.msgs != []
  {
    if acts != [] {
      assert Enabled(states[0], acts[0]);
    }
  }

  /** The counting wave can be trusted exactly if every node with two child nodes knows the endpoint, or
      nothing is in flight anyway; so always on one or two nodes. */
  lemma TrustedIffFlooded(s: State)
    requires Inv(s) && Safe(s)
    ensures Trusted(s) <==> Flooded(s) || s.msgs == []
  {
    if Flooded(s) || s.msgs == [] {
      forall states: seq<State>, acts: seq<Action>, when: seq<nat> |
        Continuation(s, states, acts) && Readings(states, when, |s.nodes|) && SumRead(states, when) == 0
        ensures states[|acts|].msgs == []
      {
        if Flooded(s) {
          StaggeredCounting(s, states, acts, when);
        } else {
          NothingHappens(s, states, acts);
        }
      }
    } else {
      var h :| 0 <= h < |s.nodes| && 2 * h + 2 < |s.nodes| && s.nodes[h].endpoint.None?;
      var states, acts, when := Fooled(s, h);
    }
  }

  /** So for every state of every run, once insertions have stopped. */
  lemma TrustedAlongRuns(states: seq<State>, acts: seq<Action>, k: nat)
    requires Execution(states, acts) && Initial(states[0]) && k < |states| && Safe(states[k])
    ensures Trusted(states[k]) <==> Flooded(states[k]) || states[k].msgs == []
  {
    ExecutionInv(states, acts, k);
    TrustedIffFlooded(states[k]);
  }

  // ---------------------------------------------------------------- a run that fools the wave

  // A run on five nodes: element 7 is inserted on node 0, and the announcement reaches nodes 2,
  // 1 and 3, but not yet node 4.
  function FloodRun(): seq<State> {
    var idle, told := Local(0, None, map[]), Local(-1, Some(7), map[]);
    var root := Local(2, Some(7), map[7 := Assoc([], true, [])]);
    var birth := map[7 := Birth(0, 0)];
    [State([idle, idle, idle, idle, idle], [], map[], 0, map[]),
     State([root, idle, idle, idle, idle], [Endpoint(1, 7), Endpoint(2, 7)], birth, 1, map[]),
     State([root, idle, told, idle, idle], [Endpoint(1, 7)], birth, 1, map[]),
     State([root, told.(count := 1), told, idle, idle], [Endpoint(3, 7), Endpoint(4, 7)], birth, 1, map[]),
     State([root, told.(count := 1), told, told, idle], [Endpoint(4, 7)], birth, 1, map[])]
  }

  const FLOOD_ACTS := [Insert(0, 7, 0), Receive(1, 0), Receive(0, 0), Receive(0, 0)]

  lemma FloodStep(i: nat)
    requires i < 4
    ensures Enabled(FloodRun()[i], FLOOD_ACTS[i]) && FloodRun()[i + 1] == Next(FloodRun()[i], FLOOD_ACTS[i])
  {
    var s, n := FloodRun()[i], Next(FloodRun()[i], FLOOD_ACTS[i]);
    var m := [0, 2, 1, 3][i];
    assert Leaves(m, 5) == [[1, 2], [], [3, 4], []][i];
    assert Announce(Leaves(m, 5), 7) == [[Endpoint(1, 7), Endpoint(2, 7)], [], [Endpoint(3, 7), Endpoint(4, 7)], []][i];
    assert n.nodes == FloodRun()[i + 1].nodes;
    assert n.msgs == FloodRun()[i + 1].msgs;
  }

  lemma FloodExecution()
    ensures Execution(FloodRun(), FLOOD_ACTS) && Initial(FloodRun()[0])
  {
    forall i | 0 <= i < 4
      ensures Enabled(FloodRun()[i], FLOOD_ACTS[i]) && FloodRun()[i + 1] == Next(FloodRun()[i], FLOOD_ACTS[i])
    {
      FloodStep(i);
    }
  }

  // Node 1 is read in state 1, all others in state 4.
  lemma FloodReadings()
    requires SumCounts(FloodRun()[4].nodes) == 1
    ensures Readings(FloodRun(), [4, 1, 4, 4, 4], 5) && SumRead(FloodRun(), [4, 1, 4, 4, 4]) == 0
  {
    SumReading(FloodRun(), 5, 1, 1, 4);
    assert Reading(5, 1, 1, 4) == [4, 1, 4, 4, 4];
    assert FloodRun()[4].nodes[..5] == FloodRun()[4].nodes;
  }

  /** Before that the wave can be fooled: with insertions stopped but the flood under way, node 1
      is read before the announcement raises its counter, the others at the end; the readings sum
      to zero while an announcement is still in flight. */
  lemma FloodFoolsCounting()
    ensures Execution(FloodRun(), FLOOD_ACTS) && Initial(FloodRun()[0])
    ensures forall j :: 1 <= j < |FLOOD_ACTS| ==> FLOOD_ACTS[j].Receive?
    ensures Readings(FloodRun(), [4, 1, 4, 4, 4], 5) && SumRead(FloodRun(), [4, 1, 4, 4, 4]) == 0
    ensures FloodRun()[4].msgs != []
  {
    FloodExecution();
    ExecutionInv(FloodRun(), FLOOD_ACTS, 4);
    FloodReadings();
  }
}
