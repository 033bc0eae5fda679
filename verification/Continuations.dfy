/** Runs without insertions: which messages they handle, and exactly when one of them aborts. */
module Continuations {
  import opened Common
  import opened BinaryTree
  import opened TreeBuilder
  import opened SpanningTree

  // A run of handlers from s.
  ghost predicate Continuation(s: State, states: seq<State>, acts: seq<Action>) {
    Execution(states, acts) && states[0] == s && forall j :: 0 <= j < |acts| ==> acts[j].Receive?
  }

  // It never handles a message that is held back.
  ghost predicate Holds(states: seq<State>, acts: seq<Action>, held: Message -> bool)
    requires Execution(states, acts)
  {
    forall j {:trigger acts[j]} :: 0 <= j < |acts| && acts[j].Receive? ==> !held(states[j].msgs[acts[j].msg])
  }

  // ---------------------------------------------------------------- what one handler can change

  // The messages that make node h register the endpoint.
  function Crowning(h: nat): Message -> bool {
    (k: Message) => k.to == h && (k.Endpoint? || (k.Downstream? && h == 0))
  }

  /** A handler works on one node, adds no element anywhere, and makes the node register the endpoint only
      for a message that is about that. */
  lemma HandlerChanges(s: State, i: nat, t: nat, h: nat)
    requires Enabled(s, Receive(i, t)) && h < |s.nodes|
    ensures var n := Next(s, Receive(i, t));
      && |n.nodes| == |s.nodes| && n.birth == s.birth
      && (n.nodes[h].elements == map[] <==> s.nodes[h].elements == map[])
      && (h != s.msgs[i].to ==> n.nodes[h] == s.nodes[h])
      && (!Crowning(h)(s.msgs[i]) ==> n.nodes[h].endpoint == s.nodes[h].endpoint)
  {
    var n, m := Next(s, Receive(i, t)), s.msgs[i].to;
    var before, after := s.nodes[m].elements, n.nodes[m].elements;
    assert before.Keys == after.Keys;
    assert before == map[] <==> before.Keys == {};
    assert after == map[] <==> after.Keys == {};
  }

  lemma {:induction false} ContinuationInv(s: State, states: seq<State>, acts: seq<Action>, k: nat)
    requires Inv(s) && Continuation(s, states, acts) && k < |states|
    ensures Inv(states[k]) && |states[k].nodes| == |s.nodes| && states[k].birth == s.birth
  {
    if k > 0 {
      ContinuationInv(s, states, acts, k - 1);
      StepKeeps(states[k - 1], acts[k - 1]);
      HandlerChanges(states[k - 1], acts[k - 1].msg, acts[k - 1].pick, 0);
    }
  }

  lemma SameEndpoint(s: State, states: seq<State>, acts: seq<Action>, k: nat, h: nat)
    requires Inv(s) && Continuation(s, states, acts) && Holds(states, acts, Crowning(h)) && k < |acts| && h < |s.nodes|
    ensures |states[k + 1].nodes| == |states[k].nodes| == |s.nodes|
    ensures states[k + 1].nodes[h].endpoint == states[k].nodes[h].endpoint
  {
    ContinuationInv(s, states, acts, k);
    assert !Crowning(h)(states[k].msgs[acts[k].msg]);
    HandlerChanges(states[k], acts[k].msg, acts[k].pick, h);
  }

  /** A node stays unaware of the endpoint as long as the messages that tell it are held back. */
  lemma {:induction false} StaysUnaware(s: State, states: seq<State>, acts: seq<Action>, k: nat, h: nat)
    requires Inv(s) && Continuation(s, states, acts) && Holds(states, acts, Crowning(h)) && k < |states|
    requires h < |s.nodes|
    ensures |states[k].nodes| == |s.nodes| && states[k].nodes[h].endpoint == s.nodes[h].endpoint
  {
    if k > 0 {
      StaysUnaware(s, states, acts, k - 1, h);
      SameEndpoint(s, states, acts, k - 1, h);
    }
  }

  // ---------------------------------------------------------------- handling all that can be

  lemma Prepend(s: State, a: Action, states: seq<State>, acts: seq<Action>, held: Message -> bool)
    requires Enabled(s, a) && a.Receive? && !held(s.msgs[a.msg])
    requires Continuation(Next(s, a), states, acts) && Holds(states, acts, held)
    ensures Continuation(s, [s] + states, [a] + acts) && Holds([s] + states, [a] + acts, held)
  {
    var longer, all := [s] + states, [a] + acts;
    forall j | 0 <= j < |all|
      ensures Enabled(longer[j], all[j]) && longer[j + 1] == Next(longer[j], all[j]) && all[j].Receive?
      ensures !held(longer[j].msgs[all[j].msg])
    {
      if j > 0 {
        assert all[j] == acts[j - 1] && longer[j] == states[j - 1];
      }
    }
  }

  /** Everything that is not held back and does not abort can be handled, to the last message. */
  lemma {:induction false} HandleAll(s: State, held: Message -> bool) returns (states: seq<State>, acts: seq<Action>)
    requires Inv(s)
    ensures Continuation(s, states, acts) && Holds(states, acts, held)
    ensures var end := states[|acts|]; forall i :: 0 <= i < |end.msgs| ==> held(end.msgs[i]) || Aborts(end, i)
    decreases Measure(s)
  {
    if i :| 0 <= i < |s.msgs| && !held(s.msgs[i]) && !Aborts(s, i) {
      HandledUnlessAborts(s, i);
      var t :| Enabled(s, Receive(i, t));
      var a := Receive(i, t);
      StepKeeps(s, a);
      MessagesEnd(s, i, t);
      states, acts := HandleAll(Next(s, a), held);
      Prepend(s, a, states, acts, held);
      states, acts := [s] + states, [a] + acts;
    } else {
      states, acts := [s], [];
    }
  }

  // ---------------------------------------------------------------- exactly when a run aborts

  // No node from m up to node 0 has an element: a request at m climbs all the way.
  predicate Bare(nodes: seq<Local>, m: nat) {
    m < |nodes| && nodes[m].elements == map[] && (m == 0 || Bare(nodes, Parent(m)))
  }

  function Climbing(nodes: seq<Local>): Message -> bool {
    (k: Message) => k.Downstream? && Bare(nodes, k.to)
  }

  // How many elements claim to be the root: by a request that will reach node 0, or registered there.
  function Claims(s: State): nat
    requires |s.nodes| > 0
  {
    Tally(s.msgs, Climbing(s.nodes)) + if s.nodes[0].endpoint.Some? then 1 else 0
  }

  // There is somebody at node 0 to adopt any newcomer, or only one candidate for the root.
  predicate Safe(s: State) {
    |s.nodes| > 0 && (s.nodes[0].elements != map[] || Claims(s) <= 1)
  }

  lemma {:induction false} TallySame(ms: seq<Message>, p: Message -> bool, q: Message -> bool)
    requires forall k :: k in ms ==> p(k) == q(k)
    ensures Tally(ms, p) == Tally(ms, q)
    decreases |ms|
  {
    if ms != [] {
      assert ms[|ms| - 1] in ms;
      TallySame(ms[..|ms| - 1], p, q);
    }
  }

  lemma {:induction false} BareSame(a: seq<Local>, b: seq<Local>, m: nat)
    requires |a| == |b| && forall h :: 0 <= h < |a| ==> (a[h].elements == map[] <==> b[h].elements == map[])
    ensures Bare(a, m) <==> Bare(b, m)
  {
    if 0 < m < |a| {
      BareSame(a, b, Parent(m));
    }
  }

  lemma {:induction false} TallyNone(ms: seq<Message>, p: Message -> bool)
    requires forall k :: k in ms ==> !p(k)
    ensures Tally(ms, p) == 0
    decreases |ms|
  {
    if ms != [] {
      assert ms[|ms| - 1] in ms;
      TallyNone(ms[..|ms| - 1], p);
    }
  }

  // What a handler sends in the place of the message it handles.
  function Sent(s: State, i: nat, t: nat): seq<Message>
    requires Enabled(s, Receive(i, t))
  {
    match s.msgs[i]
    case Endpoint(m, x) => RegEndpoint(m, |s.nodes|, s.nodes[m], x).1
    case Downstream(m, src, x) => ReceiveDownstream(m, |s.nodes|, s.nodes[m], src, x, t).1
    case Upstream(_, _, _, _) => []
  }

  lemma SentReplaces(s: State, i: nat, t: nat)
    requires Enabled(s, Receive(i, t))
    ensures Next(s, Receive(i, t)).msgs == Without(s.msgs, i) + Sent(s, i, t)
  {
  }

  // A request that passes an empty node below node 0.
  lemma PassedOn(s: State, i: nat, t: nat)
    requires Enabled(s, Receive(i, t)) && s.msgs[i].Downstream? && s.msgs[i].to > 0
    requires s.nodes[s.msgs[i].to].elements == map[]
    ensures var p := Climbing(s.nodes); Tally(Sent(s, i, t), p) == if p(s.msgs[i]) then 1 else 0
  {
    var p, out := Climbing(s.nodes), Sent(s, i, t);
    assert out == [out[0]] && p(out[0]) == p(s.msgs[i]);
    assert [out[0]][..0] == [];
  }

  // Nothing else sends a request; only a request for the root is one less.
  lemma NothingClimbs(s: State, i: nat, t: nat)
    requires Enabled(s, Receive(i, t)) && s.nodes[0].elements == map[]
    requires !s.msgs[i].Downstream? || s.msgs[i].to == 0 || s.nodes[s.msgs[i].to].elements != map[]
    ensures Tally(Sent(s, i, t), Climbing(s.nodes)) == 0
    ensures Climbing(s.nodes)(s.msgs[i]) <==> s.msgs[i].Downstream? && s.msgs[i].to == 0
  {
    forall k | k in Sent(s, i, t)
      ensures !Climbing(s.nodes)(k)
    {
    }
    TallyNone(Sent(s, i, t), Climbing(s.nodes));
  }

  lemma SentClimbs(s: State, i: nat, t: nat)
    requires Inv(s) && Enabled(s, Receive(i, t)) && s.nodes[0].elements == map[]
    ensures var p, n := Climbing(s.nodes), Next(s, Receive(i, t));
      Tally(Sent(s, i, t), p) + (if n.nodes[0].endpoint.Some? then 1 else 0)
        == (if p(s.msgs[i]) then 1 else 0) + if s.nodes[0].endpoint.Some? then 1 else 0
  {
    var m := s.msgs[i].to;
    assert s.msgs[i].Endpoint? ==> s.nodes[m].endpoint == None by {
      HandledUnlessAborts(s, i);
    }
    assert s.msgs[i].Endpoint? ==> m > 0 by {
      if s.msgs[i].Endpoint? {
        TallyMember(s.msgs, FloodTo(m), i);
      }
    }
    HandlerChanges(s, i, t, 0);
    if s.msgs[i].Downstream? && s.nodes[m].elements == map[] && m > 0 {
      PassedOn(s, i, t);
    } else {
      NothingClimbs(s, i, t);
    }
  }

  /** The number of claims does not change while node 0 is empty. */
  lemma ClaimsKept(s: State, i: nat, t: nat)
    requires Inv(s) && Enabled(s, Receive(i, t)) && s.nodes[0].elements == map[]
    ensures |Next(s, Receive(i, t)).nodes| > 0 && Claims(Next(s, Receive(i, t))) == Claims(s)
  {
    var n := Next(s, Receive(i, t));
    SentReplaces(s, i, t);
    HandlerChanges(s, i, t, 0);
    forall h: nat | h < |s.nodes|
      ensures n.nodes[h].elements == map[] <==> s.nodes[h].elements == map[]
    {
      HandlerChanges(s, i, t, h);
    }
    forall k | k in n.msgs
      ensures Climbing(n.nodes)(k) == Climbing(s.nodes)(k)
    {
      BareSame(n.nodes, s.nodes, k.to);
    }
    TallySame(n.msgs, Climbing(n.nodes), Climbing(s.nodes));
    TallyReplace(s.msgs, i, Sent(s, i, t), Climbing(s.nodes));
    SentClimbs(s, i, t);
  }

  lemma SafeKept(s: State, i: nat, t: nat)
    requires Inv(s) && Enabled(s, Receive(i, t))
    ensures Safe(Next(s, Receive(i, t))) <==> Safe(s)
  {
    HandlerChanges(s, i, t, 0);
    if s.nodes[0].elements == map[] {
      ClaimsKept(s, i, t);
    }
  }

  lemma {:induction false} SafeAlong(s: State, states: seq<State>, acts: seq<Action>, k: nat)
    requires Inv(s) && Continuation(s, states, acts) && k < |states|
    ensures Safe(states[k]) <==> Safe(s)
  {
    if k > 0 {
      SafeAlong(s, states, acts, k - 1);
      ContinuationInv(s, states, acts, k - 1);
      SafeKept(states[k - 1], acts[k - 1].msg, acts[k - 1].pick);
    }
  }

  lemma SafeNeverAborts(s: State, i: nat)
    requires Safe(s) && i < |s.msgs|
    ensures !Aborts(s, i)
  {
    if Aborts(s, i) {
      TallyMember(s.msgs, Climbing(s.nodes), i);
    }
  }

  // The run arrives at a message that aborts.
  ghost predicate EndsInAbort(s: State, states: seq<State>, acts: seq<Action>) {
    Continuation(s, states, acts) && exists i :: 0 <= i < |states[|acts|].msgs| && Aborts(states[|acts|], i)
  }

  /** Once insertions have stopped, some run of handlers aborts if and only if node 0 is empty and two
      elements claim to be the root. */
  lemma AbortsIffTwoClaims(s: State)
    requires Inv(s)
    ensures (exists states, acts :: EndsInAbort(s, states, acts)) <==> !Safe(s)
  {
    if states: seq<State>, acts: seq<Action> :| EndsInAbort(s, states, acts) {
      var i :| 0 <= i < |states[|acts|].msgs| && Aborts(states[|acts|], i);
      SafeAlong(s, states, acts, |acts|);
      if Safe(s) {
        SafeNeverAborts(states[|acts|], i);
      }
    }
    if !Safe(s) {
      var states, acts := HandleAll(s, k => false);
      SafeAlong(s, states, acts, |acts|);
      ContinuationInv(s, states, acts, |acts|);
      var end := states[|acts|];
      assert end.msgs != [];
      assert Aborts(end, 0);
      assert EndsInAbort(s, states, acts);
    }
  }

  // ---------------------------------------------------------------- a run that ends in an abort

  // Elements 7 and 8 are inserted on the child nodes of an empty node 0, and both ask it.
  function TwoClaimsRun(): seq<State> {
    var idle := Local(0, None, map[]);
    var asking7, asking8 := Local(1, None, map[7 := FRESH]), Local(1, None, map[8 := FRESH]);
    [State([idle, idle, idle], [], map[], 0, map[]),
     State([idle, asking7, idle], [Downstream(0, 1, 7)], map[7 := Birth(1, 0)], 1, map[]),
     State([idle, asking7, asking8], [Downstream(0, 1, 7), Downstream(0, 2, 8)],
           map[7 := Birth(1, 0), 8 := Birth(2, 1)], 2, map[])]
  }

  const TWO_CLAIMS_ACTS := [Insert(1, 7, 0), Insert(2, 8, 0)]

  lemma TwoClaimsStep(i: nat)
    requires i < 2
    ensures Enabled(TwoClaimsRun()[i], TWO_CLAIMS_ACTS[i])
    ensures TwoClaimsRun()[i + 1] == Next(TwoClaimsRun()[i], TWO_CLAIMS_ACTS[i])
  {
    var n := Next(TwoClaimsRun()[i], TWO_CLAIMS_ACTS[i]);
    assert n.nodes == TwoClaimsRun()[i + 1].nodes;
  }

  lemma TwoClaimsExecution()
    ensures Execution(TwoClaimsRun(), TWO_CLAIMS_ACTS) && Initial(TwoClaimsRun()[0])
  {
    forall i | 0 <= i < 2
      ensures Enabled(TwoClaimsRun()[i], TWO_CLAIMS_ACTS[i])
      ensures TwoClaimsRun()[i + 1] == Next(TwoClaimsRun()[i], TWO_CLAIMS_ACTS[i])
    {
      TwoClaimsStep(i);
    }
  }

  lemma TwoClaimsUnsafe()
    ensures !Safe(TwoClaimsRun()[2])
  {
    var end := TwoClaimsRun()[2];
    assert end.msgs[..1][..0] == [] && end.msgs[..1] == [end.msgs[0]];
    assert Claims(end) == 2;
  }

  /** A reachable state with two claims: the next two messages are handled at node 0, and the second one
      aborts there. */
  lemma TwoClaimsAbort()
    ensures Execution(TwoClaimsRun(), TWO_CLAIMS_ACTS) && Initial(TwoClaimsRun()[0])
    ensures !Safe(TwoClaimsRun()[2])
    ensures exists states, acts :: EndsInAbort(TwoClaimsRun()[2], states, acts)
  {
    TwoClaimsExecution();
    TwoClaimsUnsafe();
    ExecutionInv(TwoClaimsRun(), TWO_CLAIMS_ACTS, 2);
    AbortsIffTwoClaims(TwoClaimsRun()[2]);
  }
}
