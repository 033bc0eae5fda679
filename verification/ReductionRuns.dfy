/** Reductions are exact: what holds over whole runs, for any tree, any pace of contributions, any
    order of delivery, and new children at any time. */
module ReductionRuns {
  import opened Common
  import opened Reduction
  import opened ReductionSteps
  import BinaryTree
  import Sections

  // ---------------------------------------------------------------- runs

  // Nobody has contributed, nothing is on its way.
  ghost predicate Initial(s: State) {
    && TreeOk(s) && s.msgs == multiset{} && s.results == [] && s.sums == map[]
    && forall i {:trigger s.locs[i]} :: 0 <= i < |s.locs| ==>
         s.locs[i].count == s.seed[i] && s.locs[i].ports == map[] && s.locs[i].queue == map[]
           && s.locs[i].reducers == map[]
  }

  ghost predicate Execution(states: seq<State>, acts: seq<Action>) {
    && |states| == |acts| + 1
    && forall i :: 0 <= i < |acts| ==>
         Wired(states[i]) && Enabled(states[i], acts[i]) && states[i + 1] == Next(states[i], acts[i])
  }

  lemma InitialInv(s: State)
    requires Initial(s)
    ensures Inv(s)
  {
    forall i: nat, p: Port | i < |s.locs| ensures PortOk(s, i, p) { }
    forall i: nat, c: nat | i < |s.locs| ensures ReducerOk(s, i, c) { }
    forall k: nat, c: nat | 0 < k < |s.parent| ensures EdgeOk(s, k, c) { }
  }

  /** Everything below holds in every state of every run. */
  lemma {:induction false} ExecutionInv(states: seq<State>, acts: seq<Action>, i: nat)
    requires Execution(states, acts) && Initial(states[0]) && i < |states|
    ensures Inv(states[i]) && Wired(states[i])
  {
    if i == 0 {
      InitialInv(states[0]);
      SettlingWired(states[0]);
    } else {
      ExecutionInv(states, acts, i - 1);
      StepKeeps(states[i - 1], acts[i - 1]);
    }
  }

  // x is a member whose first reduction is c or earlier.
  predicate TakesPart(s: State, x: nat, c: nat) {
    x < |s.locs| && x < |s.seed| && s.seed[x] <= c
  }

  // ---------------------------------------------------------------- what the root puts out

  // x is i or below it.
  predicate Under(parent: seq<nat>, i: nat, x: nat)
    decreases x
  {
    x == i || (0 < x < |parent| && parent[x] < x && Under(parent, i, parent[x]))
  }

  // The child of i on the way to x.
  function Toward(parent: seq<nat>, i: nat, x: nat): nat
    decreases x
  {
    if 0 < x < |parent| && parent[x] < x && parent[x] != i then Toward(parent, i, parent[x]) else x
  }

  lemma {:induction false} UnderIsLater(s: State, i: nat, x: nat)
    requires TreeOk(s) && Under(s.parent, i, x) && i < |s.locs|
    ensures i <= x < |s.locs| && s.seed[i] <= s.seed[x]
    decreases x
  {
    if x != i {
      UnderIsLater(s, i, s.parent[x]);
    }
  }

  lemma {:induction false} TowardIsChild(s: State, i: nat, x: nat)
    requires TreeOk(s) && Under(s.parent, i, x) && x != i && i < |s.locs|
    ensures ChildOf(s, Toward(s.parent, i, x), i) && Under(s.parent, Toward(s.parent, i, x), x)
    decreases x
  {
    if s.parent[x] != i {
      TowardIsChild(s, i, s.parent[x]);
    }
  }

  // Only one child is above x.
  lemma {:induction false} TowardIsOnly(s: State, i: nat, k: nat, x: nat)
    requires TreeOk(s) && ChildOf(s, k, i) && Under(s.parent, k, x) && i < |s.locs|
    ensures x != i && Under(s.parent, i, x) && Toward(s.parent, i, x) == k
    decreases x
  {
    UnderIsLater(s, k, x);
    if x != k {
      TowardIsOnly(s, i, k, s.parent[x]);
      UnderIsLater(s, k, s.parent[x]);
    }
  }

  lemma {:induction false} AllUnderRoot(s: State, x: nat)
    requires TreeOk(s) && x < |s.locs|
    ensures Under(s.parent, 0, x)
    decreases x
  {
    if x > 0 {
      AllUnderRoot(s, s.parent[x]);
    }
  }

  // How often (x, d) is among what the subtree of i contributes to reduction c.
  function Share(s: State, i: nat, c: nat, x: nat, d: nat): nat {
    if d == c && TakesPart(s, x, c) && Under(s.parent, i, x) then 1 else 0
  }

  // The shares of children add up to the share of the one child above x.
  lemma {:induction false} SharesAddUp(s: State, i: nat, ks: seq<nat>, c: nat, x: nat, d: nat)
    requires TreeOk(s) && i < |s.locs| && multiset(ks)[Toward(s.parent, i, x)] <= 1
    requires forall y {:trigger ks[y]} :: 0 <= y < |ks| ==>
              ChildOf(s, ks[y], i) && Fired(s, ks[y], c) && s.sums[(ks[y], c)][(x, d)] == Share(s, ks[y], c, x, d)
    ensures SumOf(s.sums, ks, c)[(x, d)]
         == if Toward(s.parent, i, x) in ks then Share(s, Toward(s.parent, i, x), c, x, d) else 0
    decreases |ks|
  {
    if ks != [] {
      var n := |ks| - 1;
      assert ks == ks[..n] + [ks[n]];
      SharesAddUp(s, i, ks[..n], c, x, d);
      if Under(s.parent, ks[n], x) {
        TowardIsOnly(s, i, ks[n], x);
      }
    }
  }

  // A child that takes part has put out its sum before its parent.
  lemma ChildrenFirst(s: State, i: nat, c: nat, k: nat)
    requires Inv(s) && Fired(s, i, c) && ChildOf(s, k, i) && s.seed[k] <= c && i < |s.locs|
    ensures Fired(s, k, c)
  {
    assert EdgeOk(s, k, c);
  }

  lemma JoinedIsChild(s: State, i: nat, c: nat, k: nat)
    requires TreeOk(s) && i < |s.locs|
    ensures k in Joined(s.locs[i].kids, s.seed, c) <==> ChildOf(s, k, i) && s.seed[k] <= c
    ensures multiset(Joined(s.locs[i].kids, s.seed, c))[k] <= 1
  {
    JoinedCounts(s.locs[i].kids, s.seed, c, k);
    KidsAreChildren(s, i, k);
    assert multiset(s.locs[i].kids)[k] == if ChildOf(s, k, i) then 1 else 0;
    assert k in Joined(s.locs[i].kids, s.seed, c) <==> multiset(Joined(s.locs[i].kids, s.seed, c))[k] > 0;
  }

  /** What a member's reducer puts out holds the contribution of each member of its subtree that
      takes part in the reduction exactly once, and nothing else. */
  lemma {:induction false} SubtreeExact(s: State, i: nat, c: nat, x: nat, d: nat)
    requires Inv(s) && i < |s.locs| && Fired(s, i, c)
    ensures s.sums[(i, c)][(x, d)] == Share(s, i, c, x, d)
    decreases |s.locs| - i
  {
    var ks := Joined(s.locs[i].kids, s.seed, c);
    forall y | 0 <= y < |ks|
      ensures ChildOf(s, ks[y], i) && Fired(s, ks[y], c) && s.sums[(ks[y], c)][(x, d)] == Share(s, ks[y], c, x, d)
    {
      JoinedIsChild(s, i, c, ks[y]);
      ChildrenFirst(s, i, c, ks[y]);
      SubtreeExact(s, ks[y], c, x, d);
    }
    JoinedIsChild(s, i, c, Toward(s.parent, i, x));
    SharesAddUp(s, i, ks, c, x, d);
    assert SumOk(s, i, c) && FiredOk(s, i, c);
    ShareOfMember(s, i, c, x, d);
  }

  lemma ShareOfMember(s: State, i: nat, c: nat, x: nat, d: nat)
    requires TreeOk(s) && i < |s.locs| && s.seed[i] <= c
    ensures var k := Toward(s.parent, i, x);
      Share(s, i, c, x, d) == (if (x, d) == (i, c) then 1 else 0)
        + if k in Joined(s.locs[i].kids, s.seed, c) then Share(s, k, c, x, d) else 0
  {
    var k := Toward(s.parent, i, x);
    JoinedIsChild(s, i, c, k);
    if x != i && Under(s.parent, i, x) {
      TowardIsChild(s, i, x);
      UnderIsLater(s, k, x);
    } else if ChildOf(s, k, i) && Under(s.parent, k, x) {
      TowardIsOnly(s, i, k, x);
    }
  }

  /** Exactness. The result of reduction c combines the contribution number c of every member that
      takes part in it, each exactly once, and nothing else; and there is one result per number.
      The members that take part are those whose first reduction is c or earlier. */
  lemma ReductionExact(states: seq<State>, acts: seq<Action>, j: nat)
    requires Execution(states, acts) && Initial(states[0])
    requires j < |states[|acts|].results|
    ensures var s := states[|acts|]; var o := s.results[j];
      && (forall x: nat, d: nat :: o.bag[(x, d)] == if d == o.count && TakesPart(s, x, o.count) then 1 else 0)
      && (forall h :: 0 <= h < |s.results| && s.results[h].count == o.count ==> h == j)
  {
    ExecutionInv(states, acts, |acts|);
    var s := states[|acts|];
    var o := s.results[j];
    assert FiredOk(s, 0, o.count);
    forall x: nat, d: nat
      ensures o.bag[(x, d)] == if d == o.count && TakesPart(s, x, o.count) then 1 else 0
    {
      SubtreeExact(s, 0, o.count, x, d);
      if x < |s.locs| {
        AllUnderRoot(s, x);
      }
    }
  }

  // ---------------------------------------------------------------- every reduction completes

  lemma {:induction false} DistinctFit(s: State, i: nat, c: nat)
    requires Inv(s) && i < |s.locs| && c in s.locs[i].reducers
    requires forall k: nat {:trigger Fired(s, k, c)} ::
              ChildOf(s, k, i) && s.seed[k] <= c ==> Held(s.locs[i], k, c) == 1
    ensures Full(s.locs[i], c)
  {
    assert ReducerOk(s, i, c);
    var ks: seq<nat> := Joined(s.locs[i].kids, s.seed, c);
    var a, b := multiset([i] + ks), multiset(Sources(s.locs[i].reducers[c].devs));
    forall k: nat | k in a
      ensures a[k] <= b[k]
    {
      JoinedIsChild(s, i, c, k);
      assert a[k] == (if k == i then 1 else 0) + multiset(ks)[k];
      assert k in ks ==> Fired(s, k, c) || !Fired(s, k, c);
    }
    assert b == a + (b - a);
  }

  // A member whose children have put out theirs, with nothing in flight, has put out its own.
  lemma FiresOnceFed(s: State, i: nat, c: nat)
    requires Inv(s) && s.msgs == multiset{} && i < |s.locs| && s.seed[i] <= c < s.locs[i].count
    requires forall k: nat {:trigger Fired(s, k, c)} :: ChildOf(s, k, i) && s.seed[k] <= c ==> Fired(s, k, c)
    ensures Fired(s, i, c)
  {
    assert ReducerOk(s, i, c) && Waits(s, i, c);
    if !Fired(s, i, c) {
      forall k: nat | ChildOf(s, k, i) && s.seed[k] <= c
        ensures Held(s.locs[i], k, c) == 1
      {
        assert Fired(s, k, c);
        assert EdgeOk(s, k, c) && QueueOk(s, i, Port(c, k));
      }
      DistinctFit(s, i, c);
    }
  }

  lemma {:induction false} AllFire(s: State, i: nat, c: nat)
    requires Inv(s) && s.msgs == multiset{} && TakesPart(s, i, c) && AllContributed(s, c)
    ensures Fired(s, i, c)
    decreases |s.locs| - i
  {
    forall k: nat | ChildOf(s, k, i) && s.seed[k] <= c
      ensures Fired(s, k, c)
    {
      AllFire(s, k, c);
    }
    assert TakesPart(s, i, c);
    FiresOnceFed(s, i, c);
  }

  // Every member that takes part in reduction c has contributed to it.
  ghost predicate AllContributed(s: State, c: nat) {
    forall x: nat {:trigger TakesPart(s, x, c)} :: TakesPart(s, x, c) ==> c < s.locs[x].count
  }

  /** Completion. Once every member that takes part in reduction c has contributed to it and all
      messages are delivered, there is exactly one result for c, and it is exact. */
  lemma ReductionCompletes(states: seq<State>, acts: seq<Action>, c: nat) returns (j: nat)
    requires Execution(states, acts) && Initial(states[0])
    requires states[|acts|].msgs == multiset{} && TakesPart(states[|acts|], 0, c) && AllContributed(states[|acts|], c)
    ensures var s := states[|acts|];
      && j < |s.results| && s.results[j].count == c
      && (forall h :: 0 <= h < |s.results| && s.results[h].count == c ==> h == j)
      && (forall x: nat, d: nat :: s.results[j].bag[(x, d)] == if d == c && TakesPart(s, x, c) then 1 else 0)
  {
    ExecutionInv(states, acts, |acts|);
    var s := states[|acts|];
    AllFire(s, 0, c);
    assert ResultOf(s, c);
    var o := Out(c, s.sums[(0, c)]);
    j :| 0 <= j < |s.results| && s.results[j] == o;
    ReductionExact(states, acts, j);
  }

  // ---------------------------------------------------------------- messages end

  // Every delivery takes a message away, and what it sends on is closer to the root.
  function Distance(ms: seq<Message>): nat {
    if ms == [] then 0 else Distance(ms[..|ms| - 1]) + ms[|ms| - 1].dest + 1
  }

  lemma {:induction false} DistanceWithout(ms: seq<Message>, i: nat)
    requires i < |ms|
    ensures Distance(Without(ms, i)) + ms[i].dest + 1 == Distance(ms)
    decreases |ms|
  {
    var n := |ms| - 1;
    if i == n {
      assert Without(ms, i) == ms[..n];
    } else {
      DistanceWithout(ms[..n], i);
      assert Without(ms, i)[..n - 1] == Without(ms[..n], i);
    }
  }

  // A delivery takes its message away and sends at most one on, towards the root.
  lemma DeliverySends(s: State, m: Message) returns (ups: seq<Message>)
    requires Inv(s) && m in s.msgs
    ensures Wired(s) && Enabled(s, Delivery(m))
    ensures Next(s, Delivery(m)).msgs == s.msgs - multiset{m} + multiset(ups)
    ensures ups == [] || (|ups| == 1 && ups[0].dest < m.dest)
  {
    SettlingWired(s);
    assert MessageOk(s, m) && PortOk(s, m.dest, m.port);
    DeliveryIs(s, m);
    ups := [];
    if m.dest > 0 && m.port in s.locs[m.dest].ports && Full(Taken(s, m).locs[m.dest], m.port.count) {
      var bag := SumBags(Taken(s, m).locs[m.dest].reducers[m.port.count].devs);
      ups := [Message(s.parent[m.dest], Port(m.port.count, m.dest), bag)];
    }
  }

  /** No message is ever stuck, and messages end: each delivery makes the messages' total distance
      from the root smaller. */
  lemma MessagesEnd(s: State, m: Message, ms: seq<Message>) returns (rest: seq<Message>)
    requires Inv(s) && m in s.msgs && multiset(ms) == s.msgs
    ensures Wired(s) && Enabled(s, Delivery(m))
    ensures multiset(rest) == Next(s, Delivery(m)).msgs && Distance(rest) < Distance(ms)
  {
    var ups := DeliverySends(s, m);
    assert m in ms;
    var i :| 0 <= i < |ms| && ms[i] == m;
    DistanceWithout(ms, i);
    WithoutMultiset(ms, i);
    rest := Without(ms, i) + ups;
    assert ups == [] ==> rest == Without(ms, i);
    assert |ups| == 1 ==> rest[..|rest| - 1] == Without(ms, i);
  }

  // ---------------------------------------------------------------- a section

  // The n members of a section, as ordinals in the binary tree.
  function Section(n: nat): State {
    State(seq(n, i requires 0 <= i => Loc(i, 0, BinaryTree.Leaves(i, n), map[], map[], map[])),
          seq(n, i requires 0 <= i => if i == 0 then 0 else BinaryTree.Parent(i)),
          seq(n, i => 0), multiset{}, [], map[])
  }

  lemma SectionInitial(n: nat)
    requires n > 0
    ensures Initial(Section(n))
  {
    var s := Section(n);
    forall i, k: nat | 0 <= i < |s.locs|
      ensures multiset(s.locs[i].kids)[k] == if ChildOf(s, k, i) then 1 else 0
    {
      BinaryTree.ChildIffParent(i, k, n);
      assert k in s.locs[i].kids <==> multiset(s.locs[i].kids)[k] > 0;
    }
  }

  // How often member x has contributed.
  function Contributions(acts: seq<Action>, x: nat): nat {
    if acts == [] then 0
    else Contributions(acts[..|acts| - 1], x) + if acts[|acts| - 1] == Contribution(x) then 1 else 0
  }

  // One step as far as the members' counters go.
  predicate Counts(s: State, a: Action, t: State, x: nat) {
    && |t.locs| == |s.locs| && t.seed == s.seed
    && (x < |s.locs| ==> t.locs[x].count == s.locs[x].count + if a == Contribution(x) then 1 else 0)
  }

  lemma StepCounts(s: State, a: Action, x: nat)
    requires Wired(s) && Enabled(s, a) && !a.CreateChild?
    ensures Counts(s, a, Next(s, a), x)
  {
  }

  lemma {:induction false} RunCounts(states: seq<State>, acts: seq<Action>, x: nat)
    requires |states| == |acts| + 1 && x < |states[0].locs|
    requires forall i {:trigger acts[i]} :: 0 <= i < |acts| ==> Counts(states[i], acts[i], states[i + 1], x)
    ensures var s := states[|acts|];
      |s.locs| == |states[0].locs| && s.seed == states[0].seed
        && s.locs[x].count == states[0].locs[x].count + Contributions(acts, x)
    decreases |acts|
  {
    if acts != [] {
      var n := |acts| - 1;
      RunCounts(states[..n + 1], acts[..n], x);
      assert Counts(states[n], acts[n], states[n + 1], x);
    }
  }

  lemma ExecutionCounts(states: seq<State>, acts: seq<Action>, x: nat)
    requires Execution(states, acts) && x < |states[0].locs| && forall a :: a in acts ==> !a.CreateChild?
    ensures var s := states[|acts|];
      |s.locs| == |states[0].locs| && s.seed == states[0].seed
        && s.locs[x].count == states[0].locs[x].count + Contributions(acts, x)
  {
    forall i | 0 <= i < |acts|
      ensures Counts(states[i], acts[i], states[i + 1], x)
    {
      assert acts[i] in acts;
      StepCounts(states[i], acts[i], x);
    }
    RunCounts(states, acts, x);
  }

  /** Over any tree whose members all start at the same number: once each has contributed often enough for c
      and all messages are delivered, the callback has fired exactly once for c, with exactly the
      contributions number c of all members. */
  lemma StaticReduction(start: nat, states: seq<State>, acts: seq<Action>, c: nat) returns (j: nat)
    requires Execution(states, acts) && Initial(states[0]) && forall a :: a in acts ==> !a.CreateChild?
    requires start <= c
    requires forall x {:trigger states[0].seed[x]} :: 0 <= x < |states[0].seed| ==> states[0].seed[x] == start
    requires states[|acts|].msgs == multiset{}
    requires forall x: nat :: x < |states[0].locs| ==> start + Contributions(acts, x) > c
    ensures var rs := states[|acts|].results;
      && j < |rs| && rs[j].count == c
      && (forall h :: 0 <= h < |rs| && rs[h].count == c ==> h == j)
      && (forall x: nat, d: nat :: rs[j].bag[(x, d)] == if d == c && x < |states[0].locs| then 1 else 0)
  {
    var s := states[|acts|];
    ExecutionCounts(states, acts, 0);
    assert forall x: nat :: TakesPart(s, x, c) <==> x < |states[0].locs|;
    forall x: nat | TakesPart(s, x, c)
      ensures c < s.locs[x].count
    {
      ExecutionCounts(states, acts, x);
      assert states[0].locs[x].count == states[0].seed[x];
    }
    j := ReductionCompletes(states, acts, c);
  }

  /** A static section of n members is a case of that. */
  lemma SectionReduction(n: nat, states: seq<State>, acts: seq<Action>, c: nat) returns (j: nat)
    requires n > 0 && Execution(states, acts) && states[0] == Section(n) && forall a :: a in acts ==> !a.CreateChild?
    requires states[|acts|].msgs == multiset{} && forall x: nat :: x < n ==> Contributions(acts, x) > c
    ensures var rs := states[|acts|].results;
      && j < |rs| && rs[j].count == c
      && (forall h :: 0 <= h < |rs| && rs[h].count == c ==> h == j)
      && (forall x: nat, d: nat :: rs[j].bag[(x, d)] == if d == c && x < n then 1 else 0)
  {
    SectionInitial(n);
    j := StaticReduction(0, states, acts, c);
  }

  // Member i starts afresh, with the links its identity gives it: it receives from the members upstream of it
  // and sends to the one downstream, if there is one.
  ghost predicate LinkedAs(members: seq<nat>, s: State, i: nat)
    requires i < |members| == |s.locs| == |s.parent| == |s.seed|
  {
    var l := s.locs[i];
    && s.seed[i] == 0 && l == Loc(i, 0, l.kids, map[], map[], map[])
    && (forall x :: 0 <= x < |l.kids| ==> l.kids[x] < |members|) && s.parent[i] < |members|
    && Sections.Upstream(members, members[i]) == Some(Sections.IndicesAt(members, l.kids))
    && (if i == 0 then s.parent[i] == 0 && Sections.Downstream(members, members[i]) == Some([])
        else Sections.Downstream(members, members[i]) == Some([members[s.parent[i]]]))
  }

  // All of them do, and nothing has happened yet.
  ghost predicate AllLinked(members: seq<nat>, s: State) {
    && |s.locs| == |s.parent| == |s.seed| == |members| && s.msgs == multiset{} && s.results == [] && s.sums == map[]
    && forall i {:trigger LinkedAs(members, s, i)} :: 0 <= i < |members| ==> LinkedAs(members, s, i)
  }

  // Among distinct members, the indices tell the ordinals.
  lemma SameOrdinals(members: seq<nat>, a: seq<nat>, b: seq<nat>)
    requires Distinct(members)
    requires (forall x :: 0 <= x < |a| ==> a[x] < |members|) && (forall x :: 0 <= x < |b| ==> b[x] < |members|)
    requires Sections.IndicesAt(members, a) == Sections.IndicesAt(members, b)
    ensures a == b
  {
    var m, n := Sections.IndicesAt(members, a), Sections.IndicesAt(members, b);
    assert |m| == |a| && |n| == |b|;
    forall x | 0 <= x < |a|
      ensures a[x] == b[x]
    {
      assert m[x] == n[x];
    }
  }

  lemma LinkIffSection(members: seq<nat>, s: State, i: nat)
    requires Distinct(members) && i < |members| == |s.locs| == |s.parent| == |s.seed|
    ensures LinkedAs(members, s, i)
      <==> s.seed[i] == 0 && s.locs[i] == Section(|members|).locs[i] && s.parent[i] == Section(|members|).parent[i]
  {
    var leaves := BinaryTree.Leaves(i, |members|);
    Sections.OrdinalAt(members, i);
    if LinkedAs(members, s, i) {
      SameOrdinals(members, s.locs[i].kids, leaves);
    }
  }

  /** The identities of the members of a section link them as the tree over their ordinals, and in no other
      way. */
  lemma LinkedIffSection(members: seq<nat>, s: State)
    requires Distinct(members)
    ensures AllLinked(members, s) <==> s == Section(|members|)
  {
    if |s.locs| == |s.parent| == |s.seed| == |members| {
      forall i: nat | i < |members|
        ensures LinkedAs(members, s, i)
          <==> s.seed[i] == 0 && s.locs[i] == Section(|members|).locs[i] && s.parent[i] == Section(|members|).parent[i]
      {
        LinkIffSection(members, s, i);
      }
      if AllLinked(members, s) {
        assert forall i :: 0 <= i < |members| ==> LinkedAs(members, s, i);
        assert s.locs == Section(|members|).locs;
        assert s.parent == Section(|members|).parent;
        assert s.seed == Section(|members|).seed;
      }
    }
  }

  /** A section of any distinct members that are linked as their identities say: once each of them has
      contributed more than c times and all messages are delivered, the callback has fired exactly once for
      c, with exactly one contribution number c of each member. */
  lemma MembersReduction(members: seq<nat>, states: seq<State>, acts: seq<Action>, c: nat) returns (j: nat)
    requires Distinct(members) && members != []
    requires Execution(states, acts) && AllLinked(members, states[0]) && forall a :: a in acts ==> !a.CreateChild?
    requires states[|acts|].msgs == multiset{}
    requires forall a :: a in members ==> Contributions(acts, Sections.FirstOf(members, a)) > c
    ensures var rs := states[|acts|].results;
      && j < |rs| && rs[j].count == c && (forall h :: 0 <= h < |rs| && rs[h].count == c ==> h == j)
      && (forall a, d: nat :: a in members ==> rs[j].bag[(Sections.FirstOf(members, a), d)] == if d == c then 1 else 0)
      && (forall x: nat, d: nat :: x >= |members| ==> rs[j].bag[(x, d)] == 0)
  {
    LinkedIffSection(members, states[0]);
    forall x: nat | x < |members|
      ensures Contributions(acts, x) > c
    {
      Sections.OrdinalAt(members, x);
      assert members[x] in members;
    }
    j := SectionReduction(|members|, states, acts, c);
  }
}
