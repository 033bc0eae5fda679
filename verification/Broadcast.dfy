/** Broadcasts over a section: each is numbered, sent on to all children, and accepted by a member if
    it is later than all it has accepted. With channels that keep their order every member accepts
    1, 2, 3, ...; in general it accepts the running maxima of what arrives. */
module Broadcast {
  import opened Common
  import opened BinaryTree
  import opened Sections

  // ---------------------------------------------------------------- what one member accepts

  // The largest number that has arrived.
  function Latest(arrived: seq<nat>): nat {
    if arrived == [] then 0
    else
      var c, before := arrived[|arrived| - 1], Latest(arrived[..|arrived| - 1]);
      if before >= c then before else c
  }

  // The numbers that are accepted, one after the other.
  function Accepted(arrived: seq<nat>): seq<nat> {
    if arrived == [] then []
    else
      var c, before := arrived[|arrived| - 1], arrived[..|arrived| - 1];
      if Latest(before) >= c then Accepted(before) else Accepted(before) + [c]
  }

  function UpTo(m: nat): seq<nat> {
    seq(m, i => i + 1)
  }

  lemma UpToNext(m: nat)
    ensures UpTo(m + 1) == UpTo(m) + [m + 1]
  {
  }

  lemma {:induction false} AcceptedIncreases(arrived: seq<nat>)
    ensures var a := Accepted(arrived);
      && (forall i, j :: 0 <= i < j < |a| ==> a[i] < a[j])
      && (forall i :: 0 <= i < |a| ==> 0 < a[i] <= Latest(arrived))
      && |a| <= |arrived| && (a == [] <==> Latest(arrived) == 0) && (a != [] ==> a[|a| - 1] == Latest(arrived))
    decreases |arrived|
  {
    if arrived != [] {
      AcceptedIncreases(arrived[..|arrived| - 1]);
    }
  }

  lemma {:induction false} AcceptsAllUpTo(m: nat)
    ensures Accepted(UpTo(m)) == UpTo(m) && Latest(UpTo(m)) == m
  {
    if m > 0 {
      AcceptsAllUpTo(m - 1);
      assert UpTo(m)[..m - 1] == UpTo(m - 1);
    }
  }

  lemma {:induction false} SkippingLosesOne(arrived: seq<nat>)
    requires |Accepted(arrived)| == |arrived|
    ensures Accepted(arrived) == arrived
    decreases |arrived|
  {
    if arrived != [] {
      AcceptedIncreases(arrived[..|arrived| - 1]);
      SkippingLosesOne(arrived[..|arrived| - 1]);
    }
  }

  /** If the broadcasts 1 to m arrive, each once, all of them are accepted if and only if they arrive
      in order: whatever is overtaken is lost. */
  lemma AllAcceptedIffInOrder(arrived: seq<nat>, m: nat)
    requires multiset(arrived) == multiset(UpTo(m))
    ensures Accepted(arrived) == UpTo(m) <==> arrived == UpTo(m)
  {
    assert |arrived| == |multiset(arrived)| == m;
    AcceptsAllUpTo(m);
    if Accepted(arrived) == UpTo(m) {
      SkippingLosesOne(arrived);
    }
  }

  // ---------------------------------------------------------------- all members

  // For each member: the stamped broadcasts that have arrived, those it has accepted, its counter,
  // and the channel that leads to it.
  datatype Node = Node(arrived: seq<nat>, log: seq<nat>, count: nat, channel: seq<nat>)

  type State = seq<Node>

  datatype Action = Start | Deliver(member: nat, pos: nat)

  predicate Enabled(s: State, a: Action) {
    match a
    case Start => |s| > 0
    case Deliver(k, j) => 0 < k < |s| && j < |s[k].channel|
  }

  // The member's own part: the broadcast is accepted, or not.
  function Accept(l: Node, c: nat): Node {
    var l1 := l.(arrived := l.arrived + [c]);
    if l.count >= c then l1 else l1.(count := c, log := l.log + [c])
  }

  // Broadcast c is handled by member i: it is sent to all children, then accepted or not.
  function Handle(s: State, i: nat, c: nat): State
    requires i < |s|
  {
    seq(|s|, k requires 0 <= k < |s| =>
      if k == i then Accept(s[i], c)
      else if k in Leaves(i, |s|) then s[k].(channel := s[k].channel + [c])
      else s[k])
  }

  function Next(s: State, a: Action): State
    requires Enabled(s, a)
  {
    match a
    case Start => Handle(s, 0, s[0].count + 1)
    case Deliver(k, j) =>
      Handle(Taken(s, k, j), k, s[k].channel[j])
  }

  function Initial(n: nat): State {
    seq(n, i => Node([], [], 0, []))
  }

  ghost predicate Execution(states: seq<State>, acts: seq<Action>, n: nat) {
    && |states| == |acts| + 1 && states[0] == Initial(n)
    && forall i :: 0 <= i < |acts| ==> Enabled(states[i], acts[i]) && states[i + 1] == Next(states[i], acts[i])
  }

  // Channels keep their order.
  predicate InOrder(a: Action) {
    a.Deliver? ==> a.pos == 0
  }

  predicate NodeOk(l: Node) {
    l.log == Accepted(l.arrived) && l.count == Latest(l.arrived)
  }

  // What has arrived at the parent has arrived at the child or is on its way to it.
  ghost predicate Passed(parent: seq<nat>, child: seq<nat>, channel: seq<nat>) {
    multiset(parent) == multiset(child) + multiset(channel)
  }

  ghost predicate EdgeOk(s: State, k: nat)
    requires 0 < k < |s|
  {
    Passed(s[Parent(k)].arrived, s[k].arrived, s[k].channel)
  }

  predicate EdgeInOrder(s: State, k: nat)
    requires 0 < k < |s|
  {
    s[Parent(k)].arrived == s[k].arrived + s[k].channel
  }

  ghost predicate Inv(s: State) {
    && (forall i {:trigger s[i]} :: 0 <= i < |s| ==> NodeOk(s[i]))
    && (forall k: nat {:trigger EdgeOk(s, k)} :: 0 < k < |s| ==> EdgeOk(s, k))
    && (s != [] ==> s[0].arrived == UpTo(s[0].count) && s[0].channel == [])
  }

  ghost predicate OrderInv(s: State) {
    forall k: nat {:trigger EdgeInOrder(s, k)} :: 0 < k < |s| ==> EdgeInOrder(s, k)
  }

  lemma AcceptOk(l: Node, c: nat)
    requires NodeOk(l)
    ensures NodeOk(Accept(l, c))
  {
    assert Accept(l, c).arrived[..|l.arrived|] == l.arrived;
  }

  lemma Sent(parent: seq<nat>, child: seq<nat>, channel: seq<nat>, c: nat)
    ensures Passed(parent, child, channel) ==> Passed(parent + [c], child, channel + [c])
    ensures parent == child + channel ==> parent + [c] == child + (channel + [c])
  {
  }

  lemma Got(parent: seq<nat>, child: seq<nat>, channel: seq<nat>, j: nat)
    requires j < |channel| && Passed(parent, child, channel)
    ensures Passed(parent, child + [channel[j]], Without(channel, j))
  {
    assert channel == channel[..j] + [channel[j]] + channel[j + 1..];
  }

  lemma GotFirst(parent: seq<nat>, child: seq<nat>, channel: seq<nat>)
    requires channel != [] && parent == child + channel
    ensures parent == child + [channel[0]] + Without(channel, 0)
  {
    assert channel == [channel[0]] + Without(channel, 0);
  }

  // What handling a broadcast does to member k.
  lemma HandledAt(s: State, i: nat, c: nat, k: nat)
    requires i < |s| && k < |s|
    ensures Handle(s, i, c)[k] == if k == i then Accept(s[i], c)
      else if k > 0 && Parent(k) == i then s[k].(channel := s[k].channel + [c]) else s[k]
    ensures Accept(s[i], c).arrived == s[i].arrived + [c] && Accept(s[i], c).channel == s[i].channel
  {
    ChildIffParent(i, k, |s|);
  }

  // An edge whose child is not the member that handles the broadcast.
  lemma HandledEdge(s: State, i: nat, c: nat, k: nat)
    requires i < |s| && 0 < k < |s| && k != i
    ensures EdgeOk(s, k) ==> EdgeOk(Handle(s, i, c), k)
    ensures EdgeInOrder(s, k) ==> EdgeInOrder(Handle(s, i, c), k)
  {
    HandledAt(s, i, c, k);
    HandledAt(s, i, c, Parent(k));
    Sent(s[Parent(k)].arrived, s[k].arrived, s[k].channel, c);
  }

  lemma HandledNode(s: State, i: nat, c: nat, k: nat)
    requires i < |s| && k < |s| && NodeOk(s[k]) && (k == i ==> NodeOk(s[i]))
    ensures NodeOk(Handle(s, i, c)[k])
  {
    HandledAt(s, i, c, k);
    if k == i {
      AcceptOk(s[i], c);
    }
  }

  lemma StartRoot(s: State)
    requires |s| > 0 && NodeOk(s[0]) && s[0].arrived == UpTo(s[0].count) && s[0].channel == []
    ensures Next(s, Start)[0].arrived == UpTo(Next(s, Start)[0].count) && Next(s, Start)[0].channel == []
  {
    HandledAt(s, 0, s[0].count + 1, 0);
    UpToNext(s[0].count);
  }

  lemma StartEdge(s: State, k: nat)
    requires 0 < k < |s| && EdgeOk(s, k)
    ensures EdgeOk(Next(s, Start), k) && (EdgeInOrder(s, k) ==> EdgeInOrder(Next(s, Start), k))
  {
    HandledEdge(s, 0, s[0].count + 1, k);
  }

  lemma StartKeeps(s: State)
    requires Inv(s) && |s| > 0
    ensures Inv(Next(s, Start)) && (OrderInv(s) ==> OrderInv(Next(s, Start)))
  {
    forall k: nat | k < |s|
      ensures NodeOk(Next(s, Start)[k])
    {
      HandledNode(s, 0, s[0].count + 1, k);
    }
    forall k: nat | 0 < k < |s|
      ensures EdgeOk(Next(s, Start), k) && (OrderInv(s) ==> EdgeInOrder(Next(s, Start), k))
    {
      assert EdgeOk(s, k) && (OrderInv(s) ==> EdgeInOrder(s, k));
      StartEdge(s, k);
    }
    StartRoot(s);
  }

  // Taking a broadcast off a channel.
  function Taken(s: State, i: nat, j: nat): State
    requires 0 < i < |s| && j < |s[i].channel|
  {
    s[i := s[i].(channel := Without(s[i].channel, j))]
  }

  lemma DeliverEdge(s: State, i: nat, j: nat, k: nat)
    requires Enabled(s, Deliver(i, j)) && 0 < k < |s|
    ensures EdgeOk(s, k) ==> EdgeOk(Next(s, Deliver(i, j)), k)
    ensures j == 0 && EdgeInOrder(s, k) ==> EdgeInOrder(Next(s, Deliver(i, j)), k)
  {
    var t, c := Taken(s, i, j), s[i].channel[j];
    if k == i {
      HandledAt(t, i, c, i);
      HandledAt(t, i, c, Parent(i));
      if EdgeOk(s, k) {
        Got(s[Parent(i)].arrived, s[i].arrived, s[i].channel, j);
      }
      if j == 0 && EdgeInOrder(s, k) {
        GotFirst(s[Parent(i)].arrived, s[i].arrived, s[i].channel);
      }
    } else {
      assert t[k] == s[k] && t[Parent(k)].arrived == s[Parent(k)].arrived;
      HandledEdge(t, i, c, k);
    }
  }

  lemma DeliverKeeps(s: State, i: nat, j: nat)
    requires Inv(s) && Enabled(s, Deliver(i, j))
    ensures Inv(Next(s, Deliver(i, j))) && (OrderInv(s) && j == 0 ==> OrderInv(Next(s, Deliver(i, j))))
  {
    var t := Next(s, Deliver(i, j));
    forall k: nat | k < |s|
      ensures NodeOk(t[k])
      ensures k > 0 ==> EdgeOk(t, k) && (OrderInv(s) && j == 0 ==> EdgeInOrder(t, k))
    {
      HandledNode(Taken(s, i, j), i, s[i].channel[j], k);
      if k > 0 {
        assert EdgeOk(s, k) && (OrderInv(s) ==> EdgeInOrder(s, k));
        DeliverEdge(s, i, j, k);
      }
    }
    HandledAt(Taken(s, i, j), i, s[i].channel[j], 0);
  }

  lemma {:induction false} ExecutionInv(states: seq<State>, acts: seq<Action>, n: nat, i: nat)
    requires Execution(states, acts, n) && i < |states|
    ensures |states[i]| == n && Inv(states[i])
    ensures (forall j :: 0 <= j < i ==> InOrder(acts[j])) ==> OrderInv(states[i])
  {
    if i == 0 {
      assert UpTo(0) == [];
    } else {
      ExecutionInv(states, acts, n, i - 1);
      StepKeeps(states[i - 1], acts[i - 1]);
    }
  }

  lemma StepKeeps(s: State, a: Action)
    requires Inv(s) && Enabled(s, a)
    ensures |Next(s, a)| == |s| && Inv(Next(s, a)) && (OrderInv(s) && InOrder(a) ==> OrderInv(Next(s, a)))
  {
    match a
    case Start => StartKeeps(s);
    case Deliver(k, j) => DeliverKeeps(s, k, j);
  }

  // ---------------------------------------------------------------- the promises

  lemma {:induction false} PrefixOfAll(s: State, i: nat)
    requires Inv(s) && OrderInv(s) && i < |s|
    ensures s[i].arrived == UpTo(|s[i].arrived|) && |s[i].arrived| <= s[0].count
    decreases i
  {
    if i > 0 {
      PrefixOfAll(s, Parent(i));
      assert EdgeInOrder(s, i);
      var p := s[Parent(i)].arrived;
      assert s[i].arrived == p[..|s[i].arrived|];
      assert UpTo(|p|)[..|s[i].arrived|] == UpTo(|s[i].arrived|);
    }
  }

  lemma {:induction false} AllArrived(s: State, i: nat)
    requires Inv(s) && i < |s| && forall k :: 0 <= k < |s| ==> s[k].channel == []
    ensures multiset(s[i].arrived) == multiset(UpTo(s[0].count))
    decreases i
  {
    if i > 0 {
      AllArrived(s, Parent(i));
      assert EdgeOk(s, i);
    }
  }

  /** With channels that keep their order, in every state of every run, each member has accepted
      1, 2, 3, ... up to its counter, each once; and once all is delivered, every member has accepted
      every broadcast. */
  lemma InOrderExactlyOnce(states: seq<State>, acts: seq<Action>, n: nat, i: nat)
    requires Execution(states, acts, n) && i < n && forall j :: 0 <= j < |acts| ==> InOrder(acts[j])
    ensures var s := states[|acts|];
      && |s| == n
      && s[i].log == UpTo(s[i].count) && s[i].count <= s[0].count
      && ((forall k :: 0 <= k < n ==> s[k].channel == []) ==> s[i].count == s[0].count)
  {
    ExecutionInv(states, acts, n, |acts|);
    var s := states[|acts|];
    PrefixOfAll(s, i);
    AcceptsAllUpTo(|s[i].arrived|);
    if forall k :: 0 <= k < n ==> s[k].channel == [] {
      AllArrived(s, i);
      assert |s[i].arrived| == |multiset(s[i].arrived)| == |multiset(UpTo(s[0].count))| == s[0].count;
    }
  }

  /** With any reordering, what a member accepts is strictly increasing; every broadcast reaches every
      member exactly once; and a member has accepted them all if and only if they came in order. */
  lemma AnyOrder(states: seq<State>, acts: seq<Action>, n: nat, i: nat)
    requires Execution(states, acts, n) && i < n
    ensures var s := states[|acts|];
      && |s| == n
      && (forall x, y :: 0 <= x < y < |s[i].log| ==> s[i].log[x] < s[i].log[y])
      && ((forall k :: 0 <= k < n ==> s[k].channel == []) ==>
           && multiset(s[i].arrived) == multiset(UpTo(s[0].count))
           && (s[i].log == UpTo(s[0].count) <==> s[i].arrived == UpTo(s[0].count)))
  {
    ExecutionInv(states, acts, n, |acts|);
    var s := states[|acts|];
    AcceptedIncreases(s[i].arrived);
    if forall k :: 0 <= k < n ==> s[k].channel == [] {
      AllArrived(s, i);
      AllAcceptedIffInOrder(s[i].arrived, s[0].count);
    }
  }

  lemma StartsAtTwo(a: Node, b: Node)
    ensures Next([a, b], Start) == [Accept(a, a.count + 1), b.(channel := b.channel + [a.count + 1])]
  {
    HandledAt([a, b], 0, a.count + 1, 0);
    HandledAt([a, b], 0, a.count + 1, 1);
  }

  lemma DeliversToSecond(a: Node, b: Node, j: nat)
    requires j < |b.channel|
    ensures Next([a, b], Deliver(1, j)) == [a, Accept(b.(channel := Without(b.channel, j)), b.channel[j])]
  {
    var t: State := [a, b.(channel := Without(b.channel, j))];
    assert Taken([a, b], 1, j) == t;
    HandledAt(t, 1, b.channel[j], 0);
    HandledAt(t, 1, b.channel[j], 1);
  }

  // Two members, and two broadcasts of which the later one arrives first.
  function Overtaking(): seq<State> {
    var idle, root := Node([], [], 0, []), Node([1, 2], [1, 2], 2, []);
    [[idle, idle], [Node([1], [1], 1, []), Node([], [], 0, [1])], [root, Node([], [], 0, [1, 2])],
     [root, Node([2], [2], 2, [1])], [root, Node([2, 1], [2], 2, [])]]
  }

  lemma OvertakingBegins()
    ensures Overtaking()[0] == Initial(2)
  {
  }

  lemma OvertakingStarts()
    ensures Enabled(Overtaking()[0], Start) && Next(Overtaking()[0], Start) == Overtaking()[1]
    ensures Enabled(Overtaking()[1], Start) && Next(Overtaking()[1], Start) == Overtaking()[2]
  {
    var none: seq<nat> := [];
    assert none + [1] == [1] && [1] + [2] == [1, 2];
    StartsAtTwo(Node([], [], 0, []), Node([], [], 0, []));
    StartsAtTwo(Node([1], [1], 1, []), Node([], [], 0, [1]));
  }

  lemma OvertakingDelivers()
    ensures Enabled(Overtaking()[2], Deliver(1, 1)) && Next(Overtaking()[2], Deliver(1, 1)) == Overtaking()[3]
    ensures Enabled(Overtaking()[3], Deliver(1, 0)) && Next(Overtaking()[3], Deliver(1, 0)) == Overtaking()[4]
  {
    var root, none: seq<nat> := Node([1, 2], [1, 2], 2, []), [];
    assert none + [2] == [2] && [2] + [1] == [2, 1];
    DeliversToSecond(root, Node([], [], 0, [1, 2]), 1);
    assert Without([1, 2], 1) == [1];
    DeliversToSecond(root, Node([2], [2], 2, [1]), 0);
    assert Without([1], 0) == [];
  }

  /** Two broadcasts that overtake each other: the earlier one is lost. */
  lemma OvertakenIsLost() returns (states: seq<State>, acts: seq<Action>)
    ensures Execution(states, acts, 2) && |states[|acts|]| == 2
    ensures states[|acts|][0].log == [1, 2] && states[|acts|][1].log == [2] && states[|acts|][1].channel == []
  {
    states, acts := Overtaking(), [Start, Start, Deliver(1, 1), Deliver(1, 0)];
    OvertakingBegins();
    FourSteps(states, acts) by {
      OvertakingStarts();
      OvertakingDelivers();
    }
  }

  lemma FourSteps(states: seq<State>, acts: seq<Action>)
    requires |states| == 5 && |acts| == 4 && states[0] == Initial(2)
    requires Enabled(states[0], acts[0]) && states[1] == Next(states[0], acts[0])
    requires Enabled(states[1], acts[1]) && states[2] == Next(states[1], acts[1])
    requires Enabled(states[2], acts[2]) && states[3] == Next(states[2], acts[2])
    requires Enabled(states[3], acts[3]) && states[4] == Next(states[3], acts[3])
    ensures Execution(states, acts, 2)
  {
    forall i | 0 <= i < 4
      ensures Enabled(states[i], acts[i]) && states[i + 1] == Next(states[i], acts[i])
    {
      assert i == 0 || i == 1 || i == 2 || i == 3;
    }
  }

  // ---------------------------------------------------------------- the action itself

  /** What runs at a member: a copy goes to each child, then the broadcast is accepted or not. A
      broadcast that starts here has no number yet and takes the next one. */
  method Act(identity: Identity, stamp: Option<nat>) returns (sent: Option<seq<(Index, nat)>>, accepted: bool)
    modifies identity`broadcasts
    ensures sent.None? <==> identity.mine !in identity.members
    ensures sent.Some? ==>
      var count := if stamp.Some? then stamp.value else old(identity.broadcasts) + 1;
      var ups := Upstream(identity.members, identity.mine).value;
      && sent.value == seq(|ups|, i requires 0 <= i < |ups| => (ups[i], count))
      && accepted == (old(identity.broadcasts) < count) && (stamp.None? ==> accepted)
      && identity.broadcasts == if accepted then count else old(identity.broadcasts)
  {
    accepted := false;
    var count := if stamp.Some? then stamp.value else identity.NextBroadcast();
    var upstream := identity.FindUpstream();
    if upstream.None? {
      return None, false;
    }
    var out: seq<(Index, nat)> := [];
    var i := 0;
    while i < |upstream.value|
      invariant i <= |upstream.value| == |Upstream(identity.members, identity.mine).value| && |out| == i
      invariant forall j :: 0 <= j < i ==> out[j] == (upstream.value[j], count)
    {
      out := out + [(upstream.value[i], count)];
      i := i + 1;
    }
    accepted := identity.AcceptBroadcast(count);
    sent := Some(out);
  }
}
