/** One member of the reduction tree, updated in place: a local contribution opens the ports of its
    reducer, drains what was queued for them, activates the reducer and adds the local value. */
module Vil {
  import opened Common
  import opened Reduction
  import opened ReductionSteps

  lemma ReversedSnoc(src: nat, bags: seq<Bag>, b: Bag)
    ensures Reversed(src, bags + [b]) == [Dev(src, b)] + Reversed(src, bags)
  {
  }

  // At most one value of each child waits for the next reduction, so that activation alone never
  // completes it.
  predicate Sparse(l: Loc) {
    |Collected(l.kids, l.queue, l.count)| <= |l.kids|
  }

  lemma PortsSnoc(ks: seq<nat>, k: nat, c: nat)
    ensures PortsOf(ks + [k], c) == PortsOf(ks, c) + {Port(c, k)}
  {
    forall x | x in ks + [k]
      ensures Port(c, x) in PortsOf(ks, c) + {Port(c, k)}
    {
      assert x in ks || x == k;
    }
    forall x | x in ks || x == k
      ensures Port(c, x) in PortsOf(ks + [k], c)
    {
      assert x in ks + [k];
    }
  }

  lemma OneMore(ports: map<Port, nat>, ps: set<Port>, p: Port, c: nat)
    ensures WithPorts(ports, ps, c)[p := c] == WithPorts(ports, ps + {p}, c)
  {
  }

  lemma OneLess(queue: map<Port, seq<Bag>>, ps: set<Port>, p: Port)
    ensures queue - ps - {p} == queue - (ps + {p})
    ensures p !in ps ==> QueueOf(queue - ps, p) == QueueOf(queue, p)
  {
  }

  // The ports of the children ks of l are open.
  predicate Halfway(l: Loc, c: nat, ks: seq<nat>, ports: map<Port, nat>, queue: map<Port, seq<Bag>>, inbox: seq<Dev>) {
    && ports == WithPorts(l.ports, PortsOf(ks, c), c) && queue == l.queue - PortsOf(ks, c)
    && inbox == Collected(ks, l.queue, c)
  }

  // The reducer of the next reduction is there before its ports are opened.
  function Emplaced(l: Loc): Loc {
    l.(count := l.count + 1, reducers := l.reducers[l.count := Reducer(|l.kids| + 1, [])])
  }

  function Fed(l: Loc, ports: map<Port, nat>, queue: map<Port, seq<Bag>>, inbox: seq<Dev>): Loc {
    Emplaced(l).(ports := ports, queue := queue,
      reducers := Emplaced(l).reducers[l.count := Reducer(|l.kids| + 1, inbox)])
  }

  lemma Twice<K, V>(m: map<K, V>, k: K, a: V, b: V)
    ensures m[k := a][k := b] == m[k := b]
  {
  }

  lemma HalfwayNext(l: Loc, c: nat, ks: seq<nat>, k: nat, ports: map<Port, nat>, queue: map<Port, seq<Bag>>,
                    inbox: seq<Dev>)
    requires k !in ks && Halfway(l, c, ks, ports, queue, inbox)
    ensures Halfway(l, c, ks + [k], ports[Port(c, k) := c], queue - {Port(c, k)},
      Reversed(k, QueueOf(queue, Port(c, k))) + inbox)
  {
    PortsSnoc(ks, k, c);
    OneMore(l.ports, PortsOf(ks, c), Port(c, k), c);
    OneLess(l.queue, PortsOf(ks, c), Port(c, k));
    CollectedNext(ks, k, l.queue, c, 0);
  }

  lemma HalfwayNone(l: Loc, c: nat)
    ensures Halfway(l, c, [], l.ports, l.queue, [])
  {
  }

  // All ports open, and the reducer fed with what was collected.
  lemma HalfwayDone(l: Loc, ports: map<Port, nat>, queue: map<Port, seq<Bag>>, inbox: seq<Dev>)
    requires Halfway(Emplaced(l), l.count, l.kids, ports, queue, inbox)
    ensures Fed(l, ports, queue, inbox) == Opened(l)
    ensures Sparse(l) ==> |inbox| <= |l.kids|
  {
    Twice(l.reducers, l.count, Reducer(|l.kids| + 1, []), Reducer(|l.kids| + 1, inbox));
  }

  class Member {
    var mine: nat
    var count: nat
    var kids: seq<nat>
    var ports: map<Port, nat>
    var queue: map<Port, seq<Bag>>
    var reducers: map<nat, Reducer>

    function Value(): Loc
      reads this
    {
      Loc(mine, count, kids, ports, queue, reducers)
    }

    constructor (mine: nat, count: nat, kids: seq<nat>)
      ensures Value() == Loc(mine, count, kids, map[], map[], map[])
    {
      this.mine, this.count, this.kids := mine, count, kids;
      ports, queue, reducers := map[], map[], map[];
    }

    // The reducer takes a value; with the last one it puts out its combination, is dropped, and
    // its ports are closed.
    method Act(c: nat, d: Dev) returns (out: Option<Out>)
      requires c in reducers
      modifies this`ports, this`reducers
      ensures (Value(), out) == Stage(old(Value()), c, d)
    {
      var devs := reducers[c].devs + [d];
      var persistent := |devs| < reducers[c].need;
      if persistent {
        reducers := reducers[c := reducers[c].(devs := devs)];
        return None;
      }
      var bag: Bag := multiset{};
      var i := 0;
      while i < |devs|
        invariant i <= |devs| && bag == SumBags(devs[..i]) && Value() == old(Value())
      {
        assert devs[..i + 1][..i] == devs[..i];
        bag := bag + devs[i].bag;
        i := i + 1;
      }
      assert devs[..i] == devs;
      assert (Put(old(Value()), c, d)).reducers - {c} == reducers - {c};
      reducers := reducers - {c};
      ports := map p | p in ports && ports[p] != c :: ports[p];
      return Some(Out(c, bag));
    }

    method Receive(p: Port, bag: Bag) returns (out: Option<Out>)
      requires p in ports ==> ports[p] in reducers
      modifies this`ports, this`reducers, this`queue
      ensures (Value(), out) == Reduction.Receive(old(Value()), p, bag)
    {
      if p in ports {
        out := Act(ports[p], Dev(p.index, bag));
      } else {
        queue := queue[p := QueueOf(queue, p) + [bag]];
        out := None;
      }
    }

    // Open the port of one child for reducer c, and move what was queued for it to the front of
    // the inbox of the reducer, which is not active yet.
    method Connect(c: nat, up: nat, inbox: seq<Dev>) returns (r: seq<Dev>)
      modifies this`ports, this`queue
      ensures r == Reversed(up, QueueOf(old(queue), Port(c, up))) + inbox
      ensures ports == old(ports)[Port(c, up) := c] && queue == old(queue) - {Port(c, up)}
    {
      var p := Port(c, up);
      r := inbox;
      if p in queue {
        var buffer := queue[p];
        var i := 0;
        while i < |buffer|
          invariant i <= |buffer| && r == Reversed(up, buffer[..i]) + inbox && Value() == old(Value())
        {
          r := [Dev(up, buffer[i])] + r;
          ReversedSnoc(up, buffer[..i], buffer[i]);
          i := i + 1;
          assert buffer[..i] == buffer[..i - 1] + [buffer[i - 1]];
        }
        assert buffer[..i] == buffer;
      }
      ports := ports[p := c];
      queue := queue - {p};
    }

    // The same, the ports of the children ks being open.
    method ConnectNext(c: nat, k: nat, inbox: seq<Dev>, ghost l: Loc, ghost ks: seq<nat>) returns (r: seq<Dev>)
      requires k !in ks && Halfway(l, c, ks, ports, queue, inbox)
      modifies this`ports, this`queue
      ensures Halfway(l, c, ks + [k], ports, queue, r)
    {
      HalfwayNext(l, c, ks, k, ports, queue, inbox);
      r := Connect(c, k, inbox);
    }

    method Open(c: nat) returns (inbox: seq<Dev>)
      requires Distinct(kids)
      modifies this`ports, this`queue
      ensures Halfway(old(Value()), c, kids, ports, queue, inbox)
    {
      ghost var l, ks: seq<nat> := Value(), [];
      inbox := [];
      var j := 0;
      HalfwayNone(l, c);
      while j < |kids|
        invariant j <= |kids| && |ks| == j && forall x :: 0 <= x < j ==> ks[x] == kids[x]
        invariant Halfway(l, c, ks, ports, queue, inbox)
      {
        inbox := ConnectNext(c, kids[j], inbox, l, ks);
        ks := ks + [kids[j]];
        j := j + 1;
      }
      assert ks == kids;
    }

    // An activated reducer acts on what is in its inbox, from the front.
    method Activate(c: nat, inbox: seq<Dev>)
      requires c in reducers && reducers[c].devs == [] && |inbox| < reducers[c].need
      modifies this`ports, this`reducers
      ensures ports == old(ports) && reducers == old(reducers)[c := Reducer(old(reducers)[c].need, inbox)]
    {
      var i := 0;
      while i < |inbox|
        invariant i <= |inbox| && c in reducers && ports == old(ports)
        invariant reducers == old(reducers)[c := Reducer(old(reducers)[c].need, inbox[..i])]
      {
        var out := Act(c, inbox[i]);
        i := i + 1;
        assert inbox[..i] == inbox[..i - 1] + [inbox[i - 1]];
      }
      assert inbox[..i] == inbox;
    }

    // The reducer of the next reduction, active and with what was queued for it.
    method Prepare() returns (inbox: seq<Dev>)
      requires Distinct(kids) && Sparse(Value())
      modifies this`count, this`ports, this`queue, this`reducers
      ensures Halfway(Emplaced(old(Value())), old(count), kids, ports, queue, inbox)
      ensures Value() == Fed(old(Value()), ports, queue, inbox)
    {
      var c := count;
      count := count + 1;
      reducers := reducers[c := Reducer(|kids| + 1, [])];
      ghost var l := old(Value());
      assert Value() == Emplaced(l);
      inbox := Open(c);
      HalfwayDone(l, ports, queue, inbox);
      Activate(c, inbox);
    }

    method LocalContribution() returns (out: Option<Out>)
      requires Distinct(kids) && Sparse(Value())
      modifies this`count, this`ports, this`queue, this`reducers
      ensures (Value(), out) == Contribute(old(Value()))
    {
      var c := count;
      var inbox := Prepare();
      HalfwayDone(old(Value()), ports, queue, inbox);
      out := Act(c, Dev(mine, multiset{(mine, c)}));
    }
  }

  // ---------------------------------------------------------------- the calls are always safe

  lemma {:induction false} CollectedLength(kids: seq<nat>, queue: map<Port, seq<Bag>>, c: nat)
    requires forall x {:trigger kids[x]} :: 0 <= x < |kids| ==> |QueueOf(queue, Port(c, kids[x]))| <= 1
    ensures |Collected(kids, queue, c)| <= |kids|
    decreases |kids|
  {
    if kids != [] {
      var n := |kids| - 1;
      assert |QueueOf(queue, Port(c, kids[n]))| <= 1;
      CollectedLength(kids[..n], queue, c);
    }
  }

  /** In every reachable state every member can contribute: no child is listed twice, and no child
      has two values waiting for one port. */
  lemma AlwaysSafe(s: State, i: nat)
    requires Inv(s) && i < |s.locs|
    ensures Distinct(s.locs[i].kids) && Sparse(s.locs[i])
  {
    var l := s.locs[i];
    forall x, y | 0 <= x < y < |l.kids|
      ensures l.kids[x] != l.kids[y]
    {
      KidsAreChildren(s, i, l.kids[x]);
      assert multiset(l.kids)[l.kids[x]] == 1;
      assert l.kids == l.kids[..y] + [l.kids[y]] + l.kids[y + 1..];
      assert l.kids[x] in l.kids[..y];
    }
    forall x | 0 <= x < |l.kids|
      ensures |QueueOf(l.queue, Port(l.count, l.kids[x]))| <= 1
    {
      KidsAreChildren(s, i, l.kids[x]);
      assert EdgeOk(s, l.kids[x], l.count);
    }
    CollectedLength(l.kids, l.queue, l.count);
  }
}
