/** A component with several ports collects sets of values, one from each port, and acts on a set
    once it is complete and the component is active.

    The sets are kept in a deque. A new set enters at the front; a value for a port goes to the
    hindmost set that lacks it; complete sets are looked for from the front. */
module Inbox {
  import opened Common

  // A value, and a set of values with a place for each port.
  type Val = nat
  type Set = seq<Option<Val>>

  datatype Box = Box(sets: seq<Set>, active: bool, persistent: bool)

  // What an operation leaves, the sets that were acted on, and the sets that were handed back.
  datatype Outcome = Outcome(box: Box, acted: seq<Set>, returned: seq<Set>)

  predicate IsReady(s: Set) {
    forall i :: 0 <= i < |s| ==> s[i].Some?
  }

  // The last set without a value for port i, or -1.
  function FindGap(sets: seq<Set>, i: nat): (r: int)
    requires forall p :: 0 <= p < |sets| ==> i < |sets[p]|
    ensures -1 <= r < |sets| && (r >= 0 ==> sets[r][i].None?)
    ensures forall p :: r < p < |sets| ==> sets[p][i].Some?
  {
    if sets == [] then -1
    else
      var n := |sets| - 1;
      if sets[n][i].None? then n else FindGap(sets[..n], i)
  }

  // The first complete set, or the length.
  function FindReady(sets: seq<Set>): (r: nat)
    ensures r <= |sets| && (r < |sets| ==> IsReady(sets[r]))
    ensures forall p :: 0 <= p < r ==> !IsReady(sets[p])
  {
    if sets == [] || IsReady(sets[0]) then 0
    else
      var r := FindReady(sets[1..]);
      assert forall p :: 0 < p < r + 1 ==> sets[p] == sets[1..][p - 1];
      1 + r
  }

  // The component acts on a set, the rest staying behind; unless it is persistent it is done then,
  // and hands back what it has not used.
  function Acted(b: Box, s: Set, rest: seq<Set>): Outcome {
    if b.persistent then Outcome(b.(sets := rest), [s], []) else Outcome(b.(sets := [], active := false), [s], rest)
  }

  function Only(m: nat, i: nat, v: Val): Set {
    seq(m, j => if j == i then Some(v) else None)
  }

  // A value arrives at port i of m.
  function Accept(b: Box, m: nat, i: nat, v: Val): Outcome
    requires i < m && forall p :: 0 <= p < |b.sets| ==> |b.sets[p]| == m
  {
    if m == 1 then
      if b.active then Acted(b, [Some(v)], b.sets) else Outcome(b.(sets := [[Some(v)]] + b.sets), [], [])
    else
      var p := FindGap(b.sets, i);
      if p == -1 then Outcome(b.(sets := [Only(m, i, v)] + b.sets), [], [])
      else
        var s := b.sets[p][i := Some(v)];
        if b.active && IsReady(s) then Acted(b, s, Without(b.sets, p))
        else Outcome(b.(sets := b.sets[p := s]), [], [])
  }

  function Then(a: Outcome, b: Outcome): Outcome {
    Outcome(b.box, a.acted + b.acted, a.returned + b.returned)
  }

  // An active component acts on its complete sets, front to back, until it is done.
  function Drain(b: Box): Outcome
    decreases |b.sets|
  {
    var p := FindReady(b.sets);
    if !b.active || p == |b.sets| then Outcome(b, [], [])
    else
      var o := Acted(b, b.sets[p], Without(b.sets, p));
      Then(o, Drain(o.box))
  }

  function Activated(b: Box): Outcome {
    Drain(b.(active := true))
  }

  // An invalidation, or the end: everything is handed back.
  function Deactivate(b: Box): Outcome {
    Outcome(b.(sets := [], active := false), [], b.sets)
  }

  // ---------------------------------------------------------------- a zip of queues

  // The values that have arrived at each port, in order.
  type Ports = seq<seq<Val>>

  // Set number t pairs value number t of each port.
  function Row(ports: Ports, t: nat): Set {
    seq(|ports|, i requires 0 <= i < |ports| => if t < |ports[i]| then Some(ports[i][t]) else None)
  }

  function Arrived(ports: Ports, i: nat, v: Val): Ports
    requires i < |ports|
  {
    ports[i := ports[i] + [v]]
  }

  // Since the component last handed everything back, `ports` has arrived and the sets below `done`
  // have been acted on: what is stored are the sets from `done` on, the newest first; no complete set
  // is left waiting while the component is active.
  ghost predicate Tracks(b: Box, ports: Ports, done: nat) {
    var n := done + |b.sets|;
    && |ports| > 0
    && (forall i {:trigger ports[i]} :: 0 <= i < |ports| ==> done <= |ports[i]| <= n)
    && (forall p {:trigger b.sets[p]} :: 0 <= p < |b.sets| ==> b.sets[p] == Row(ports, n - 1 - p))
    && (b.active ==> exists i :: 0 <= i < |ports| && |ports[i]| == done)
  }

  lemma RowReady(ports: Ports, t: nat)
    ensures IsReady(Row(ports, t)) <==> forall i :: 0 <= i < |ports| ==> t < |ports[i]|
  {
    if IsReady(Row(ports, t)) {
      forall i | 0 <= i < |ports|
        ensures t < |ports[i]|
      {
        assert Row(ports, t)[i].Some?;
      }
    }
  }

  lemma GapAt(b: Box, ports: Ports, done: nat, i: nat)
    requires Tracks(b, ports, done) && i < |ports|
    ensures forall p :: 0 <= p < |b.sets| ==> |b.sets[p]| == |ports|
    ensures FindGap(b.sets, i) == if |ports[i]| == done + |b.sets| then -1 else done + |b.sets| - 1 - |ports[i]|
  {
    var n, p := done + |b.sets|, FindGap(b.sets, i);
    if p >= 0 {
      assert Row(ports, n - 1 - p)[i].None?;
    }
    if |ports[i]| < n {
      var q := n - 1 - |ports[i]|;
      assert b.sets[q] == Row(ports, |ports[i]|);
      assert b.sets[q][i].None?;
    }
  }

  // The new value changes one set only.
  lemma RowArrived(ports: Ports, i: nat, v: Val, t: nat)
    requires i < |ports|
    ensures Row(Arrived(ports, i, v), t) == if t == |ports[i]| then Row(ports, t)[i := Some(v)] else Row(ports, t)
  {
  }

  lemma NewRow(ports: Ports, i: nat, v: Val, n: nat)
    requires i < |ports| && |ports[i]| == n && forall j :: 0 <= j < |ports| ==> |ports[j]| <= n
    ensures Row(Arrived(ports, i, v), n) == Only(|ports|, i, v)
  {
  }

  /** Values are paired by their numbers: a value arriving is stored in, or completes, the set with
      its own number; and an active component that is persistent acts on the sets in order. */
  lemma AcceptTracks(b: Box, ports: Ports, done: nat, i: nat, v: Val)
    requires Tracks(b, ports, done) && i < |ports| && |ports| > 1
    ensures forall p :: 0 <= p < |b.sets| ==> |b.sets[p]| == |ports|
    ensures var o, now := Accept(b, |ports|, i, v), Arrived(ports, i, v);
      if b.active && IsReady(Row(now, done)) then
        o.acted == [Row(now, done)]
        && (b.persistent ==> o.returned == [] && Tracks(o.box, now, done + 1))
        && (!b.persistent ==> o.returned == b.sets[..|b.sets| - 1] && o.box.sets == [] && !o.box.active)
      else o.acted == [] && o.returned == [] && Tracks(o.box, now, done)
  {
    var now := Arrived(ports, i, v);
    GapAt(b, ports, done, i);
    if |ports[i]| == done + |b.sets| {
      NewSet(b, ports, done, i, v);
    } else {
      FilledSet(b, ports, done, i, v);
      if b.active && IsReady(Row(now, |ports[i]|)) {
        SetCompletes(b, ports, done, i, v);
      } else {
        SetWaits(b, ports, done, i, v);
      }
    }
  }

  lemma NewSet(b: Box, ports: Ports, done: nat, i: nat, v: Val)
    requires Tracks(b, ports, done) && i < |ports| && |ports| > 1 && |ports[i]| == done + |b.sets|
    ensures var now := Arrived(ports, i, v);
      Tracks(b.(sets := [Only(|ports|, i, v)] + b.sets), now, done) && (b.active ==> !IsReady(Row(now, done)))
  {
    var n, now := done + |b.sets|, Arrived(ports, i, v);
    var sets := [Only(|ports|, i, v)] + b.sets;
    NewRow(ports, i, v, n);
    RowReady(now, done);
    forall p | 0 <= p < |sets|
      ensures sets[p] == Row(now, n - p)
    {
      RowArrived(ports, i, v, n - p);
    }
    if b.active {
      var j :| 0 <= j < |ports| && |ports[j]| == done;
      var k := if j == i then (if i == 0 then 1 else 0) else j;
      assert |now[k]| == |ports[k]|;
      assert |ports[k]| <= n;
    }
  }

  lemma FilledSet(b: Box, ports: Ports, done: nat, i: nat, v: Val)
    requires Tracks(b, ports, done) && i < |ports| && |ports| > 1 && |ports[i]| < done + |b.sets|
    ensures var now, p := Arrived(ports, i, v), done + |b.sets| - 1 - |ports[i]|;
      b.sets[p][i := Some(v)] == Row(now, |ports[i]|)
  {
    RowArrived(ports, i, v, |ports[i]|);
  }

  /** With one port every value is a set: an active component acts on it at once, an inactive one stores
      it in front. */
  lemma OnePortTracks(b: Box, ports: Ports, done: nat, v: Val)
    requires |ports| == 1 && Tracks(b, ports, done) && |ports[0]| == done + |b.sets|
    ensures Wide(b, 1)
    ensures var o, now := Accept(b, 1, 0, v), Arrived(ports, 0, v);
      && (b.active ==> o.acted == [Row(now, done)] && o.returned == [])
      && (!b.active ==> o.acted == [] && o.returned == [])
      && (b.active && b.persistent ==> Tracks(o.box, now, done + 1) && o.box.sets == [])
      && (b.active && !b.persistent ==> o.box.sets == [] && !o.box.active)
      && (!b.active ==> Tracks(o.box, now, done) && |now[0]| == done + |o.box.sets|)
  {
    var n, now := done + |b.sets|, Arrived(ports, 0, v);
    assert Row(now, n) == [Some(v)];
    forall t: nat | t < n
      ensures Row(now, t) == Row(ports, t)
    {
      RowArrived(ports, 0, v, t);
    }
    var sets := [[Some(v)]] + b.sets;
    forall p | 0 <= p < |sets|
      ensures sets[p] == Row(now, n - p)
    {
      assert p > 0 ==> sets[p] == b.sets[p - 1];
    }
  }

  // An active component only ever completes its oldest set.
  lemma OldestCompletes(b: Box, ports: Ports, done: nat, i: nat, v: Val)
    requires Tracks(b, ports, done) && i < |ports| && b.active
    ensures IsReady(Row(Arrived(ports, i, v), |ports[i]|)) ==> |ports[i]| == done
    ensures IsReady(Row(Arrived(ports, i, v), done)) ==> |ports[i]| == done
  {
    var now := Arrived(ports, i, v);
    RowReady(now, |ports[i]|);
    RowReady(now, done);
    var j :| 0 <= j < |ports| && |ports[j]| == done;
    assert j != i ==> |now[j]| == done;
  }

  lemma SetCompletes(b: Box, ports: Ports, done: nat, i: nat, v: Val)
    requires Tracks(b, ports, done) && i < |ports| && |ports[i]| < done + |b.sets|
    requires b.active && IsReady(Row(Arrived(ports, i, v), |ports[i]|))
    ensures |ports[i]| == done && Without(b.sets, |b.sets| - 1) == b.sets[..|b.sets| - 1]
    ensures Tracks(b.(sets := b.sets[..|b.sets| - 1]), Arrived(ports, i, v), done + 1)
  {
    var now, n := Arrived(ports, i, v), done + |b.sets|;
    OldestCompletes(b, ports, done, i, v);
    RowReady(now, done);
    var sets := b.sets[..|b.sets| - 1];
    forall p | 0 <= p < |sets|
      ensures sets[p] == Row(now, n - 1 - p)
    {
      RowArrived(ports, i, v, n - 1 - p);
    }
    assert |now[i]| == done + 1;
  }

  lemma SetWaits(b: Box, ports: Ports, done: nat, i: nat, v: Val)
    requires Tracks(b, ports, done) && i < |ports| && |ports[i]| < done + |b.sets|
    requires !(b.active && IsReady(Row(Arrived(ports, i, v), |ports[i]|)))
    ensures var now, p := Arrived(ports, i, v), done + |b.sets| - 1 - |ports[i]|;
      Tracks(b.(sets := b.sets[p := Row(now, |ports[i]|)]), now, done) && !(b.active && IsReady(Row(now, done)))
  {
    var now, n := Arrived(ports, i, v), done + |b.sets|;
    var sets := b.sets[n - 1 - |ports[i]| := Row(now, |ports[i]|)];
    forall p | 0 <= p < |sets|
      ensures sets[p] == Row(now, n - 1 - p)
    {
      RowArrived(ports, i, v, n - 1 - p);
    }
    if b.active {
      OldestCompletes(b, ports, done, i, v);
      RowReady(now, done);
      var k :| 0 <= k < |now| && |now[k]| <= done;
      assert |now[k]| == done;
    }
  }

  // ---------------------------------------------------------------- activation

  lemma ReadyFrom(sets: seq<Set>, r: nat)
    requires r <= |sets| && (forall p :: 0 <= p < r ==> !IsReady(sets[p])) && (r < |sets| ==> IsReady(sets[r]))
    ensures FindReady(sets) == r
  {
  }

  lemma DrainOne(b: Box)
    requires b.active && !b.persistent && FindReady(b.sets) < |b.sets|
    ensures var p := FindReady(b.sets);
      Drain(b) == Outcome(b.(sets := [], active := false), [b.sets[p]], Without(b.sets, p))
  {
    var p := FindReady(b.sets);
    var o := Acted(b, b.sets[p], Without(b.sets, p));
    assert Drain(o.box) == Outcome(o.box, [], []);
  }

  lemma {:induction false} DrainsBack(b: Box, a: seq<Set>, c: seq<Set>)
    requires b.active && b.persistent && b.sets == a + c
    requires (forall p :: 0 <= p < |a| ==> !IsReady(a[p])) && forall p :: 0 <= p < |c| ==> IsReady(c[p])
    ensures Drain(b) == Outcome(b.(sets := a), c, [])
    decreases |c|
  {
    if c == [] {
      assert b.sets == a;
    } else {
      assert b.sets[|a|] == c[0];
      ReadyFrom(b.sets, |a|);
      assert Without(b.sets, |a|) == a + c[1..];
      DrainsBack(b.(sets := a + c[1..]), a, c[1..]);
      assert [c[0]] + c[1..] == c;
    }
  }

  function Least(ports: Ports): nat
    requires |ports| > 0
  {
    var n, rest := |ports[|ports| - 1]|, ports[..|ports| - 1];
    if rest == [] then n else if Least(rest) < n then Least(rest) else n
  }

  lemma {:induction false} LeastIs(ports: Ports)
    requires |ports| > 0
    ensures forall i :: 0 <= i < |ports| ==> Least(ports) <= |ports[i]|
    ensures exists i :: 0 <= i < |ports| && |ports[i]| == Least(ports)
    decreases |ports|
  {
    var rest := ports[..|ports| - 1];
    if rest == [] {
      assert |ports[0]| == Least(ports);
    } else {
      LeastIs(rest);
      var i :| 0 <= i < |rest| && |rest[i]| == Least(rest);
      assert ports[i] == rest[i];
      if Least(rest) >= |ports[|ports| - 1]| {
        assert |ports[|ports| - 1]| == Least(ports);
      }
    }
  }

  // The complete sets from number `from` up to `to`, the newest first.
  function Newest(ports: Ports, from: nat, to: nat): seq<Set>
    requires from <= to
  {
    seq(to - from, j requires 0 <= j < to - from => Row(ports, to - 1 - j))
  }

  // Exactly the sets below the least number of arrivals are complete.
  lemma CompleteSets(b: Box, ports: Ports, done: nat, p: nat)
    requires Tracks(b, ports, done) && p < |b.sets|
    ensures done <= Least(ports) <= done + |b.sets|
    ensures IsReady(b.sets[p]) <==> p >= done + |b.sets| - Least(ports)
  {
    LeastIs(ports);
    var i :| 0 <= i < |ports| && |ports[i]| == Least(ports);
    var t := done + |b.sets| - 1 - p;
    RowReady(ports, t);
    assert b.sets[p] == Row(ports, t);
  }

  lemma LeastWithin(b: Box, ports: Ports, done: nat)
    requires Tracks(b, ports, done)
    ensures done <= Least(ports) <= done + |b.sets|
  {
    LeastIs(ports);
    var i :| 0 <= i < |ports| && |ports[i]| == Least(ports);
  }

  lemma StillTracks(b: Box, ports: Ports, done: nat)
    requires Tracks(b, ports, done) && done <= Least(ports) <= done + |b.sets|
    ensures Tracks(b.(active := true, sets := b.sets[..done + |b.sets| - Least(ports)]), ports, Least(ports))
  {
    LeastIs(ports);
    var now := b.(active := true, sets := b.sets[..done + |b.sets| - Least(ports)]);
    assert Least(ports) + |now.sets| == done + |b.sets|;
    forall p | 0 <= p < |now.sets|
      ensures now.sets[p] == Row(ports, done + |b.sets| - 1 - p)
    {
      assert now.sets[p] == b.sets[p];
    }
  }

  /** Activation of a persistent component: it acts on all the sets that were completed in the
      meantime, the newest first. */
  lemma PersistentActivates(b: Box, ports: Ports, done: nat)
    requires Tracks(b, ports, done) && !b.active && b.persistent
    ensures done <= Least(ports)
    ensures var o := Activated(b);
      o.acted == Newest(ports, done, Least(ports)) && o.returned == [] && Tracks(o.box, ports, Least(ports))
  {
    LeastWithin(b, ports, done);
    var x := done + |b.sets| - Least(ports);
    var a, c := b.sets[..x], b.sets[x..];
    forall p | 0 <= p < |b.sets|
      ensures IsReady(b.sets[p]) <==> p >= x
    {
      CompleteSets(b, ports, done, p);
    }
    assert forall p :: 0 <= p < |a| ==> a[p] == b.sets[p];
    assert forall p :: 0 <= p < |c| ==> c[p] == b.sets[x + p];
    assert b.sets == a + c;
    DrainsBack(b.(active := true), a, c);
    StillTracks(b, ports, done);
    CompletedSince(b, ports, done);
  }

  // The complete sets from number `from` up to `to`, the oldest first.
  function Oldest(ports: Ports, from: nat, to: nat): seq<Set>
    requires from <= to
  {
    seq(to - from, j requires 0 <= j < to - from => Row(ports, from + j))
  }

  // A port whose values differ tells the sets apart.
  lemma RowsDiffer(ports: Ports, i: nat, s: nat, t: nat)
    requires i < |ports| && Distinct(ports[i]) && s < |ports[i]| && t < |ports[i]| && s != t
    ensures Row(ports, s) != Row(ports, t)
  {
    assert Row(ports, s)[i] == Some(ports[i][s]) && Row(ports, t)[i] == Some(ports[i][t]);
  }

  lemma OrderMatters(ports: Ports, from: nat, to: nat, i: nat)
    requires from <= to && i < |ports| && to <= |ports[i]| && Distinct(ports[i])
    ensures Newest(ports, from, to) == Oldest(ports, from, to) <==> to <= from + 1
  {
    var newest, oldest := Newest(ports, from, to), Oldest(ports, from, to);
    if to > from + 1 {
      assert newest[0] == Row(ports, to - 1) && oldest[0] == Row(ports, from);
      RowsDiffer(ports, i, to - 1, from);
    }
  }

  /** That is the order of the zip exactly if at most one set was completed in the meantime; the sets are
      told apart by some port whose values differ. */
  lemma ActivatesInOrderIff(b: Box, ports: Ports, done: nat, i: nat)
    requires Tracks(b, ports, done) && !b.active && b.persistent
    requires i < |ports| && Distinct(ports[i])
    ensures done <= Least(ports)
    ensures Activated(b).acted == Oldest(ports, done, Least(ports)) <==> Least(ports) <= done + 1
  {
    assert done <= Least(ports) && Activated(b).acted == Newest(ports, done, Least(ports)) by {
      PersistentActivates(b, ports, done);
    }
    assert Least(ports) <= |ports[i]| by {
      LeastIs(ports);
    }
    OrderMatters(ports, done, Least(ports), i);
  }

  lemma CompletedSince(b: Box, ports: Ports, done: nat)
    requires Tracks(b, ports, done) && done <= Least(ports) <= done + |b.sets|
    ensures b.sets[done + |b.sets| - Least(ports)..] == Newest(ports, done, Least(ports))
  {
    var c := b.sets[done + |b.sets| - Least(ports)..];
    forall j | 0 <= j < |c|
      ensures c[j] == Row(ports, Least(ports) - 1 - j)
    {
      assert c[j] == b.sets[done + |b.sets| - Least(ports) + j];
    }
  }

  /** Activation of a component that is not persistent: it acts on the newest complete set, and hands
      all others back; without a complete set it stays active and waits. */
  lemma OnceActivates(b: Box, ports: Ports, done: nat)
    requires Tracks(b, ports, done) && !b.active && !b.persistent
    ensures done <= Least(ports) <= done + |b.sets|
    ensures Activated(b) == if done == Least(ports) then Outcome(b.(active := true), [], [])
      else Outcome(b.(sets := []), [Row(ports, Least(ports) - 1)], Without(b.sets, done + |b.sets| - Least(ports)))
  {
    LeastWithin(b, ports, done);
    var x := done + |b.sets| - Least(ports);
    forall p | 0 <= p < |b.sets|
      ensures IsReady(b.sets[p]) <==> p >= x
    {
      CompleteSets(b, ports, done, p);
    }
    ReadyFrom(b.sets, x);
    if done < Least(ports) {
      DrainOne(b.(active := true));
      assert b.sets[x] == Row(ports, Least(ports) - 1);
    }
  }

  // ---------------------------------------------------------------- runs

  datatype Arrival = Arrival(port: nat, val: Val)

  function Queue(arrivals: seq<Arrival>, i: nat): seq<Val> {
    if arrivals == [] then []
    else
      var n := |arrivals| - 1;
      Queue(arrivals[..n], i) + if arrivals[n].port == i then [arrivals[n].val] else []
  }

  function Queues(arrivals: seq<Arrival>, m: nat): Ports {
    seq(m, i requires 0 <= i < m => Queue(arrivals, i))
  }

  // The first k sets of the zip.
  function Zip(ports: Ports, k: nat): seq<Set> {
    seq(k, t requires 0 <= t < k => Row(ports, t))
  }

  predicate Wide(b: Box, m: nat) {
    forall p :: 0 <= p < |b.sets| ==> |b.sets[p]| == m
  }

  lemma AcceptWide(b: Box, m: nat, i: nat, v: Val)
    requires i < m && Wide(b, m)
    ensures Wide(Accept(b, m, i, v).box, m)
  {
    var after := Accept(b, m, i, v).box;
    forall p | 0 <= p < |after.sets|
      ensures |after.sets[p]| == m
    {
      assert p < |b.sets| ==> |b.sets[p]| == m;
      assert p + 1 < |b.sets| ==> |b.sets[p + 1]| == m;
      assert 0 < p <= |b.sets| ==> |b.sets[p - 1]| == m;
    }
  }

  function Run(m: nat, arrivals: seq<Arrival>): (o: Outcome)
    requires forall x :: 0 <= x < |arrivals| ==> arrivals[x].port < m
    ensures Wide(o.box, m)
    decreases |arrivals|
  {
    if arrivals == [] then Outcome(Box([], true, true), [], [])
    else
      var n := |arrivals| - 1;
      var o := Run(m, arrivals[..n]);
      AcceptWide(o.box, m, arrivals[n].port, arrivals[n].val);
      Then(o, Accept(o.box, m, arrivals[n].port, arrivals[n].val))
  }

  lemma QueuesNext(arrivals: seq<Arrival>, m: nat)
    requires arrivals != [] && arrivals[|arrivals| - 1].port < m
    ensures var n := |arrivals| - 1;
      Queues(arrivals, m) == Arrived(Queues(arrivals[..n], m), arrivals[n].port, arrivals[n].val)
  {
    var n := |arrivals| - 1;
    var now := Arrived(Queues(arrivals[..n], m), arrivals[n].port, arrivals[n].val);
    forall i | 0 <= i < m
      ensures Queues(arrivals, m)[i] == now[i]
    {
      assert Queue(arrivals, i) == now[i];
    }
  }

  lemma ZipGrows(ports: Ports, i: nat, v: Val, k: nat)
    requires i < |ports| && k <= |ports[i]|
    ensures Zip(Arrived(ports, i, v), k) == Zip(ports, k)
  {
    forall t | 0 <= t < k
      ensures Row(Arrived(ports, i, v), t) == Row(ports, t)
    {
      RowArrived(ports, i, v, t);
    }
  }

  lemma ZipNext(ports: Ports, k: nat)
    ensures Zip(ports, k) + [Row(ports, k)] == Zip(ports, k + 1)
  {
  }

  /** A zip of queues. A persistent component that is active throughout acts on the sets in order:
      set number t holds value number t of each port; it acts on as many as all ports can fill, and
      hands nothing back. */
  lemma {:induction false} ZipOfQueues(m: nat, arrivals: seq<Arrival>)
    requires m > 1 && forall x :: 0 <= x < |arrivals| ==> arrivals[x].port < m
    ensures var o, ports := Run(m, arrivals), Queues(arrivals, m);
      o.acted == Zip(ports, Least(ports)) && o.returned == [] && o.box.active && o.box.persistent
        && Tracks(o.box, ports, Least(ports))
    decreases |arrivals|
  {
    var ports := Queues(arrivals, m);
    LeastIs(ports);
    if arrivals == [] {
      assert |ports[0]| == 0;
    } else {
      var n := |arrivals| - 1;
      var before, o, last := Queues(arrivals[..n], m), Run(m, arrivals[..n]), arrivals[n];
      ZipOfQueues(m, arrivals[..n]);
      QueuesNext(arrivals, m);
      ZipStep(o.box, before, last.port, last.val);
    }
  }

  lemma ZipStep(b: Box, ports: Ports, i: nat, v: Val)
    requires |ports| > 1 && i < |ports| && b.active && b.persistent && Tracks(b, ports, Least(ports))
    ensures Wide(b, |ports|)
    ensures var o, now := Accept(b, |ports|, i, v), Arrived(ports, i, v);
      && Zip(ports, Least(ports)) + o.acted == Zip(now, Least(now)) && o.returned == []
      && o.box.active && o.box.persistent && Tracks(o.box, now, Least(now))
  {
    var now, l := Arrived(ports, i, v), Least(ports);
    AcceptTracks(b, ports, l, i, v);
    NextLeast(ports, i, v);
    assert l <= |ports[i]|;
    assert Zip(ports, l) == Zip(now, l) == Zip(now, l) + [] && Zip(now, l) + [Row(now, l)] == Zip(now, l + 1) by {
      ZipGrows(ports, i, v, l);
      ZipNext(now, l);
    }
  }

  lemma NextLeast(ports: Ports, i: nat, v: Val)
    requires i < |ports|
    ensures var now := Arrived(ports, i, v);
      Least(now) == if IsReady(Row(now, Least(ports))) then Least(ports) + 1 else Least(ports)
  {
    var now := Arrived(ports, i, v);
    LeastIs(ports);
    LeastIs(now);
    RowReady(now, Least(ports));
    var j :| 0 <= j < |ports| && |ports[j]| == Least(ports);
    assert |now[j]| <= Least(ports) + 1;
  }

  // ---------------------------------------------------------------- nothing is lost

  // How often value v for port i is in a set.
  function Content(s: Set, i: nat, v: Val): nat {
    if i < |s| && s[i] == Some(v) then 1 else 0
  }

  // How often it is in the first n sets.
  function HeldIn(sets: seq<Set>, n: nat, i: nat, v: Val): nat
    requires n <= |sets|
  {
    if n == 0 then 0 else HeldIn(sets, n - 1, i, v) + Content(sets[n - 1], i, v)
  }

  function Held(sets: seq<Set>, i: nat, v: Val): nat {
    HeldIn(sets, |sets|, i, v)
  }

  lemma {:induction false} HeldInPrefix(a: seq<Set>, b: seq<Set>, n: nat, i: nat, v: Val)
    requires n <= |a| && n <= |b| && forall p :: 0 <= p < n ==> a[p] == b[p]
    ensures HeldIn(a, n, i, v) == HeldIn(b, n, i, v)
  {
    if n > 0 {
      HeldInPrefix(a, b, n - 1, i, v);
    }
  }

  lemma {:induction false} HeldInConcat(a: seq<Set>, b: seq<Set>, n: nat, i: nat, v: Val)
    requires n <= |b|
    ensures HeldIn(a + b, |a| + n, i, v) == Held(a, i, v) + HeldIn(b, n, i, v)
  {
    if n == 0 {
      HeldInPrefix(a, a + b, |a|, i, v);
    } else {
      HeldInConcat(a, b, n - 1, i, v);
      assert (a + b)[|a| + n - 1] == b[n - 1];
    }
  }

  lemma HeldConcat(a: seq<Set>, b: seq<Set>, i: nat, v: Val)
    ensures Held(a + b, i, v) == Held(a, i, v) + Held(b, i, v)
  {
    HeldInConcat(a, b, |b|, i, v);
  }

  lemma {:induction false} HeldInWithout(sets: seq<Set>, p: nat, n: nat, i: nat, v: Val)
    requires p < n <= |sets|
    ensures HeldIn(sets, n, i, v) == HeldIn(Without(sets, p), n - 1, i, v) + Content(sets[p], i, v)
  {
    if n == p + 1 {
      HeldInPrefix(Without(sets, p), sets, p, i, v);
    } else {
      HeldInWithout(sets, p, n - 1, i, v);
      assert Without(sets, p)[n - 2] == sets[n - 1];
    }
  }

  lemma HeldWithout(sets: seq<Set>, p: nat, i: nat, v: Val)
    requires p < |sets|
    ensures Held(sets, i, v) == Held(Without(sets, p), i, v) + Content(sets[p], i, v)
  {
    HeldInWithout(sets, p, |sets|, i, v);
  }

  // How often a value is in an outcome: stored, acted on, or handed back.
  function Total(o: Outcome, i: nat, v: Val): nat {
    Held(o.box.sets, i, v) + Held(o.acted, i, v) + Held(o.returned, i, v)
  }

  lemma ActedConserves(b: Box, s: Set, rest: seq<Set>, i: nat, v: Val)
    ensures Total(Acted(b, s, rest), i, v) == Held(rest, i, v) + Content(s, i, v)
  {
    assert HeldIn([s], 1, i, v) == Content(s, i, v);
  }

  // A set that is new, at the front.
  lemma NewConserves(sets: seq<Set>, m: nat, i: nat, v: Val, j: nat, u: Val)
    requires i < m
    ensures Held([Only(m, i, v)] + sets, j, u) == Held(sets, j, u) + if (j, u) == (i, v) then 1 else 0
  {
    var s := Only(m, i, v);
    HeldConcat([s], sets, j, u);
    assert HeldIn([s], 1, j, u) == Content(s, j, u);
  }

  // A set that gets one more value, in its place.
  lemma FilledConserves(sets: seq<Set>, p: nat, i: nat, v: Val, j: nat, u: Val)
    requires p < |sets| && i < |sets[p]| && sets[p][i].None?
    ensures var s, more := sets[p][i := Some(v)], if (j, u) == (i, v) then 1 else 0;
      && Held(Without(sets, p), j, u) + Content(s, j, u) == Held(sets, j, u) + more
      && Held(sets[p := s], j, u) == Held(sets, j, u) + more
  {
    var s := sets[p][i := Some(v)];
    HeldWithout(sets, p, j, u);
    HeldWithout(sets[p := s], p, j, u);
    assert Without(sets[p := s], p) == Without(sets, p);
  }

  /** Each value that arrives is, once, in a set that is acted on, stored, or handed back; and so it is
      with the values that were there before. */
  lemma AcceptConserves(b: Box, m: nat, i: nat, v: Val, j: nat, u: Val)
    requires i < m && Wide(b, m)
    ensures Total(Accept(b, m, i, v), j, u) == Held(b.sets, j, u) + if (j, u) == (i, v) then 1 else 0
  {
    if m == 1 {
      assert Only(m, i, v) == [Some(v)];
      NewConserves(b.sets, m, i, v, j, u);
      ActedConserves(b, [Some(v)], b.sets, j, u);
    } else if FindGap(b.sets, i) == -1 {
      NewConserves(b.sets, m, i, v, j, u);
    } else {
      var p := FindGap(b.sets, i);
      FilledConserves(b.sets, p, i, v, j, u);
      ActedConserves(b, b.sets[p][i := Some(v)], Without(b.sets, p), j, u);
    }
  }

  lemma {:induction false} DrainConserves(b: Box, i: nat, v: Val)
    ensures Total(Drain(b), i, v) == Held(b.sets, i, v)
    decreases |b.sets|
  {
    var p := FindReady(b.sets);
    if b.active && p < |b.sets| {
      var o := Acted(b, b.sets[p], Without(b.sets, p));
      DrainConserves(o.box, i, v);
      HeldWithout(b.sets, p, i, v);
      ActedConserves(b, b.sets[p], Without(b.sets, p), i, v);
      HeldConcat(o.acted, Drain(o.box).acted, i, v);
      HeldConcat(o.returned, Drain(o.box).returned, i, v);
    }
  }

  // ---------------------------------------------------------------- the component

  class Component {
    const inputs: nat
    const persistent: bool
    var incoming: seq<Set>
    var active: bool
    var activated: bool

    constructor (inputs: nat, persistent: bool)
      ensures this.inputs == inputs && this.persistent == persistent && Contents() == Box([], false, persistent)
        && !activated
    {
      this.inputs, this.persistent := inputs, persistent;
      incoming, active, activated := [], false, false;
    }

    function Contents(): Box
      reads this
    {
      Box(incoming, active, persistent)
    }

    predicate Valid()
      reads this
    {
      Wide(Contents(), inputs)
    }

    // The component acts on set p, or on a set that was never stored.
    method Stage(s: Set, rest: seq<Set>) returns (acted: seq<Set>, returned: seq<Set>)
      modifies this`incoming, this`active
      ensures Outcome(Contents(), acted, returned) == Acted(old(Contents()), s, rest)
    {
      acted, returned := [s], [];
      incoming := rest;
      if !persistent {
        returned := EmptyBuffers();
      }
    }

    method EmptyBuffers() returns (returned: seq<Set>)
      modifies this`incoming, this`active
      ensures Outcome(Contents(), [], returned) == Deactivate(old(Contents()))
    {
      active := false;
      returned := incoming;
      incoming := [];
    }

    method FindGapFor(i: nat) returns (p: int)
      requires Valid() && i < inputs
      ensures p == FindGap(incoming, i)
    {
      p := |incoming| - 1;
      while p >= 0 && incoming[p][i].Some?
        invariant -1 <= p < |incoming| && FindGap(incoming, i) == FindGap(incoming[..p + 1], i)
      {
        assert incoming[..p + 1][..p] == incoming[..p];
        p := p - 1;
      }
      assert incoming[..|incoming|] == incoming;
    }

    method FindReadySet() returns (p: nat)
      ensures p == FindReady(incoming)
    {
      p := 0;
      while p < |incoming| && !IsReady(incoming[p])
        invariant p <= |incoming| && forall q :: 0 <= q < p ==> !IsReady(incoming[q])
      {
        p := p + 1;
      }
      ReadyFrom(incoming, p);
    }

    method AcceptValue(i: nat, v: Val) returns (acted: seq<Set>, returned: seq<Set>)
      requires Valid() && i < inputs
      modifies this`incoming, this`active
      ensures Valid() && Outcome(Contents(), acted, returned) == Accept(old(Contents()), inputs, i, v)
    {
      AcceptWide(Contents(), inputs, i, v);
      acted, returned := [], [];
      if inputs == 1 {
        if active {
          acted, returned := Stage([Some(v)], incoming);
        } else {
          incoming := [[Some(v)]] + incoming;
        }
        return;
      }
      var p := FindGapFor(i);
      if p == -1 {
        incoming := [Only(inputs, i, v)] + incoming;
        return;
      }
      var s := incoming[p][i := Some(v)];
      if active && IsReady(s) {
        acted, returned := Stage(s, Without(incoming, p));
      } else {
        incoming := incoming[p := s];
      }
    }

    method Activate() returns (acted: seq<Set>, returned: seq<Set>)
      requires !active
      modifies this
      ensures Outcome(Contents(), acted, returned) == Activated(old(Contents())) && activated
    {
      activated, active := true, true;
      acted, returned := [], [];
      ghost var start := Contents();
      var p := FindReadySet();
      while active && p < |incoming|
        invariant p == FindReady(incoming) && activated
        invariant Then(Outcome(Contents(), acted, returned), Drain(Contents())) == Drain(start)
        decreases |incoming|
      {
        ghost var before, was := Outcome(Contents(), acted, returned), Contents();
        var a, r := Stage(incoming[p], Without(incoming, p));
        StepDrains(before, was);
        acted, returned := acted + a, returned + r;
        p := FindReadySet();
      }
    }
  }

  lemma ThenAgain(a: Outcome, b: Outcome, c: Outcome)
    ensures Then(a, Then(b, c)) == Then(Outcome(b.box, a.acted + b.acted, a.returned + b.returned), c)
  {
    assert a.acted + (b.acted + c.acted) == a.acted + b.acted + c.acted;
    assert a.returned + (b.returned + c.returned) == a.returned + b.returned + c.returned;
  }

  // One more set acted on brings the loop closer to its end, and changes nothing else.
  lemma StepDrains(o: Outcome, b: Box)
    requires o.box == b && b.active && FindReady(b.sets) < |b.sets|
    ensures var one := Acted(b, b.sets[FindReady(b.sets)], Without(b.sets, FindReady(b.sets)));
      Then(o, Drain(b)) == Then(Outcome(one.box, o.acted + one.acted, o.returned + one.returned), Drain(one.box))
  {
    var one := Acted(b, b.sets[FindReady(b.sets)], Without(b.sets, FindReady(b.sets)));
    assert Drain(b) == Then(one, Drain(one.box));
    ThenAgain(o, one, Drain(one.box));
  }
}
