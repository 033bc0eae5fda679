/** Whole runs of a component: arrivals, activations and deactivations in any order, whether the component
    is persistent or not. The deque of sets refines one queue of values for each port. */
module InboxRuns {
  import opened Common
  import opened Inbox

  // Activation of a component that is active is an assertion failure in the source; here it does nothing.
  datatype Event = Arrives(port: nat, val: Val) | Activates | Deactivates

  predicate PortsExist(m: nat, events: seq<Event>) {
    forall x :: 0 <= x < |events| ==> events[x].Arrives? ==> events[x].port < m
  }

  // ---------------------------------------------------------------- with the deque of sets

  function Next(b: Box, m: nat, e: Event): (o: Outcome)
    requires Wide(b, m) && (e.Arrives? ==> e.port < m)
    ensures Wide(o.box, m)
  {
    match e
    case Arrives(i, v) =>
      AcceptWide(b, m, i, v);
      Accept(b, m, i, v)
    case Activates =>
      DrainWide(b.(active := true), m);
      if b.active then Outcome(b, [], []) else Activated(b)
    case Deactivates => Deactivate(b)
  }

  lemma {:induction false} DrainWide(b: Box, m: nat)
    requires Wide(b, m)
    ensures Wide(Drain(b).box, m)
    decreases |b.sets|
  {
    var p := FindReady(b.sets);
    if b.active && p < |b.sets| {
      DrainWide(Acted(b, b.sets[p], Without(b.sets, p)).box, m);
    }
  }

  function Run(m: nat, persistent: bool, events: seq<Event>): (o: Outcome)
    requires PortsExist(m, events)
    ensures Wide(o.box, m)
    decreases |events|
  {
    if events == [] then Outcome(Box([], false, persistent), [], [])
    else
      var o := Run(m, persistent, events[..|events| - 1]);
      Then(o, Next(o.box, m, events[|events| - 1]))
  }

  // ---------------------------------------------------------------- with a queue for each port

  // What has arrived at each port since everything was last handed back, and how many of the sets have
  // been acted on: set t is value t of each port.
  datatype Zipper = Zipper(ports: Ports, done: nat, active: bool)

  datatype Zipped = Zipped(zipper: Zipper, acted: seq<Set>, returned: seq<Set>)

  function Blank(m: nat): Zipper {
    Zipper(seq(m, i => []), 0, false)
  }

  function Longest(ports: Ports): nat {
    if ports == [] then 0
    else
      var n, rest := |ports[|ports| - 1]|, Longest(ports[..|ports| - 1]);
      if rest > n then rest else n
  }

  // The sets from number `from` up to `to`, the newest first.
  function Sets(ports: Ports, from: nat, to: nat): seq<Set> {
    if from <= to then Newest(ports, from, to) else []
  }

  function ZipNext(z: Zipper, persistent: bool, e: Event): Zipped
    requires |z.ports| > 0 && (e.Arrives? ==> e.port < |z.ports|)
  {
    var m := |z.ports|;
    match e
    case Arrives(i, v) =>
      var now := Arrived(z.ports, i, v);
      if !z.active || !IsReady(Row(now, z.done)) then Zipped(z.(ports := now), [], [])
      else if persistent then Zipped(z.(ports := now, done := z.done + 1), [Row(now, z.done)], [])
      else Zipped(Blank(m), [Row(now, z.done)], Sets(now, z.done + 1, Longest(now)))
    case Activates =>
      var least := Least(z.ports);
      if z.active then Zipped(z, [], [])
      else if persistent then Zipped(z.(done := least, active := true), Sets(z.ports, z.done, least), [])
      else if z.done >= least then Zipped(z.(active := true), [], [])
      else Zipped(Blank(m), [Row(z.ports, least - 1)], Sets(z.ports, least, Longest(z.ports))
        + Sets(z.ports, z.done, least - 1))
    case Deactivates => Zipped(Blank(m), [], Sets(z.ports, z.done, Longest(z.ports)))
  }

  function ZipRun(m: nat, persistent: bool, events: seq<Event>): (o: Zipped)
    requires m > 0 && PortsExist(m, events)
    ensures |o.zipper.ports| == m
    decreases |events|
  {
    if events == [] then Zipped(Blank(m), [], [])
    else
      var o := ZipRun(m, persistent, events[..|events| - 1]);
      var n := ZipNext(o.zipper, persistent, events[|events| - 1]);
      Zipped(n.zipper, o.acted + n.acted, o.returned + n.returned)
  }

  // ---------------------------------------------------------------- refinement

  ghost predicate Refines(b: Box, z: Zipper) {
    Tracks(b, z.ports, z.done) && z.done + |b.sets| == Longest(z.ports) && b.active == z.active
  }

  lemma {:induction false} LongestIs(ports: Ports, i: nat)
    requires i < |ports|
    ensures |ports[i]| <= Longest(ports)
    decreases |ports|
  {
    if i < |ports| - 1 {
      LongestIs(ports[..|ports| - 1], i);
    }
  }

  lemma {:induction false} LongestBound(ports: Ports, n: nat)
    requires forall i :: 0 <= i < |ports| ==> |ports[i]| <= n
    ensures Longest(ports) <= n
    decreases |ports|
  {
    if ports != [] {
      LongestBound(ports[..|ports| - 1], n);
    }
  }

  lemma LongestNext(ports: Ports, i: nat, v: Val)
    requires i < |ports|
    ensures Longest(Arrived(ports, i, v)) == if |ports[i]| == Longest(ports) then Longest(ports) + 1 else Longest(ports)
  {
    var now, n := Arrived(ports, i, v), Longest(ports);
    forall j | 0 <= j < |ports|
      ensures |ports[j]| <= n && |now[j]| <= Longest(now)
    {
      LongestIs(ports, j);
      LongestIs(now, j);
    }
    assert |now[i]| == |ports[i]| + 1;
    LongestBound(now, if |ports[i]| == n then n + 1 else n);
    forall j | 0 <= j < |ports|
      ensures |ports[j]| <= Longest(now)
    {
      assert |ports[j]| <= |now[j]|;
    }
    LongestBound(ports, Longest(now));
  }

  lemma BlankRefines(m: nat, persistent: bool)
    requires m > 0
    ensures Refines(Box([], false, persistent), Blank(m))
  {
    LongestBound(Blank(m).ports, 0);
  }

  // What is stored are the sets that have not been acted on.
  lemma StoredSets(b: Box, z: Zipper)
    requires Refines(b, z)
    ensures b.sets == Sets(z.ports, z.done, Longest(z.ports))
  {
  }

  // The number of sets stored.
  lemma AcceptSize(b: Box, z: Zipper, i: nat, v: Val)
    requires Refines(b, z) && |z.ports| > 1 && i < |z.ports| && Wide(b, |z.ports|)
    ensures var o, now := Accept(b, |z.ports|, i, v), Arrived(z.ports, i, v);
      |o.box.sets|
      == if o.acted == [] then Longest(now) - z.done else if b.persistent then Longest(now) - z.done - 1 else 0
  {
    GapAt(b, z.ports, z.done, i);
    LongestNext(z.ports, i, v);
    LongestIs(z.ports, i);
    var p := FindGap(b.sets, i);
    if p >= 0 {
      assert Row(z.ports, |z.ports[i]|)[i].None?;
      if b.active && IsReady(b.sets[p][i := Some(v)]) {
        assert |Without(b.sets, p)| == |b.sets| - 1;
      }
    }
  }

  lemma HandsBackRest(b: Box, z: Zipper, i: nat, v: Val)
    requires Refines(b, z) && |z.ports| > 1 && i < |z.ports| && b.active && IsReady(Row(Arrived(z.ports, i, v), z.done))
    ensures var now := Arrived(z.ports, i, v);
      |b.sets| > 0 && b.sets[..|b.sets| - 1] == Sets(now, z.done + 1, Longest(now)) && Longest(now) == Longest(z.ports)
  {
    OldestIsShared(z, i, v) by {
      OldestCompletes(b, z.ports, z.done, i, v);
    }
    RestIsKept(b, z, i, v) by {
      OldestCompletes(b, z.ports, z.done, i, v);
    }
  }

  // If the oldest set completes, some other port has come further.
  lemma OldestIsShared(z: Zipper, i: nat, v: Val)
    requires |z.ports| > 1 && i < |z.ports| && |z.ports[i]| == z.done && IsReady(Row(Arrived(z.ports, i, v), z.done))
    ensures Longest(Arrived(z.ports, i, v)) == Longest(z.ports) > z.done
  {
    var now := Arrived(z.ports, i, v);
    RowReady(now, z.done);
    var k := if i == 0 then 1 else 0;
    assert now[k] == z.ports[k];
    LongestIs(z.ports, k);
    LongestNext(z.ports, i, v);
  }

  lemma RestIsKept(b: Box, z: Zipper, i: nat, v: Val)
    requires Refines(b, z) && i < |z.ports| && |z.ports[i]| == z.done
    requires Longest(Arrived(z.ports, i, v)) == Longest(z.ports) > z.done
    ensures |b.sets| > 0 && b.sets[..|b.sets| - 1] == Sets(Arrived(z.ports, i, v), z.done + 1, Longest(z.ports))
  {
    var now, rest := Arrived(z.ports, i, v), b.sets[..|b.sets| - 1];
    forall p | 0 <= p < |rest|
      ensures rest[p] == Row(now, Longest(z.ports) - 1 - p)
    {
      RowArrived(z.ports, i, v, Longest(z.ports) - 1 - p);
    }
  }

  // The value completes the oldest set, and the component is done with it.
  lemma ArrivalEnds(b: Box, z: Zipper, i: nat, v: Val)
    requires Refines(b, z) && |z.ports| > 1 && i < |z.ports| && Wide(b, |z.ports|)
    requires b.active && !b.persistent && IsReady(Row(Arrived(z.ports, i, v), z.done))
    ensures var o, w := Accept(b, |z.ports|, i, v), ZipNext(z, b.persistent, Arrives(i, v));
      Refines(o.box, w.zipper) && o.acted == w.acted && o.returned == w.returned
  {
    AcceptTracks(b, z.ports, z.done, i, v);
    HandsBackRest(b, z, i, v);
    BlankRefines(|z.ports|, false);
  }

  // It completes the oldest set, and the component goes on.
  lemma ArrivalActs(b: Box, z: Zipper, i: nat, v: Val)
    requires Refines(b, z) && |z.ports| > 1 && i < |z.ports| && Wide(b, |z.ports|)
    requires b.active && b.persistent && IsReady(Row(Arrived(z.ports, i, v), z.done))
    ensures var o, w := Accept(b, |z.ports|, i, v), ZipNext(z, b.persistent, Arrives(i, v));
      Refines(o.box, w.zipper) && o.acted == w.acted && o.returned == w.returned
  {
    AcceptTracks(b, z.ports, z.done, i, v);
    AcceptSize(b, z, i, v);
  }

  // Nothing is acted on.
  lemma ArrivalWaits(b: Box, z: Zipper, i: nat, v: Val)
    requires Refines(b, z) && |z.ports| > 1 && i < |z.ports| && Wide(b, |z.ports|)
    requires !b.active || !IsReady(Row(Arrived(z.ports, i, v), z.done))
    ensures var o, w := Accept(b, |z.ports|, i, v), ZipNext(z, b.persistent, Arrives(i, v));
      Refines(o.box, w.zipper) && o.acted == w.acted && o.returned == w.returned
  {
    AcceptTracks(b, z.ports, z.done, i, v);
    AcceptSize(b, z, i, v);
  }

  lemma ArrivesRefines(b: Box, z: Zipper, i: nat, v: Val)
    requires Refines(b, z) && |z.ports| > 1 && i < |z.ports| && Wide(b, |z.ports|)
    ensures var o, w := Accept(b, |z.ports|, i, v), ZipNext(z, b.persistent, Arrives(i, v));
      Refines(o.box, w.zipper) && o.acted == w.acted && o.returned == w.returned
  {
    if !b.active || !IsReady(Row(Arrived(z.ports, i, v), z.done)) {
      ArrivalWaits(b, z, i, v);
    } else if b.persistent {
      ArrivalActs(b, z, i, v);
    } else {
      ArrivalEnds(b, z, i, v);
    }
  }

  lemma SinglePortRefines(b: Box, z: Zipper, v: Val)
    requires Refines(b, z) && |z.ports| == 1
    ensures Wide(b, 1)
    ensures var o, w := Accept(b, 1, 0, v), ZipNext(z, b.persistent, Arrives(0, v));
      Refines(o.box, w.zipper) && o.acted == w.acted && o.returned == w.returned
  {
    var now := Arrived(z.ports, 0, v);
    assert Longest(z.ports) == |z.ports[0]| && Longest(now) == |now[0]| by {
      LongestIs(z.ports, 0);
      LongestBound(z.ports, |z.ports[0]|);
      LongestIs(now, 0);
      LongestBound(now, |now[0]|);
    }
    OnePortTracks(b, z.ports, z.done, v);
    RowReady(now, z.done);
    if b.active && !b.persistent {
      BlankRefines(1, false);
    }
  }

  lemma PersistentRefines(b: Box, z: Zipper)
    requires Refines(b, z) && !b.active && b.persistent
    ensures var o, w := Activated(b), ZipNext(z, true, Activates);
      Refines(o.box, w.zipper) && o.acted == w.acted && o.returned == w.returned
  {
    PersistentActivates(b, z.ports, z.done);
    PersistentSize(b, z);
  }

  lemma OnceRefines(b: Box, z: Zipper)
    requires Refines(b, z) && !b.active && !b.persistent
    ensures var o, w := Activated(b), ZipNext(z, false, Activates);
      Refines(o.box, w.zipper) && o.acted == w.acted && o.returned == w.returned
  {
    OnceActivates(b, z.ports, z.done);
    if z.done < Least(z.ports) {
      OthersHandedBack(b, z);
      BlankRefines(|z.ports|, false);
    } else {
      LeastIs(z.ports);
    }
  }

  lemma PersistentSize(b: Box, z: Zipper)
    requires Refines(b, z) && !b.active && b.persistent
    ensures Least(z.ports) + |Activated(b).box.sets| == Longest(z.ports) && Activated(b).box.active
  {
    PersistentActivates(b, z.ports, z.done);
    DrainSize(b.(active := true));
  }

  lemma {:induction false} DrainSize(b: Box)
    requires b.active && b.persistent
    ensures |Drain(b).box.sets| + |Drain(b).acted| == |b.sets| && Drain(b).box.active
    decreases |b.sets|
  {
    var p := FindReady(b.sets);
    if p < |b.sets| {
      DrainSize(b.(sets := Without(b.sets, p)));
    }
  }

  lemma OthersHandedBack(b: Box, z: Zipper)
    requires Refines(b, z) && z.done < Least(z.ports) <= Longest(z.ports)
    ensures Without(b.sets, Longest(z.ports) - Least(z.ports))
      == Sets(z.ports, Least(z.ports), Longest(z.ports)) + Sets(z.ports, z.done, Least(z.ports) - 1)
  {
  }

  lemma StepRefines(b: Box, z: Zipper, e: Event)
    requires Refines(b, z) && Wide(b, |z.ports|) && (e.Arrives? ==> e.port < |z.ports|)
    ensures var o, w := Next(b, |z.ports|, e), ZipNext(z, b.persistent, e);
      Refines(o.box, w.zipper) && o.acted == w.acted && o.returned == w.returned && o.box.persistent == b.persistent
  {
    match e
    case Arrives(i, v) =>
      if |z.ports| == 1 {
        SinglePortRefines(b, z, v);
      } else {
        ArrivesRefines(b, z, i, v);
      }
    case Activates =>
      if !b.active {
        if b.persistent {
          PersistentRefines(b, z);
        } else {
          OnceRefines(b, z);
        }
        DrainPersistent(b.(active := true));
      }
    case Deactivates =>
      StoredSets(b, z);
      BlankRefines(|z.ports|, b.persistent);
  }

  lemma {:induction false} DrainPersistent(b: Box)
    ensures Drain(b).box.persistent == b.persistent
    decreases |b.sets|
  {
    var p := FindReady(b.sets);
    if b.active && p < |b.sets| {
      DrainPersistent(Acted(b, b.sets[p], Without(b.sets, p)).box);
    }
  }

  /** Pairing, over all runs: the sets that are acted on, in their order, the sets that are handed back,
      and the sets that are stored are those of one queue per port, whose values meet by their numbers
      since everything was last handed back. */
  lemma {:induction false} RunRefinesQueues(m: nat, persistent: bool, events: seq<Event>)
    requires m > 0 && PortsExist(m, events)
    ensures var o, w := Run(m, persistent, events), ZipRun(m, persistent, events);
      && o.acted == w.acted && o.returned == w.returned && o.box.active == w.zipper.active
           && o.box.persistent == persistent
      && o.box.sets == Sets(w.zipper.ports, w.zipper.done, Longest(w.zipper.ports)) && Refines(o.box, w.zipper)
    decreases |events|
  {
    if events == [] {
      BlankRefines(m, persistent);
      StoredSets(Box([], false, persistent), Blank(m));
    } else {
      var before := events[..|events| - 1];
      var e := events[|events| - 1];
      RunRefinesQueues(m, persistent, before);
      StepRefines(Run(m, persistent, before).box, ZipRun(m, persistent, before).zipper, e);
      StoredSets(Run(m, persistent, events).box, ZipRun(m, persistent, events).zipper);
    }
  }

  lemma ArrivesFirst(m: nat, persistent: bool, events: seq<Event>, ports: Ports, i: nat, v: Val)
    requires i < m == |ports| && PortsExist(m, events)
    requires ZipRun(m, persistent, events) == Zipped(Zipper(ports, 0, false), [], [])
    ensures PortsExist(m, events + [Arrives(i, v)])
    ensures ZipRun(m, persistent, events + [Arrives(i, v)]) == Zipped(Zipper(Arrived(ports, i, v), 0, false), [], [])
  {
    assert (events + [Arrives(i, v)])[..|events|] == events;
  }

  // One value at each of two ports.
  lemma PairArrives(events: seq<Event>, x: seq<Val>, y: seq<Val>, u: Val, v: Val)
    requires PortsExist(2, events) && ZipRun(2, true, events) == Zipped(Zipper([x, y], 0, false), [], [])
    ensures var now := events + [Arrives(0, u)] + [Arrives(1, v)];
      PortsExist(2, now) && ZipRun(2, true, now) == Zipped(Zipper([x + [u], y + [v]], 0, false), [], [])
  {
    assert Arrived([x, y], 0, u) == [x + [u], y];
    assert Arrived([x + [u], y], 1, v) == [x + [u], y + [v]];
    ArrivesFirst(2, true, events, [x, y], 0, u);
    ArrivesFirst(2, true, events + [Arrives(0, u)], [x + [u], y], 1, v);
  }

  // Two values arrive at each of two ports before the component is activated.
  function LateStart(): seq<Event> {
    [] + [Arrives(0, 1)] + [Arrives(1, 2)] + [Arrives(0, 3)] + [Arrives(1, 4)] + [Activates]
  }

  lemma FourArrive()
    ensures |LateStart()| == 5 && PortsExist(2, LateStart())
    ensures ZipRun(2, true, LateStart()[..4]) == Zipped(Zipper([[1, 3], [2, 4]], 0, false), [], [])
  {
    var none: seq<Event>, empty: seq<Val> := [], [];
    assert Blank(2).ports == [empty, empty];
    PairArrives(none, empty, empty, 1, 2);
    var two := none + [Arrives(0, 1)] + [Arrives(1, 2)];
    assert empty + [1] == [1] && empty + [2] == [2];
    PairArrives(two, [1], [2], 3, 4);
    assert [1] + [3] == [1, 3] && [2] + [4] == [2, 4];
    assert LateStart()[..4] == two + [Arrives(0, 3)] + [Arrives(1, 4)];
  }

  lemma TwoSets()
    ensures Least([[1, 3], [2, 4]]) == 2
    ensures Newest([[1, 3], [2, 4]], 0, 2) == [[Some(3), Some(4)], [Some(1), Some(2)]]
  {
    var ports: Ports := [[1, 3], [2, 4]];
    assert ports[..1][..0] == [];
    assert Row(ports, 1) == [Some(3), Some(4)] && Row(ports, 0) == [Some(1), Some(2)];
  }

  /** The component acts on the two later values first. */
  lemma LateStartReverses()
    ensures PortsExist(2, LateStart())
    ensures Run(2, true, LateStart()).acted == [[Some(3), Some(4)], [Some(1), Some(2)]]
  {
    FourArrive();
    TwoSets();
    assert ZipRun(2, true, LateStart()).acted == [[Some(3), Some(4)], [Some(1), Some(2)]];
    RunRefinesQueues(2, true, LateStart());
  }

  // ---------------------------------------------------------------- conservation

  function TimesArrived(events: seq<Event>, i: nat, v: Val): nat {
    if events == [] then 0
    else TimesArrived(events[..|events| - 1], i, v) + if events[|events| - 1] == Arrives(i, v) then 1 else 0
  }

  lemma NextConserves(b: Box, m: nat, e: Event, i: nat, v: Val)
    requires Wide(b, m) && (e.Arrives? ==> e.port < m)
    ensures Total(Next(b, m, e), i, v) == Held(b.sets, i, v) + if e == Arrives(i, v) then 1 else 0
  {
    match e
    case Arrives(j, u) => AcceptConserves(b, m, j, u, i, v);
    case Activates => DrainConserves(b.(active := true), i, v);
    case Deactivates =>
  }

  /** Conservation, over all runs: each value that has arrived has been acted on, is stored, or has been
      handed back, once. */
  lemma {:induction false} RunConserves(m: nat, persistent: bool, events: seq<Event>, i: nat, v: Val)
    requires PortsExist(m, events)
    ensures var o := Run(m, persistent, events);
      Held(o.acted, i, v) + Held(o.box.sets, i, v) + Held(o.returned, i, v) == TimesArrived(events, i, v)
    decreases |events|
  {
    if events != [] {
      var o, e := Run(m, persistent, events[..|events| - 1]), events[|events| - 1];
      var n := Next(o.box, m, e);
      RunConserves(m, persistent, events[..|events| - 1], i, v);
      NextConserves(o.box, m, e, i, v);
      HeldConcat(o.acted, n.acted, i, v);
      HeldConcat(o.returned, n.returned, i, v);
    }
  }
}
