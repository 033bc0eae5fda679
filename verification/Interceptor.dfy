/** The part of one processor that finds elements: records that forward messages from an index to
    another, and messages that are kept for elements that are not here yet. */
module Interceptor {
  import opened Common

  type Index = nat
  type Payload = nat

  // `home` are the indices that this processor keeps messages for, being the last to know where their
  // elements are; `local` are those whose elements are here at the moment.
  datatype Branch = Branch(fwd: map<Index, Index>, queued: map<Index, seq<Payload>>, local: set<Index>,
    home: set<Index>)

  datatype Sent = Sent(idx: Index, msg: Payload)

  // What an operation leaves, hands to local elements, and sends to other processors.
  datatype Outcome = Outcome(branch: Branch, delivered: seq<Sent>, sent: seq<Sent>)

  // Records lead in one direction, so that following them ends.
  ghost predicate Descends(fwd: map<Index, Index>, rank: Index -> nat) {
    forall x :: x in fwd ==> rank(fwd[x]) < rank(x)
  }

  // Follow records until an index without one.
  function Dealias(fwd: map<Index, Index>, idx: Index, ghost rank: Index -> nat): (r: Index)
    requires Descends(fwd, rank)
    ensures r !in fwd && rank(r) <= rank(idx)
    decreases rank(idx)
  {
    if idx in fwd then Dealias(fwd, fwd[idx], rank) else idx
  }

  function QueueOf(b: Branch, idx: Index): seq<Payload> {
    if idx in b.queued then b.queued[idx] else []
  }

  function Addressed(idx: Index, ms: seq<Payload>): seq<Sent> {
    seq(|ms|, i requires 0 <= i < |ms| => Sent(idx, ms[i]))
  }

  // Messages whose index has no record, in their order.
  function Place(b: Branch, post: Index, ms: seq<Payload>): Outcome {
    if ms == [] then Outcome(b, [], [])
    else if post in b.local then Outcome(b, Addressed(post, ms), [])
    else if post in b.home then Outcome(b.(queued := b.queued[post := QueueOf(b, post) + ms]), [], [])
    else Outcome(b, [], Addressed(post, ms))
  }

  function Deliver(b: Branch, pre: Index, m: Payload, ghost rank: Index -> nat): Outcome
    requires Descends(b.fwd, rank)
  {
    Place(b, Dealias(b.fwd, pre, rank), [m])
  }

  // The messages kept for idx are tried again, in their order.
  function Resynced(b: Branch, idx: Index, ghost rank: Index -> nat): Outcome
    requires Descends(b.fwd, rank)
  {
    Place(b.(queued := b.queued - {idx}), Dealias(b.fwd, idx, rank), QueueOf(b, idx))
  }

  // ---------------------------------------------------------------- runs

  // Messages are only kept for indices that have no record.
  ghost predicate Calm(b: Branch) {
    forall x :: x in b.queued ==> x !in b.fwd && b.queued[x] != []
  }

  lemma DeliverStaysCalm(b: Branch, pre: Index, m: Payload, rank: Index -> nat)
    requires Descends(b.fwd, rank) && Calm(b)
    ensures Calm(Deliver(b, pre, m, rank).branch)
  {
  }

  lemma RecordKeepsCalm(b: Branch, from: Index, to: Index, rank: Index -> nat)
    requires Calm(b) && Descends(b.fwd, rank) && rank(to) < rank(from)
    ensures Calm(Resynced(b.(fwd := b.fwd[from := to]), from, rank).branch)
  {
  }

  // A message is sent, a record is made, an element appears or vanishes.
  datatype Event =
    | Sends(pre: Index, msg: Payload)
    | Forwards(from: Index, to: Index)
    | Appears(idx: Index)
    | Vanishes(idx: Index)

  // A second record for an index is an error; records lead in one direction.
  predicate Allowed(b: Branch, e: Event, rank: Index -> nat) {
    e.Forwards? ==> e.from !in b.fwd && rank(e.to) < rank(e.from)
  }

  function Next(b: Branch, e: Event, rank: Index -> nat): (o: Outcome)
    requires Descends(b.fwd, rank) && Allowed(b, e, rank)
    ensures Descends(o.branch.fwd, rank)
  {
    match e
    case Sends(pre, m) => Deliver(b, pre, m, rank)
    case Forwards(from, to) => Resynced(b.(fwd := b.fwd[from := to]), from, rank)
    case Appears(idx) => Outcome(b.(local := b.local + {idx}), [], [])
    case Vanishes(idx) => Outcome(b.(local := b.local - {idx}), [], [])
  }

  // All these events, from b on, lead to o.
  ghost predicate Runs(b: Branch, events: seq<Event>, o: Outcome, rank: Index -> nat)
    requires Descends(b.fwd, rank)
    decreases |events|
  {
    if events == [] then o == Outcome(b, [], [])
    else
      var e := events[|events| - 1];
      exists before: Outcome ::
        && Runs(b, events[..|events| - 1], before, rank) && Descends(before.branch.fwd, rank)
             && Allowed(before.branch, e, rank)
        && var n := Next(before.branch, e, rank);
           o == Outcome(n.branch, before.delivered + n.delivered, before.sent + n.sent)
  }

  // The last step of a run.
  lemma LastStep(b: Branch, events: seq<Event>, o: Outcome, rank: Index -> nat) returns (before: Outcome, n: Outcome)
    requires Descends(b.fwd, rank) && events != [] && Runs(b, events, o, rank)
    ensures Runs(b, events[..|events| - 1], before, rank) && Descends(before.branch.fwd, rank)
    ensures Allowed(before.branch, events[|events| - 1], rank) && n == Next(before.branch, events[|events| - 1], rank)
    ensures o == Outcome(n.branch, before.delivered + n.delivered, before.sent + n.sent)
  {
    var e := events[|events| - 1];
    before :| && Runs(b, events[..|events| - 1], before, rank) && Descends(before.branch.fwd, rank)
      && Allowed(before.branch, e, rank)
              && var n := Next(before.branch, e, rank);
                 o == Outcome(n.branch, before.delivered + n.delivered, before.sent + n.sent);
    n := Next(before.branch, e, rank);
  }

  /** No message is ever kept where a record leads on. */
  lemma {:induction false} AlwaysCalm(b: Branch, events: seq<Event>, o: Outcome, rank: Index -> nat)
    requires Descends(b.fwd, rank) && Calm(b) && Runs(b, events, o, rank)
    ensures Calm(o.branch)
    decreases |events|
  {
    if events != [] {
      var before, n := LastStep(b, events, o, rank);
      AlwaysCalm(b, events[..|events| - 1], before, rank);
      match events[|events| - 1] {
        case Sends(pre, m) => DeliverStaysCalm(before.branch, pre, m, rank);
        case Forwards(from, to) => RecordKeepsCalm(before.branch, from, to, rank);
        case _ =>
      }
    }
  }

  // ---------------------------------------------------------------- nothing is lost

  // How often a message is kept, under any index.
  ghost function Kept(q: map<Index, seq<Payload>>, m: Payload): nat {
    if q == map[] then 0
    else
      var x :| x in q;
      Times(q[x], m) + Kept(q - {x}, m)
  }

  lemma {:induction false} KeptUnder(q: map<Index, seq<Payload>>, x: Index, m: Payload)
    requires x in q
    ensures Kept(q, m) == Times(q[x], m) + Kept(q - {x}, m)
    decreases q.Keys
  {
    var y :| y in q && Kept(q, m) == Times(q[y], m) + Kept(q - {y}, m);
    if y != x {
      assert (q - {y}).Keys == q.Keys - {y} && (q - {x}).Keys == q.Keys - {x};
      KeptUnder(q - {y}, x, m);
      KeptUnder(q - {x}, y, m);
      assert q - {y} - {x} == q - {x} - {y};
    }
  }

  lemma KeptPut(q: map<Index, seq<Payload>>, x: Index, ms: seq<Payload>, m: Payload)
    ensures Kept(q[x := (if x in q then q[x] else []) + ms], m) == Kept(q, m) + Times(ms, m)
  {
    var now := q[x := (if x in q then q[x] else []) + ms];
    KeptUnder(now, x, m);
    assert now - {x} == q - {x};
    if x in q {
      KeptUnder(q, x, m);
    } else {
      assert q - {x} == q;
    }
  }

  lemma KeptRemoved(q: map<Index, seq<Payload>>, x: Index, m: Payload)
    ensures Kept(q - {x}, m) + Times(if x in q then q[x] else [], m) == Kept(q, m)
  {
    if x in q {
      KeptUnder(q, x, m);
    } else {
      assert q - {x} == q;
    }
  }

  function Messages(ss: seq<Sent>): seq<Payload> {
    seq(|ss|, i requires 0 <= i < |ss| => ss[i].msg)
  }

  // How often a message is in an outcome: kept, handed to an element, or sent on.
  ghost function Total(o: Outcome, m: Payload): nat {
    Kept(o.branch.queued, m) + Times(Messages(o.delivered), m) + Times(Messages(o.sent), m)
  }

  lemma PlaceConserves(b: Branch, post: Index, ms: seq<Payload>, m: Payload)
    ensures Total(Place(b, post, ms), m) == Kept(b.queued, m) + Times(ms, m)
  {
    assert Messages(Addressed(post, ms)) == ms && Messages([]) == [];
    KeptPut(b.queued, post, ms, m);
  }

  lemma NextConserves(b: Branch, e: Event, rank: Index -> nat, m: Payload)
    requires Descends(b.fwd, rank) && Allowed(b, e, rank)
    ensures Total(Next(b, e, rank), m) == Kept(b.queued, m) + if e.Sends? && e.msg == m then 1 else 0
  {
    match e
    case Sends(pre, x) =>
      PlaceConserves(b, Dealias(b.fwd, pre, rank), [x], m);
    case Forwards(from, to) =>
      var r := b.(fwd := b.fwd[from := to]);
      PlaceConserves(r.(queued := r.queued - {from}), Dealias(r.fwd, from, rank), QueueOf(r, from), m);
      KeptRemoved(b.queued, from, m);
    case _ =>
  }

  function TimesSent(events: seq<Event>, m: Payload): nat {
    if events == [] then 0
    else TimesSent(events[..|events| - 1], m) + if events[|events| - 1].Sends?
      && events[|events| - 1].msg == m then 1 else 0
  }

  /** Over any run, each message is kept, handed to an element, or sent on, once. */
  lemma {:induction false} RunConserves(b: Branch, events: seq<Event>, o: Outcome, rank: Index -> nat, m: Payload)
    requires Descends(b.fwd, rank) && Runs(b, events, o, rank)
    ensures Total(o, m) == Kept(b.queued, m) + TimesSent(events, m)
    decreases |events|
  {
    if events == [] {
      assert Messages([]) == [];
    } else {
      var before, n := LastStep(b, events, o, rank);
      RunConserves(b, events[..|events| - 1], before, rank, m);
      NextConserves(before.branch, events[|events| - 1], rank, m);
      MessagesTogether(before.delivered, n.delivered, m);
      MessagesTogether(before.sent, n.sent, m);
    }
  }

  lemma MessagesTogether(a: seq<Sent>, b: seq<Sent>, m: Payload)
    ensures Times(Messages(a + b), m) == Times(Messages(a), m) + Times(Messages(b), m)
  {
    assert Messages(a + b) == Messages(a) + Messages(b);
  }

  // ---------------------------------------------------------------- where messages go

  // Following records from x, for some number of steps, leads to y.
  ghost predicate LedTo(fwd: map<Index, Index>, x: Index, y: Index, rank: Index -> nat)
    requires Descends(fwd, rank)
    decreases rank(x)
  {
    x == y || (x in fwd && LedTo(fwd, fwd[x], y, rank))
  }

  lemma {:induction false} DealiasLeads(fwd: map<Index, Index>, x: Index, rank: Index -> nat)
    requires Descends(fwd, rank)
    ensures LedTo(fwd, x, Dealias(fwd, x, rank), rank)
    decreases rank(x)
  {
    if x in fwd {
      DealiasLeads(fwd, fwd[x], rank);
    }
  }

  /** There is one index without a record that records lead to. */
  lemma {:induction false} OneEnd(fwd: map<Index, Index>, x: Index, y: Index, z: Index, rank: Index -> nat)
    requires Descends(fwd, rank) && LedTo(fwd, x, y, rank) && LedTo(fwd, x, z, rank) && y !in fwd && z !in fwd
    ensures y == z
    decreases rank(x)
  {
    if x in fwd {
      OneEnd(fwd, fwd[x], y, z, rank);
    }
  }

  // The messages that an event puts on their way, and the index they are for.
  function Moved(b: Branch, e: Event): seq<Payload> {
    match e
    case Sends(_, m) => [m]
    case Forwards(from, _) => QueueOf(b, from)
    case _ => []
  }

  function Target(e: Event): Index {
    match e
    case Sends(pre, _) => pre
    case Forwards(from, _) => from
    case Appears(idx) => idx
    case Vanishes(idx) => idx
  }

  // Index x is where the event's messages belong, by the records that are there after it.
  ghost predicate Belongs(fwd: map<Index, Index>, e: Event, x: Index, rank: Index -> nat)
    requires Descends(fwd, rank)
  {
    x !in fwd && LedTo(fwd, Target(e), x, rank)
  }

  // A message has been kept for x, or taken out from there.
  predicate QueueChanged(b: Branch, n: Branch, x: Index) {
    QueueOf(n, x) != QueueOf(b, x)
  }

  /** What a step does with messages, whatever the step is: it hands them to the element they belong to if
      that element is here; keeps them, behind what is kept already, if it is not but this processor is its
      home; and sends them on in all other cases; all of them alike, in their order. Nothing else is kept or
      released but what was kept for the index of a new record. */
  ghost predicate WellPlaced(b: Branch, e: Event, o: Outcome, rank: Index -> nat)
    requires Descends(o.branch.fwd, rank)
  {
    && (forall d {:trigger d in o.delivered} :: d in o.delivered ==>
          Belongs(o.branch.fwd, e, d.idx, rank) && d.idx in b.local)
    && (forall d {:trigger d in o.sent} :: d in o.sent ==>
          Belongs(o.branch.fwd, e, d.idx, rank) && d.idx !in b.local && d.idx !in b.home)
    && (forall x {:trigger QueueChanged(b, o.branch, x)} :: QueueChanged(b, o.branch, x) ==>
          if e.Forwards? && x == e.from then QueueOf(o.branch, x) == []
          else
            && Belongs(o.branch.fwd, e, x, rank) && x in b.home && x !in b.local
            && QueueOf(o.branch, x) == QueueOf(b, x) + Moved(b, e))
    && (o.delivered != [] ==> Messages(o.delivered) == Moved(b, e))
    && (o.sent != [] ==> Messages(o.sent) == Moved(b, e))
  }

  lemma NextPlaces(b: Branch, e: Event, rank: Index -> nat)
    requires Descends(b.fwd, rank) && Allowed(b, e, rank)
    ensures WellPlaced(b, e, Next(b, e, rank), rank)
  {
    match e
    case Sends(pre, m) =>
      DealiasLeads(b.fwd, pre, rank);
      MessagesAddressed(Dealias(b.fwd, pre, rank), [m]);
    case Forwards(from, to) =>
      DealiasLeads(b.fwd[from := to], from, rank);
      MessagesAddressed(Dealias(b.fwd[from := to], from, rank), QueueOf(b, from));
    case _ =>
  }

  lemma MessagesAddressed(x: Index, ms: seq<Payload>)
    ensures Messages(Addressed(x, ms)) == ms
  {
  }

  // Event number i of the run was handled in branch b, with this outcome.
  ghost predicate HandledAt(start: Branch, events: seq<Event>, i: nat, b: Branch, o: Outcome, rank: Index -> nat)
    requires Descends(start.fwd, rank) && i < |events|
  {
    && Descends(b.fwd, rank) && Allowed(b, events[i], rank) && o == Next(b, events[i], rank)
    && exists before: Outcome :: before.branch == b && Runs(start, events[..i], before, rank)
  }

  // The message was handed to an element that was here then.
  ghost predicate ReachedItsElement(start: Branch, events: seq<Event>, d: Sent, rank: Index -> nat)
    requires Descends(start.fwd, rank)
  {
    exists i, b, o :: 0 <= i < |events| && HandledAt(start, events, i, b, o, rank) && d in o.delivered
      && Belongs(o.branch.fwd, events[i], d.idx, rank) && d.idx in b.local && d.msg in Moved(b, events[i])
  }

  // The message was sent on for an element that was not here then, and whose home is elsewhere.
  ghost predicate LeftForItsHome(start: Branch, events: seq<Event>, d: Sent, rank: Index -> nat)
    requires Descends(start.fwd, rank)
  {
    exists i, b, o :: 0 <= i < |events| && HandledAt(start, events, i, b, o, rank) && d in o.sent
      && Belongs(o.branch.fwd, events[i], d.idx, rank) && d.idx !in b.local && d.idx !in b.home
      && d.msg in Moved(b, events[i])
  }

  lemma InMessages(ss: seq<Sent>, d: Sent)
    requires d in ss
    ensures d.msg in Messages(ss)
  {
    var i :| 0 <= i < |ss| && ss[i] == d;
    assert Messages(ss)[i] == d.msg;
  }

  lemma StillReached(start: Branch, events: seq<Event>, d: Sent, rank: Index -> nat)
    requires Descends(start.fwd, rank) && events != []
    ensures ReachedItsElement(start, events[..|events| - 1], d, rank) ==> ReachedItsElement(start, events, d, rank)
    ensures LeftForItsHome(start, events[..|events| - 1], d, rank) ==> LeftForItsHome(start, events, d, rank)
  {
    var pre := events[..|events| - 1];
    forall i, b, o | 0 <= i < |pre| && HandledAt(start, pre, i, b, o, rank)
      ensures HandledAt(start, events, i, b, o, rank) && events[i] == pre[i]
    {
      assert events[..i] == pre[..i];
    }
  }

  // What the last event hands over and sends on.
  lemma LastPlaces(b: Branch, events: seq<Event>, before: Outcome, n: Outcome, rank: Index -> nat)
    requires Descends(b.fwd, rank) && events != [] && Descends(before.branch.fwd, rank)
    requires Runs(b, events[..|events| - 1], before, rank) && Allowed(before.branch, events[|events| - 1], rank)
    requires n == Next(before.branch, events[|events| - 1], rank)
    ensures forall d :: d in n.delivered ==> ReachedItsElement(b, events, d, rank)
    ensures forall d :: d in n.sent ==> LeftForItsHome(b, events, d, rank)
  {
    var i := |events| - 1;
    NextPlaces(before.branch, events[i], rank);
    assert HandledAt(b, events, i, before.branch, n, rank);
    forall d | d in n.delivered
      ensures ReachedItsElement(b, events, d, rank)
    {
      InMessages(n.delivered, d);
    }
    forall d | d in n.sent
      ensures LeftForItsHome(b, events, d, rank)
    {
      InMessages(n.sent, d);
    }
  }

  /** Over any run, what was handed to an element was handed to the one it belonged to, which was here then;
      what was sent on belonged to an element that was not here then, and whose home is elsewhere. */
  lemma {:induction false} RunPlaces(b: Branch, events: seq<Event>, o: Outcome, rank: Index -> nat)
    requires Descends(b.fwd, rank) && Runs(b, events, o, rank)
    ensures forall d :: d in o.delivered ==> ReachedItsElement(b, events, d, rank)
    ensures forall d :: d in o.sent ==> LeftForItsHome(b, events, d, rank)
    decreases |events|
  {
    if events != [] {
      var before, n := LastStep(b, events, o, rank);
      RunPlaces(b, events[..|events| - 1], before, rank);
      LastPlaces(b, events, before, n, rank);
      forall d | d in before.delivered
        ensures ReachedItsElement(b, events, d, rank)
      {
        StillReached(b, events, d, rank);
      }
      forall d | d in before.sent
        ensures LeftForItsHome(b, events, d, rank)
      {
        StillReached(b, events, d, rank);
      }
    }
  }

  // Nothing is kept for indices of other processors.
  ghost predicate KeptAtHome(b: Branch) {
    forall x :: QueueOf(b, x) != [] ==> x in b.home
  }

  lemma NextKeepsAtHome(b: Branch, e: Event, rank: Index -> nat)
    requires Descends(b.fwd, rank) && Allowed(b, e, rank) && KeptAtHome(b)
    ensures var n := Next(b, e, rank).branch; n.home == b.home && KeptAtHome(n)
  {
    var n := Next(b, e, rank).branch;
    forall x | QueueOf(n, x) != []
      ensures x in b.home
    {
      if QueueChanged(b, n, x) {
        NextPlaces(b, e, rank);
      }
    }
  }

  /** Over any run, what is kept is kept for indices whose home is here. */
  lemma {:induction false} RunKeepsAtHome(b: Branch, events: seq<Event>, o: Outcome, rank: Index -> nat)
    requires Descends(b.fwd, rank) && KeptAtHome(b) && Runs(b, events, o, rank)
    ensures o.branch.home == b.home && KeptAtHome(o.branch)
    decreases |events|
  {
    if events != [] {
      var before, n := LastStep(b, events, o, rank);
      RunKeepsAtHome(b, events[..|events| - 1], before, rank);
      NextKeepsAtHome(before.branch, events[|events| - 1], rank);
    }
  }

  // ---------------------------------------------------------------- what is kept, and for how long

  predicate RecordMade(events: seq<Event>, x: Index) {
    exists i :: 0 <= i < |events| && events[i].Forwards? && events[i].from == x
  }

  lemma NextKeeps(b: Branch, e: Event, rank: Index -> nat, x: Index)
    requires Descends(b.fwd, rank) && Calm(b) && Allowed(b, e, rank)
    ensures var n := Next(b, e, rank).branch;
      && (x in b.fwd ==> x in n.fwd) && (e.Forwards? && e.from == x ==> x in n.fwd)
      && (!(e.Forwards? && e.from == x) ==> QueueOf(b, x) <= QueueOf(n, x))
  {
  }

  lemma {:induction false} KeptAlong(b: Branch, events: seq<Event>, o: Outcome, rank: Index -> nat, x: Index)
    requires Descends(b.fwd, rank) && Calm(b) && Runs(b, events, o, rank)
    ensures RecordMade(events, x) ==> x in o.branch.fwd
    ensures !RecordMade(events, x) ==> QueueOf(b, x) <= QueueOf(o.branch, x)
    decreases |events|
  {
    if events != [] {
      var rest, e := events[..|events| - 1], events[|events| - 1];
      var before, n := LastStep(b, events, o, rank);
      KeptAlong(b, rest, before, rank, x);
      AlwaysCalm(b, rest, before, rank);
      NextKeeps(before.branch, e, rank, x);
      MadeBefore(events, x);
    }
  }

  lemma MadeBefore(events: seq<Event>, x: Index)
    requires events != []
    ensures var e := events[|events| - 1];
      RecordMade(events, x) <==> RecordMade(events[..|events| - 1], x) || (e.Forwards? && e.from == x)
  {
    var rest := events[..|events| - 1];
    if i :| 0 <= i < |events| && events[i].Forwards? && events[i].from == x {
      assert i < |rest| ==> rest[i] == events[i];
    }
    if i :| 0 <= i < |rest| && rest[i].Forwards? && rest[i].from == x {
      assert events[i] == rest[i];
    }
  }

  /** Messages that are kept for an index stay, in their order, until a record for that very index is made:
      that its element appears here does not release them. */
  lemma KeptUntilRecord(b: Branch, events: seq<Event>, o: Outcome, rank: Index -> nat, x: Index)
    requires Descends(b.fwd, rank) && Calm(b) && Runs(b, events, o, rank) && QueueOf(b, x) != []
    ensures QueueOf(b, x) <= QueueOf(o.branch, x) <==> !RecordMade(events, x)
  {
    KeptAlong(b, events, o, rank, x);
    AlwaysCalm(b, events, o, rank);
  }

  lemma OneMoreStep(b: Branch, events: seq<Event>, before: Outcome, e: Event, rank: Index -> nat)
    requires Descends(b.fwd, rank) && Runs(b, events, before, rank)
    requires Descends(before.branch.fwd, rank) && Allowed(before.branch, e, rank)
    ensures var n := Next(before.branch, e, rank);
      Runs(b, events + [e], Outcome(n.branch, before.delivered + n.delivered, before.sent + n.sent), rank)
  {
    assert (events + [e])[..|events|] == events;
  }

  /** A message that comes before its element is kept; the element appears, and a later message reaches it
      first, while the earlier one is still kept. */
  lemma KeptIsOvertaken(x: Index, m: Payload, later: Payload, rank: Index -> nat)
    ensures var b := Branch(map[], map[], {}, {x});
      Runs(b, [Sends(x, m), Appears(x), Sends(x, later)],
           Outcome(Branch(map[], map[x := [m]], {x}, {x}), [Sent(x, later)], []), rank)
  {
    var b := Branch(map[], map[], {}, {x});
    var kept := b.(queued := map[x := [m]]);
    var ss: seq<Sent> := [];
    assert QueueOf(b, x) + [m] == [m];
    assert Next(b, Sends(x, m), rank) == Outcome(kept, [], []);
    OneMoreStep(b, [], Outcome(b, [], []), Sends(x, m), rank);
    assert [] + [Sends(x, m)] == [Sends(x, m)];
    OneMoreStep(b, [Sends(x, m)], Outcome(kept, [], []), Appears(x), rank);
    assert [Sends(x, m)] + [Appears(x)] == [Sends(x, m), Appears(x)];
    var here := kept.(local := {x});
    assert kept.local + {x} == {x};
    assert ss + [] == ss;
    assert Addressed(x, [later]) == [Sent(x, later)];
    OneMoreStep(b, [Sends(x, m), Appears(x)], Outcome(here, [], []), Sends(x, later), rank);
    assert [Sends(x, m), Appears(x)] + [Sends(x, later)] == [Sends(x, m), Appears(x), Sends(x, later)];
    assert ss + [Sent(x, later)] == [Sent(x, later)];
  }

  // ---------------------------------------------------------------- the branch

  class Local {
    ghost const rank: Index -> nat
    const home: set<Index>
    var fwd: map<Index, Index>
    var queued: map<Index, seq<Payload>>
    var local: set<Index>

    constructor (home: set<Index>, local: set<Index>, ghost rank: Index -> nat)
      ensures this.rank == rank && Valid() && Contents() == Branch(map[], map[], local, home)
    {
      this.rank, this.home, this.local := rank, home, local;
      fwd, queued := map[], map[];
    }

    function Contents(): Branch
      reads this
    {
      Branch(fwd, queued, local, home)
    }

    ghost predicate Valid()
      reads this
    {
      Descends(fwd, rank) && Calm(Contents())
    }

    // What the location manager knows about elements here changes.
    method Learn(idx: Index, here: bool)
      modifies this`local
      ensures local == if here then old(local) + {idx} else old(local) - {idx}
    {
      local := if here then local + {idx} else local - {idx};
    }

    // Deliver a message to the element of an index, wherever records lead.
    method Send(pre: Index, m: Payload) returns (delivered: seq<Sent>, sent: seq<Sent>)
      requires Descends(fwd, rank)
      modifies this`queued
      ensures Outcome(Contents(), delivered, sent) == Deliver(old(Contents()), pre, m, rank)
    {
      delivered, sent := [], [];
      var post := pre;
      while post in fwd
        invariant Dealias(fwd, post, rank) == Dealias(fwd, pre, rank)
        decreases rank(post)
      {
        post := fwd[post];
      }
      if post in local {
        delivered := [Sent(post, m)];
      } else if post in home {
        queued := queued[post := (if post in queued then queued[post] else []) + [m]];
      } else {
        sent := [Sent(post, m)];
      }
    }

    method ResyncQueue(idx: Index) returns (delivered: seq<Sent>, sent: seq<Sent>)
      requires Descends(fwd, rank)
      modifies this`queued
      ensures Outcome(Contents(), delivered, sent) == Resynced(old(Contents()), idx, rank)
    {
      delivered, sent := [], [];
      if idx !in queued {
        assert queued - {idx} == queued;
        return;
      }
      var buffer := queued[idx];
      queued := queued - {idx};
      ghost var b, post := Contents(), Dealias(fwd, idx, rank);
      var i := 0;
      while i < |buffer|
        invariant i <= |buffer| && Outcome(Contents(), delivered, sent) == Place(b, post, buffer[..i])
      {
        var d, s := Send(idx, buffer[i]);
        OneMore(b, post, buffer, i);
        delivered, sent := delivered + d, sent + s;
        i := i + 1;
      }
      assert buffer[..i] == buffer;
    }

    // Make a record; the result says whether there was none before. Where this processor is not
    // responsible for `from`, the request goes on to the one that is, which is not modelled.
    method Forward(from: Index, to: Index) returns (ok: bool, delivered: seq<Sent>, sent: seq<Sent>)
      requires Valid() && rank(to) < rank(from)
      modifies this`fwd, this`queued
      ensures Valid() && ok == (from !in old(fwd))
      ensures ok ==>
        Outcome(Contents(), delivered, sent) == Resynced(old(Contents()).(fwd := old(fwd)[from := to]), from, rank)
      ensures !ok ==> Contents() == old(Contents()) && delivered == [] == sent
    {
      if from in fwd {
        return false, [], [];
      }
      fwd := fwd[from := to];
      RecordKeepsCalm(old(Contents()), from, to, rank);
      ok := true;
      delivered, sent := ResyncQueue(from);
    }
  }

  lemma OneMore(b: Branch, post: Index, ms: seq<Payload>, i: nat)
    requires i < |ms|
    ensures var x, o := Place(b, post, ms[..i]), Place(b, post, ms[..i + 1]);
      var y := Place(x.branch, post, [ms[i]]);
      o == Outcome(y.branch, x.delivered + y.delivered, x.sent + y.sent) && x.branch.fwd == b.fwd
  {
    assert ms[..i + 1] == ms[..i] + [ms[i]];
    if i == 0 {
      assert ms[..i] == [] && ms[..i + 1] == [ms[i]];
    } else {
      assert Addressed(post, ms[..i + 1]) == Addressed(post, ms[..i]) + Addressed(post, [ms[i]]);
      var q := QueueOf(b, post);
      assert q + ms[..i + 1] == q + ms[..i] + [ms[i]];
      assert b.queued[post := q + ms[..i]][post := q + ms[..i + 1]] == b.queued[post := q + ms[..i + 1]];
    }
  }
}
