/** Whole runs of an endpoint with posted buffers, accounted for by the moments at which buffers were posted
    and requests were made. */
module PostedRuns {
  import opened Common
  import opened PostedBuffers

  // ---------------------------------------------------------------- the account

  // A request that was given a posted buffer, or one that was made for it; by the numbers of their events.
  datatype Serving = Given(request: nat, buffer: nat) | Made(request: nat)

  // The buffers that are kept, the requests that wait, and those that were served.
  datatype Ledger = Ledger(kept: set<nat>, waiting: set<nat>, served: seq<Serving>)

  function BufferAt(events: seq<Event>, i: nat): Buffer {
    if i < |events| && events[i].Posted? then events[i].buffer else Buffer(0, 0)
  }

  function RequestAt(events: seq<Event>, i: nat): Request {
    if i < |events| && events[i].Polled? then events[i].request else Request(0, 0)
  }

  // The endpoint is handled manually from the first such event on.
  predicate Handled(events: seq<Event>) {
    exists i :: 0 <= i < |events| && events[i].Handle?
  }

  function Holdable(events: seq<Event>, waiting: set<nat>, size: nat): set<nat> {
    set i | i in waiting && RequestAt(events, i).count <= size
  }

  function Roomy(events: seq<Event>, kept: set<nat>, count: nat): set<nat> {
    set j | j in kept && BufferAt(events, j).size >= count
  }

  // Buffer number n goes to the earliest request that it can hold, or is kept.
  function Posting(events: seq<Event>, l: Ledger, n: nat, size: nat): Ledger {
    var fits := Holdable(events, l.waiting, size);
    if fits == {} then l.(kept := l.kept + {n})
    else l.(waiting := l.waiting - {Lowest(fits)}, served := l.served + [Given(Lowest(fits), n)])
  }

  // Request number n gets the earliest buffer that is large enough; if there is none it waits where buffers
  // are posted by hand, and gets a new one where they are not.
  function Polling(events: seq<Event>, l: Ledger, n: nat, count: nat, manual: bool): Ledger {
    var fits := Roomy(events, l.kept, count);
    if fits != {} then l.(kept := l.kept - {Lowest(fits)}, served := l.served + [Given(n, Lowest(fits))])
    else if manual then l.(waiting := l.waiting + {n})
    else l.(served := l.served + [Made(n)])
  }

  function Account(events: seq<Event>): Ledger
    decreases |events|
  {
    if events == [] then Ledger({}, {}, [])
    else
      var n := |events| - 1;
      match events[n]
      case Handle => Account(events[..n])
      case Posted(b) => Posting(events, Account(events[..n]), n, b.size)
      case Polled(r) => Polling(events, Account(events[..n]), n, r.count, Handled(events[..n]))
  }

  // All of this happened before event number n.
  ghost predicate Within(l: Ledger, n: nat) {
    && (forall i :: i in l.kept ==> i < n) && (forall i :: i in l.waiting ==> i < n)
    && forall i :: 0 <= i < |l.served| ==> l.served[i].request < n && (l.served[i].Given? ==> l.served[i].buffer < n)
  }

  lemma {:induction false} AccountWithin(events: seq<Event>)
    ensures Within(Account(events), |events|)
    decreases |events|
  {
    if events != [] {
      AccountWithin(events[..|events| - 1]);
    }
  }

  // ---------------------------------------------------------------- lists and sets

  function BuffersAt(events: seq<Event>, ps: seq<nat>): seq<Buffer> {
    seq(|ps|, i requires 0 <= i < |ps| => BufferAt(events, ps[i]))
  }

  function RequestsAt(events: seq<Event>, ps: seq<nat>): seq<Request> {
    seq(|ps|, i requires 0 <= i < |ps| => RequestAt(events, ps[i]))
  }

  function PairingAt(events: seq<Event>, s: Serving): Pairing {
    match s
    case Given(r, b) => Paired(RequestAt(events, r), BufferAt(events, b))
    case Made(r) => Allocated(RequestAt(events, r))
  }

  function PairingsAt(events: seq<Event>, ss: seq<Serving>): seq<Pairing> {
    seq(|ss|, i requires 0 <= i < |ss| => PairingAt(events, ss[i]))
  }

  // The buffers and the requests in the order in which they came.
  function Kept(events: seq<Event>, kept: set<nat>): seq<Buffer> {
    BuffersAt(events, Ascending(kept))
  }

  function Waiting(events: seq<Event>, waiting: set<nat>): seq<Request> {
    RequestsAt(events, Ascending(waiting))
  }

  lemma AtMore(events: seq<Event>, ps: seq<nat>, n: nat)
    ensures BuffersAt(events, ps + [n]) == BuffersAt(events, ps) + [BufferAt(events, n)]
    ensures RequestsAt(events, ps + [n]) == RequestsAt(events, ps) + [RequestAt(events, n)]
  {
  }

  lemma AtLess(events: seq<Event>, ps: seq<nat>, p: nat)
    requires p < |ps|
    ensures BuffersAt(events, Without(ps, p)) == Without(BuffersAt(events, ps), p)
    ensures RequestsAt(events, Without(ps, p)) == Without(RequestsAt(events, ps), p)
  {
  }

  lemma PairingsMore(events: seq<Event>, ss: seq<Serving>, s: Serving)
    ensures PairingsAt(events, ss + [s]) == PairingsAt(events, ss) + [PairingAt(events, s)]
  {
  }

  lemma FindsRequest(events: seq<Event>, ps: seq<nat>, size: nat)
    ensures var p := FindApplicable(RequestsAt(events, ps), size);
      && p <= |ps| && (p < |ps| ==> RequestAt(events, ps[p]).count <= size)
      && forall k :: 0 <= k < p ==> RequestAt(events, ps[k]).count > size
  {
    var rs := RequestsAt(events, ps);
    forall k | 0 <= k < FindApplicable(rs, size)
      ensures RequestAt(events, ps[k]).count > size
    {
      assert rs[k] == RequestAt(events, ps[k]);
    }
  }

  lemma FindsBuffer(events: seq<Event>, ps: seq<nat>, count: nat)
    ensures var p := FindLarge(BuffersAt(events, ps), count);
      && p <= |ps| && (p < |ps| ==> BufferAt(events, ps[p]).size >= count)
      && forall k :: 0 <= k < p ==> BufferAt(events, ps[k]).size < count
  {
    var bs := BuffersAt(events, ps);
    forall k | 0 <= k < FindLarge(bs, count)
      ensures BufferAt(events, ps[k]).size < count
    {
      assert bs[k] == BufferAt(events, ps[k]);
    }
  }

  // The request found is the earliest that can be held, the buffer found the earliest that is large enough.
  lemma EarliestRequest(events: seq<Event>, waiting: set<nat>, size: nat)
    ensures var p, a := FindApplicable(Waiting(events, waiting), size), Ascending(waiting);
      var fits := Holdable(events, waiting, size);
      && p <= |a| && |Waiting(events, waiting)| == |a|
      && if p == |a| then fits == {}
         else fits != {} && a[p] == Lowest(fits) && Ascending(waiting - {a[p]}) == Without(a, p)
  {
    var p, a := FindApplicable(Waiting(events, waiting), size), Ascending(waiting);
    AscendingAscends(waiting);
    FindsRequest(events, a, size);
    if p < |a| {
      EarliestOf(Holdable(events, waiting, size), a, waiting, p);
      AscendingWithout(waiting, p);
    } else {
      NoneOf(Holdable(events, waiting, size), a, waiting);
    }
  }

  lemma EarliestBuffer(events: seq<Event>, kept: set<nat>, count: nat)
    ensures var p, a := FindLarge(Kept(events, kept), count), Ascending(kept);
      var fits := Roomy(events, kept, count);
      && p <= |a| && |Kept(events, kept)| == |a|
      && if p == |a| then fits == {}
         else fits != {} && a[p] == Lowest(fits) && Ascending(kept - {a[p]}) == Without(a, p)
  {
    var p, a := FindLarge(Kept(events, kept), count), Ascending(kept);
    AscendingAscends(kept);
    FindsBuffer(events, a, count);
    if p < |a| {
      EarliestOf(Roomy(events, kept, count), a, kept, p);
      AscendingWithout(kept, p);
    } else {
      NoneOf(Roomy(events, kept, count), a, kept);
    }
  }

  // ---------------------------------------------------------------- the endpoint keeps this account

  ghost predicate Agrees(events: seq<Event>, l: Ledger, manual: bool, o: Outcome) {
    && o.ep == Endpoint(manual, Kept(events, l.kept), Waiting(events, l.waiting))
    && o.pairs == PairingsAt(events, l.served)
  }

  function After(before: Outcome, o: Outcome): Outcome {
    Outcome(o.ep, before.pairs + o.pairs)
  }

  lemma PostingAgrees(events: seq<Event>, l: Ledger, manual: bool, n: nat, b: Buffer, before: Outcome)
    requires Agrees(events, l, manual, before) && BufferAt(events, n) == b && (!manual ==> l.waiting == {})
    requires forall i :: i in l.kept ==> i < n
    ensures Agrees(events, Posting(events, l, n, b.size), manual, After(before, Post(before.ep, b)))
  {
    var fits := Holdable(events, l.waiting, b.size);
    EarliestRequest(events, l.waiting, b.size);
    if fits == {} {
      AscendingSnoc(l.kept, n);
      AtMore(events, Ascending(l.kept), n);
    } else {
      AtLess(events, Ascending(l.waiting), FindApplicable(Waiting(events, l.waiting), b.size));
      PairingsMore(events, l.served, Given(Lowest(fits), n));
    }
  }

  lemma PollingAgrees(events: seq<Event>, l: Ledger, manual: bool, n: nat, r: Request, before: Outcome)
    requires Agrees(events, l, manual, before) && RequestAt(events, n) == r && forall i :: i in l.waiting ==> i < n
    ensures Agrees(events, Polling(events, l, n, r.count, manual), manual, After(before, Poll(before.ep, r)))
  {
    var fits := Roomy(events, l.kept, r.count);
    EarliestBuffer(events, l.kept, r.count);
    if fits != {} {
      AtLess(events, Ascending(l.kept), FindLarge(Kept(events, l.kept), r.count));
      PairingsMore(events, l.served, Given(n, Lowest(fits)));
    } else if manual {
      AscendingSnoc(l.waiting, n);
      AtMore(events, Ascending(l.waiting), n);
    } else {
      PairingsMore(events, l.served, Made(n));
    }
  }

  // An event more does not change what earlier ones brought.
  lemma SameEarlier(events: seq<Event>, n: nat, ps: seq<nat>)
    requires n < |events| && forall i :: 0 <= i < |ps| ==> ps[i] < n
    ensures BuffersAt(events[..n], ps) == BuffersAt(events, ps) && RequestsAt(events[..n], ps) == RequestsAt(events, ps)
  {
  }

  lemma StillAgrees(events: seq<Event>, l: Ledger, manual: bool, n: nat, o: Outcome)
    requires n < |events| && Within(l, n) && Agrees(events[..n], l, manual, o)
    ensures Agrees(events, l, manual, o)
  {
    AscendingAscends(l.kept);
    AscendingAscends(l.waiting);
    SameEarlier(events, n, Ascending(l.kept));
    SameEarlier(events, n, Ascending(l.waiting));
    assert PairingsAt(events[..n], l.served) == PairingsAt(events, l.served);
  }

  lemma HandledNext(events: seq<Event>)
    requires events != []
    ensures Handled(events) <==> Handled(events[..|events| - 1]) || events[|events| - 1].Handle?
  {
    if Handled(events) {
      var i :| 0 <= i < |events| && events[i].Handle?;
      assert i < |events| - 1 ==> events[..|events| - 1][i].Handle?;
    }
  }

  // Nothing waits where buffers are made.
  lemma {:induction false} NobodyWaits(events: seq<Event>)
    requires !Handled(events)
    ensures Account(events).waiting == {}
    decreases |events|
  {
    if events != [] {
      HandledNext(events);
      NobodyWaits(events[..|events| - 1]);
    }
  }

  /** Over any run the endpoint is as the account says: a buffer that is posted goes to the earliest waiting
      request that it can hold; a request gets the earliest kept buffer that is large enough; if there is none
      it waits, if the endpoint has been handled manually by then, and gets a new buffer otherwise. */
  lemma {:induction false} RunKeepsAccount(events: seq<Event>)
    ensures var o, l := Run(events), Account(events);
      && o.ep == Endpoint(Handled(events), Kept(events, l.kept), Waiting(events, l.waiting))
      && o.pairs == PairingsAt(events, l.served)
    decreases |events|
  {
    if events == [] {
      assert Agrees([], Account([]), Handled([]), Run([]));
    } else {
      var n := |events| - 1;
      var l, before, manual := Account(events[..n]), Run(events[..n]), Handled(events[..n]);
      RunKeepsAccount(events[..n]);
      AccountWithin(events[..n]);
      StillAgrees(events, l, manual, n, before);
      HandledNext(events);
      match events[n]
      case Handle => assert before.pairs + [] == before.pairs;
      case Posted(b) =>
        if !manual {
          NobodyWaits(events[..n]);
        }
        PostingAgrees(events, l, manual, n, b, before);
      case Polled(r) => PollingAgrees(events, l, manual, n, r, before);
    }
  }

  // ---------------------------------------------------------------- when a buffer is made

  lemma StillServed(events: seq<Event>, x: Serving)
    requires events != [] && x in Account(events[..|events| - 1]).served
    ensures x in Account(events).served
  {
  }

  lemma NoneRoomy(events: seq<Event>, kept: set<nat>, count: nat)
    ensures Roomy(events, kept, count) == {} <==> forall j :: j in kept ==> BufferAt(events, j).size < count
  {
    if Roomy(events, kept, count) == {} {
      forall j | j in kept
        ensures BufferAt(events, j).size < count
      {
        assert j !in Roomy(events, kept, count);
      }
    }
  }

  /** A buffer is made for a request exactly if no buffer kept then was large enough for it and the endpoint
      had not been handled manually. */
  lemma {:induction false} MadeIff(events: seq<Event>, n: nat)
    requires n < |events| && events[n].Polled?
    ensures Made(n) in Account(events).served
      <==> !Handled(events[..n]) && forall j :: j in Account(events[..n]).kept ==>
             BufferAt(events, j).size < events[n].request.count
    decreases |events|
  {
    var k := |events| - 1;
    var l := Account(events[..k]);
    AccountWithin(events[..k]);
    if n < k {
      assert events[..k][..n] == events[..n];
      MadeIff(events[..k], n);
      AccountWithin(events[..n]);
      assert forall j :: j in Account(events[..n]).kept ==> BufferAt(events[..k], j) == BufferAt(events, j);
    } else {
      assert Made(n) !in l.served;
      NoneRoomy(events, l.kept, events[n].request.count);
    }
  }

  /** Once it has been, every request is given a posted buffer, or still waits for one. */
  lemma {:induction false} GivenOrWaits(events: seq<Event>, n: nat)
    requires n < |events| && events[n].Polled? && Handled(events[..n])
    ensures n in Account(events).waiting || exists b :: Given(n, b) in Account(events).served
    decreases |events|
  {
    var k := |events| - 1;
    if n < k {
      assert events[..k][..n] == events[..n];
      GivenOrWaits(events[..k], n);
      if b :| Given(n, b) in Account(events[..k]).served {
        StillServed(events, Given(n, b));
      }
    }
  }
}
