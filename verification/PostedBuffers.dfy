/** Receive buffers that the application posts for an endpoint, and requests for one that messages make.

    A request takes the first posted buffer that is large enough. If there is none, it waits, as long as
    the endpoint is handled manually; otherwise a buffer is allocated for it. A posted buffer goes to the
    first waiting request that it is large enough for, or is kept. */
module PostedBuffers {
  import opened Common

  // Numbers tell buffers and requests apart.
  datatype Buffer = Buffer(id: nat, size: nat)
  datatype Request = Request(id: nat, count: nat)

  // One endpoint.
  datatype Endpoint = Endpoint(manual: bool, buffers: seq<Buffer>, requests: seq<Request>)

  // A request and the buffer it got, unless it was allocated for it.
  datatype Pairing = Paired(request: Request, buffer: Buffer) | Allocated(request: Request)

  datatype Outcome = Outcome(ep: Endpoint, pairs: seq<Pairing>)

  // The first request that fits into a buffer, or the length.
  function FindApplicable(requests: seq<Request>, size: nat): (p: nat)
    ensures p <= |requests| && (p < |requests| ==> requests[p].count <= size)
    ensures forall q :: 0 <= q < p ==> requests[q].count > size
  {
    if requests == [] || requests[0].count <= size then 0
    else
      var p := FindApplicable(requests[1..], size);
      assert forall q :: 0 < q < p + 1 ==> requests[q] == requests[1..][q - 1];
      1 + p
  }

  // The first buffer that is large enough, or the length.
  function FindLarge(buffers: seq<Buffer>, goal: nat): (p: nat)
    ensures p <= |buffers| && (p < |buffers| ==> buffers[p].size >= goal)
    ensures forall q :: 0 <= q < p ==> buffers[q].size < goal
  {
    if buffers == [] || buffers[0].size >= goal then 0
    else
      var p := FindLarge(buffers[1..], goal);
      assert forall q :: 0 < q < p + 1 ==> buffers[q] == buffers[1..][q - 1];
      1 + p
  }

  function Post(e: Endpoint, b: Buffer): Outcome {
    var p := FindApplicable(e.requests, b.size);
    if !e.manual || p == |e.requests| then Outcome(e.(buffers := e.buffers + [b]), [])
    else Outcome(e.(requests := Without(e.requests, p)), [Paired(e.requests[p], b)])
  }

  function Poll(e: Endpoint, r: Request): Outcome {
    var p := FindLarge(e.buffers, r.count);
    if p < |e.buffers| then Outcome(e.(buffers := Without(e.buffers, p)), [Paired(r, e.buffers[p])])
    else if e.manual then Outcome(e.(requests := e.requests + [r]), [])
    else Outcome(e, [Allocated(r)])
  }

  // ---------------------------------------------------------------- runs

  datatype Event = Handle | Posted(buffer: Buffer) | Polled(request: Request)

  function Next(e: Endpoint, v: Event): Outcome {
    match v
    case Handle => Outcome(e.(manual := true), [])
    case Posted(b) => Post(e, b)
    case Polled(r) => Poll(e, r)
  }

  function Run(events: seq<Event>): Outcome
    decreases |events|
  {
    if events == [] then Outcome(Endpoint(false, [], []), [])
    else
      var before := Run(events[..|events| - 1]);
      var o := Next(before.ep, events[|events| - 1]);
      Outcome(o.ep, before.pairs + o.pairs)
  }

  // Nothing waits that could be paired, and nothing waits at all where buffers are allocated.
  ghost predicate Apart(e: Endpoint) {
    && (forall i, j :: 0 <= i < |e.buffers| && 0 <= j < |e.requests| ==> e.buffers[i].size < e.requests[j].count)
    && (!e.manual ==> e.requests == [])
  }

  predicate LargeEnough(p: Pairing) {
    p.Paired? ==> p.request.count <= p.buffer.size
  }

  lemma NextApart(e: Endpoint, v: Event)
    requires Apart(e)
    ensures Apart(Next(e, v).ep) && forall p :: p in Next(e, v).pairs ==> LargeEnough(p)
  {
  }

  /** In every reachable state each posted buffer is smaller than each waiting request, and every request
      that got a buffer fits into it. */
  lemma {:induction false} AlwaysApart(events: seq<Event>)
    ensures Apart(Run(events).ep) && forall p :: p in Run(events).pairs ==> LargeEnough(p)
    decreases |events|
  {
    if events != [] {
      AlwaysApart(events[..|events| - 1]);
      NextApart(Run(events[..|events| - 1]).ep, events[|events| - 1]);
    }
  }

  // ---------------------------------------------------------------- nothing is used twice

  function Used(ps: seq<Pairing>, b: Buffer): nat {
    if ps == [] then 0 else Used(ps[..|ps| - 1], b) + if ps[|ps| - 1].Paired? && ps[|ps| - 1].buffer == b then 1 else 0
  }

  function Served(ps: seq<Pairing>, r: Request): nat {
    if ps == [] then 0 else Served(ps[..|ps| - 1], r) + if ps[|ps| - 1].request == r then 1 else 0
  }

  function TimesPosted(events: seq<Event>, b: Buffer): nat {
    if events == [] then 0 else TimesPosted(events[..|events| - 1], b) + if events[|events| - 1] == Posted(b) then 1
      else 0
  }

  function TimesPolled(events: seq<Event>, r: Request): nat {
    if events == [] then 0 else TimesPolled(events[..|events| - 1], r) + if events[|events| - 1] == Polled(r) then 1
      else 0
  }

  lemma OnePair(p: Pairing, b: Buffer, r: Request)
    ensures Used([p], b) == (if p.Paired? && p.buffer == b then 1 else 0)
      && Served([p], r) == if p.request == r then 1 else 0
  {
    assert [p][..0] == [];
  }

  lemma NextConserves(e: Endpoint, v: Event, b: Buffer, r: Request)
    ensures var o := Next(e, v);
      && Times(o.ep.buffers, b) + Used(o.pairs, b) == Times(e.buffers, b) + (if v == Posted(b) then 1 else 0)
      && Times(o.ep.requests, r) + Served(o.pairs, r) == Times(e.requests, r) + (if v == Polled(r) then 1 else 0)
      && |o.pairs| <= 1
  {
    match v
    case Handle =>
    case Posted(x) =>
      var p := FindApplicable(e.requests, x.size);
      if e.manual && p < |e.requests| {
        TimesWithout(e.requests, p, r);
        OnePair(Paired(e.requests[p], x), b, r);
      }
    case Polled(q) =>
      var p := FindLarge(e.buffers, q.count);
      if p < |e.buffers| {
        TimesWithout(e.buffers, p, b);
        OnePair(Paired(q, e.buffers[p]), b, r);
      } else if !e.manual {
        OnePair(Allocated(q), b, r);
      }
  }

  /** A buffer is used, or still kept, as often as it was posted; a request is served, or still waits,
      as often as it was made. */
  lemma {:induction false} NothingUsedTwice(events: seq<Event>, b: Buffer, r: Request)
    ensures var o := Run(events);
      && Times(o.ep.buffers, b) + Used(o.pairs, b) == TimesPosted(events, b)
      && Times(o.ep.requests, r) + Served(o.pairs, r) == TimesPolled(events, r)
    decreases |events|
  {
    if events != [] {
      var n := |events| - 1;
      var before := Run(events[..n]);
      var o := Next(before.ep, events[n]);
      NothingUsedTwice(events[..n], b, r);
      NextConserves(before.ep, events[n], b, r);
      if o.pairs == [] {
        assert before.pairs + o.pairs == before.pairs;
      } else {
        OnePair(o.pairs[0], b, r);
        assert o.pairs == [o.pairs[0]];
        assert (before.pairs + o.pairs)[..|before.pairs|] == before.pairs;
      }
    }
  }

  // ---------------------------------------------------------------- all endpoints

  type EndpointId = nat

  class Table {
    var buffers: map<EndpointId, seq<Buffer>>
    var outstanding: map<EndpointId, seq<Request>>

    constructor ()
      ensures forall e :: At(e) == Endpoint(false, [], [])
    {
      buffers, outstanding := map[], map[];
    }

    // An endpoint is handled manually once it has a queue of requests, even an empty one.
    function At(e: EndpointId): Endpoint
      reads this
    {
      Endpoint(e in outstanding, if e in buffers then buffers[e] else [],
               if e in outstanding then outstanding[e] else [])
    }

    method HandleManually(e: EndpointId)
      modifies this
      ensures At(e) == old(At(e)).(manual := true) && forall x :: x != e ==> At(x) == old(At(x))
    {
      if e !in outstanding {
        outstanding := outstanding[e := []];
      }
    }

    method PostBuffer(e: EndpointId, b: Buffer) returns (pairs: seq<Pairing>)
      modifies this
      ensures Outcome(At(e), pairs) == Post(old(At(e)), b) && forall x :: x != e ==> At(x) == old(At(x))
    {
      var queue := if e in outstanding then outstanding[e] else [];
      var p := 0;
      while p < |queue| && queue[p].count > b.size
        invariant p <= |queue| && forall q :: 0 <= q < p ==> queue[q].count > b.size
      {
        p := p + 1;
      }
      if p == |queue| {
        buffers := buffers[e := (if e in buffers then buffers[e] else []) + [b]];
        return [];
      }
      outstanding := outstanding[e := Without(queue, p)];
      return [Paired(queue[p], b)];
    }

    method PollBuffer(e: EndpointId, r: Request) returns (pairs: seq<Pairing>)
      modifies this
      ensures Outcome(At(e), pairs) == Poll(old(At(e)), r) && forall x :: x != e ==> At(x) == old(At(x))
    {
      var queue := if e in buffers then buffers[e] else [];
      var p := 0;
      while p < |queue| && queue[p].size < r.count
        invariant p <= |queue| && forall q :: 0 <= q < p ==> queue[q].size < r.count
      {
        p := p + 1;
      }
      if p < |queue| {
        var rest := Without(queue, p);
        buffers := if rest == [] then buffers - {e} else buffers[e := rest];
        return [Paired(r, queue[p])];
      }
      if e !in outstanding {
        return [Allocated(r)];
      }
      outstanding := outstanding[e := outstanding[e] + [r]];
      return [];
    }
  }
}
