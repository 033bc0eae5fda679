/** A mailbox matches values with requests. A request takes the oldest buffered value that matches it,
    or waits; a value goes to the oldest waiting request that matches it, or is buffered. A request
    whose delivery fails is dropped, and the value is delivered again. */
module Mailbox {
  import opened Common

  type Val = nat
  type Request = nat

  // Which requests match which values, and which deliveries succeed.
  type Matching = (Request, Val) -> bool
  type Delivery = (Request, Val) -> bool

  // New requests enter at the front, values at the back.
  datatype Mail = Mail(requests: seq<Request>, buffer: seq<Val>)

  datatype Delivered = Delivered(request: Request, val: Val)

  // What an operation leaves, what it delivered, and the requests it dropped.
  datatype Outcome = Outcome(mail: Mail, delivered: seq<Delivered>, dropped: seq<Request>)

  // The first buffered value that matches, or the length.
  function FindInBuffer(m: Matching, buffer: seq<Val>, r: Request): (p: nat)
    ensures p <= |buffer| && (p < |buffer| ==> m(r, buffer[p])) && forall q :: 0 <= q < p ==> !m(r, buffer[q])
  {
    if buffer == [] || m(r, buffer[0]) then 0
    else
      var p := FindInBuffer(m, buffer[1..], r);
      assert forall q :: 0 < q < p + 1 ==> buffer[q] == buffer[1..][q - 1];
      1 + p
  }

  // The last (so, the oldest) request that matches, or -1.
  function FindMatching(m: Matching, requests: seq<Request>, v: Val): (p: int)
    ensures -1 <= p < |requests| && (p >= 0 ==> m(requests[p], v))
    ensures forall q :: p < q < |requests| ==> !m(requests[q], v)
  {
    if requests == [] then -1
    else
      var n := |requests| - 1;
      if m(requests[n], v) then n else FindMatching(m, requests[..n], v)
  }

  function Put(m: Matching, mail: Mail, r: Request): Outcome {
    var p := FindInBuffer(m, mail.buffer, r);
    if p == |mail.buffer| then Outcome(mail.(requests := [r] + mail.requests), [], [])
    else Outcome(mail.(buffer := Without(mail.buffer, p)), [Delivered(r, mail.buffer[p])], [])
  }

  function Act(m: Matching, ok: Delivery, mail: Mail, v: Val): Outcome
    decreases |mail.requests|
  {
    var p := FindMatching(m, mail.requests, v);
    if p == -1 then Outcome(mail.(buffer := mail.buffer + [v]), [], [])
    else
      var r, rest := mail.requests[p], mail.(requests := Without(mail.requests, p));
      if ok(r, v) then Outcome(rest, [Delivered(r, v)], [])
      else
        var o := Act(m, ok, rest, v);
        o.(dropped := [r] + o.dropped)
  }

  // ---------------------------------------------------------------- at rest

  // No waiting request matches a buffered value.
  ghost predicate AtRest(m: Matching, mail: Mail) {
    forall i, j :: 0 <= i < |mail.requests| && 0 <= j < |mail.buffer| ==> !m(mail.requests[i], mail.buffer[j])
  }

  lemma PutRests(m: Matching, mail: Mail, r: Request)
    requires AtRest(m, mail)
    ensures AtRest(m, Put(m, mail, r).mail)
  {
    var after := Put(m, mail, r).mail;
    forall i, j | 0 <= i < |after.requests| && 0 <= j < |after.buffer|
      ensures !m(after.requests[i], after.buffer[j])
    {
      assert FindInBuffer(m, mail.buffer, r) == |mail.buffer| && i > 0 ==> after.requests[i] == mail.requests[i - 1];
    }
  }

  lemma {:induction false} ActRests(m: Matching, ok: Delivery, mail: Mail, v: Val)
    requires AtRest(m, mail)
    ensures AtRest(m, Act(m, ok, mail, v).mail)
    decreases |mail.requests|
  {
    var p := FindMatching(m, mail.requests, v);
    if p >= 0 {
      ActRests(m, ok, mail.(requests := Without(mail.requests, p)), v);
    }
  }

  // ---------------------------------------------------------------- who gets what

  // The last (so, the oldest) request that matches and can be delivered to, or -1.
  function Taker(m: Matching, ok: Delivery, requests: seq<Request>, v: Val): (p: int)
    ensures -1 <= p < |requests| && (p >= 0 ==> m(requests[p], v) && ok(requests[p], v))
    ensures forall q :: p < q < |requests| ==> !(m(requests[q], v) && ok(requests[q], v))
  {
    if requests == [] then -1
    else
      var n := |requests| - 1;
      if m(requests[n], v) && ok(requests[n], v) then n else Taker(m, ok, requests[..n], v)
  }

  // Those that do not match, in order.
  function Others(m: Matching, requests: seq<Request>, v: Val): seq<Request> {
    if requests == [] then []
    else
      var n := |requests| - 1;
      Others(m, requests[..n], v) + if m(requests[n], v) then [] else [requests[n]]
  }

  lemma {:induction false} TakerIs(m: Matching, ok: Delivery, requests: seq<Request>, v: Val, p: int)
    requires -1 <= p < |requests| && (p >= 0 ==> m(requests[p], v) && ok(requests[p], v))
    requires forall q :: p < q < |requests| ==> !(m(requests[q], v) && ok(requests[q], v))
    ensures Taker(m, ok, requests, v) == p
  {
  }

  lemma {:induction false} OthersAll(m: Matching, requests: seq<Request>, v: Val)
    requires forall q :: 0 <= q < |requests| ==> !m(requests[q], v)
    ensures Others(m, requests, v) == requests
    decreases |requests|
  {
    if requests != [] {
      OthersAll(m, requests[..|requests| - 1], v);
    }
  }

  lemma {:induction false} OthersWithout(m: Matching, requests: seq<Request>, v: Val, p: nat)
    requires p < |requests| && m(requests[p], v)
    ensures Others(m, Without(requests, p), v) == Others(m, requests, v)
    decreases |requests|
  {
    var n := |requests| - 1;
    if p == n {
      assert Without(requests, p) == requests[..n];
    } else {
      OthersWithout(m, requests[..n], v, p);
      assert Without(requests, p)[..n - 1] == Without(requests[..n], p);
    }
  }

  /** A value goes to the oldest matching request whose delivery succeeds, or is buffered if there is
      none. Older matching requests whose delivery fails are dropped; all others stay, in order. */
  lemma {:induction false} OldestTakes(m: Matching, ok: Delivery, mail: Mail, v: Val)
    ensures var o, t := Act(m, ok, mail, v), Taker(m, ok, mail.requests, v);
      && (t == -1 ==> o.mail == Mail(Others(m, mail.requests, v), mail.buffer + [v]) && o.delivered == [])
      && (t >= 0 ==> o.mail == Mail(mail.requests[..t] + Others(m, mail.requests[t + 1..], v), mail.buffer))
      && (t >= 0 ==> o.delivered == [Delivered(mail.requests[t], v)])
    decreases |mail.requests|
  {
    var p, t := FindMatching(m, mail.requests, v), Taker(m, ok, mail.requests, v);
    if p == -1 {
      OthersAll(m, mail.requests, v);
    } else if ok(mail.requests[p], v) {
      TakerIs(m, ok, mail.requests, v, p);
      OthersAll(m, mail.requests[p + 1..], v);
    } else {
      FailedIsDropped(m, ok, mail.requests, v, p);
      OldestTakes(m, ok, mail.(requests := Without(mail.requests, p)), v);
    }
  }

  lemma FailedIsDropped(m: Matching, ok: Delivery, requests: seq<Request>, v: Val, p: nat)
    requires p < |requests| && m(requests[p], v) && !ok(requests[p], v)
    requires forall q :: p < q < |requests| ==> !m(requests[q], v)
    ensures var rest, t := Without(requests, p), Taker(m, ok, requests, v);
      && Taker(m, ok, rest, v) == t < p && Others(m, rest, v) == Others(m, requests, v)
      && (t >= 0 ==> rest[..t] == requests[..t] && rest[t] == requests[t])
      && (t >= 0 ==> Others(m, rest[t + 1..], v) == Others(m, requests[t + 1..], v))
  {
    var rest, t := Without(requests, p), Taker(m, ok, requests, v);
    assert t < p;
    forall q | t < q < |rest|
      ensures !(m(rest[q], v) && ok(rest[q], v))
    {
      assert rest[q] == if q < p then requests[q] else requests[q + 1];
    }
    TakerIs(m, ok, rest, v, t);
    OthersWithout(m, requests, v, p);
    if t >= 0 {
      FailedIsNewer(m, requests, v, p, t);
    }
  }

  lemma FailedIsNewer(m: Matching, requests: seq<Request>, v: Val, p: nat, t: nat)
    requires t < p < |requests| && m(requests[p], v)
    ensures var rest := Without(requests, p);
      rest[..t] == requests[..t] && rest[t] == requests[t]
        && Others(m, rest[t + 1..], v) == Others(m, requests[t + 1..], v)
  {
    assert Without(requests, p)[t + 1..] == Without(requests[t + 1..], p - t - 1);
    OthersWithout(m, requests[t + 1..], v, p - t - 1);
  }

  /** A request takes the oldest value that matches it. */
  lemma OldestTaken(m: Matching, mail: Mail, r: Request, p: nat)
    requires p < |mail.buffer| && m(r, mail.buffer[p]) && forall q :: 0 <= q < p ==> !m(r, mail.buffer[q])
    ensures Put(m, mail, r) == Outcome(mail.(buffer := Without(mail.buffer, p)), [Delivered(r, mail.buffer[p])], [])
  {
  }

  // ---------------------------------------------------------------- nothing is lost

  function Vals(ds: seq<Delivered>): seq<Val> {
    seq(|ds|, i requires 0 <= i < |ds| => ds[i].val)
  }

  function Requests(ds: seq<Delivered>): seq<Request> {
    seq(|ds|, i requires 0 <= i < |ds| => ds[i].request)
  }

  /** A value that arrives is buffered or delivered, once; a request that is put waits or is delivered
      to, once, unless its delivery fails and it is dropped. */
  lemma {:induction false} ActConserves(m: Matching, ok: Delivery, mail: Mail, v: Val, u: Val, r: Request)
    ensures var o := Act(m, ok, mail, v);
      && Times(o.mail.buffer, u) + Times(Vals(o.delivered), u) == Times(mail.buffer, u) + (if u == v then 1 else 0)
      && Times(o.mail.requests, r) + Times(Requests(o.delivered), r) + Times(o.dropped, r) == Times(mail.requests, r)
      && |o.delivered| <= 1
    decreases |mail.requests|
  {
    var p := FindMatching(m, mail.requests, v);
    if p >= 0 {
      var q, rest := mail.requests[p], mail.(requests := Without(mail.requests, p));
      TimesWithout(mail.requests, p, r);
      if ok(q, v) {
        assert Vals([Delivered(q, v)]) == [v] && Requests([Delivered(q, v)]) == [q];
      } else {
        ActConserves(m, ok, rest, v, u, r);
      }
    }
  }

  lemma PutConserves(m: Matching, mail: Mail, q: Request, u: Val, r: Request)
    ensures var o := Put(m, mail, q);
      && Times(o.mail.buffer, u) + Times(Vals(o.delivered), u) == Times(mail.buffer, u)
      && Times(o.mail.requests, r) + Times(Requests(o.delivered), r)
           == Times(mail.requests, r) + (if r == q then 1 else 0)
      && o.dropped == []
  {
    var p := FindInBuffer(m, mail.buffer, q);
    if p < |mail.buffer| {
      TimesWithout(mail.buffer, p, u);
      var d := Delivered(q, mail.buffer[p]);
      assert Vals([d]) == [d.val] && Requests([d]) == [q];
    }
  }

  // ---------------------------------------------------------------- runs

  datatype Event = Asks(request: Request) | Arrives(val: Val, ok: Delivery)

  function Next(m: Matching, mail: Mail, e: Event): Outcome {
    match e
    case Asks(r) => Put(m, mail, r)
    case Arrives(v, ok) => Act(m, ok, mail, v)
  }

  function Run(m: Matching, events: seq<Event>): Outcome
    decreases |events|
  {
    if events == [] then Outcome(Mail([], []), [], [])
    else
      var before := Run(m, events[..|events| - 1]);
      var o := Next(m, before.mail, events[|events| - 1]);
      Outcome(o.mail, before.delivered + o.delivered, before.dropped + o.dropped)
  }

  function Arrived(events: seq<Event>, v: Val): nat {
    if events == [] then 0
    else Arrived(events[..|events| - 1], v) + if events[|events| - 1].Arrives?
      && events[|events| - 1].val == v then 1 else 0
  }

  function Asked(events: seq<Event>, r: Request): nat {
    if events == [] then 0
    else Asked(events[..|events| - 1], r) + if events[|events| - 1].Asks? && events[|events| - 1].request == r then 1
      else 0
  }

  lemma {:induction false} RunRests(m: Matching, events: seq<Event>)
    ensures AtRest(m, Run(m, events).mail)
    decreases |events|
  {
    if events != [] {
      var n := |events| - 1;
      RunRests(m, events[..n]);
      match events[n]
      case Asks(r) => PutRests(m, Run(m, events[..n]).mail, r);
      case Arrives(v, ok) => ActRests(m, ok, Run(m, events[..n]).mail, v);
    }
  }

  lemma NextConserves(m: Matching, mail: Mail, e: Event, v: Val, r: Request)
    ensures var o := Next(m, mail, e);
      && Times(o.mail.buffer, v) + Times(Vals(o.delivered), v)
           == Times(mail.buffer, v) + (if e.Arrives? && e.val == v then 1 else 0)
      && Times(o.mail.requests, r) + Times(Requests(o.delivered), r) + Times(o.dropped, r)
         == Times(mail.requests, r) + (if e.Asks? && e.request == r then 1 else 0)
  {
    match e
    case Asks(q) => PutConserves(m, mail, q, v, r);
    case Arrives(u, ok) => ActConserves(m, ok, mail, u, v, r);
  }

  lemma {:induction false} RunConserves(m: Matching, events: seq<Event>, v: Val, r: Request)
    ensures var o := Run(m, events);
      && Times(o.mail.buffer, v) + Times(Vals(o.delivered), v) == Arrived(events, v)
      && Times(o.mail.requests, r) + Times(Requests(o.delivered), r) + Times(o.dropped, r) == Asked(events, r)
    decreases |events|
  {
    if events != [] {
      var n := |events| - 1;
      var before := Run(m, events[..n]);
      var o := Next(m, before.mail, events[n]);
      RunConserves(m, events[..n], v, r);
      NextConserves(m, before.mail, events[n], v, r);
      TogetherDelivered(before.delivered, o.delivered, v, r);
      TimesTogether(before.dropped, o.dropped, r);
    }
  }

  lemma TimesTogether<T>(a: seq<T>, b: seq<T>, x: T)
    ensures Times(a + b, x) == Times(a, x) + Times(b, x)
  {
  }

  lemma TogetherDelivered(a: seq<Delivered>, b: seq<Delivered>, v: Val, r: Request)
    ensures Times(Vals(a + b), v) == Times(Vals(a), v) + Times(Vals(b), v)
    ensures Times(Requests(a + b), r) == Times(Requests(a), r) + Times(Requests(b), r)
  {
    assert Vals(a + b) == Vals(a) + Vals(b);
    assert Requests(a + b) == Requests(a) + Requests(b);
  }

  // ---------------------------------------------------------------- the mailbox

  class Box {
    const m: Matching
    var requests: seq<Request>
    var buffer: seq<Val>

    constructor (m: Matching)
      ensures this.m == m && Contents() == Mail([], [])
    {
      this.m, requests, buffer := m, [], [];
    }

    function Contents(): Mail
      reads this
    {
      Mail(requests, buffer)
    }

    method SearchBuffer(r: Request) returns (p: nat)
      ensures p == FindInBuffer(m, buffer, r)
    {
      p := 0;
      while p < |buffer| && !m(r, buffer[p])
        invariant p <= |buffer| && forall q :: 0 <= q < p ==> !m(r, buffer[q])
      {
        p := p + 1;
      }
    }

    method SearchRequests(v: Val) returns (p: int)
      ensures p == FindMatching(m, requests, v)
    {
      p := |requests| - 1;
      while p >= 0 && !m(requests[p], v)
        invariant -1 <= p < |requests| && forall q :: p < q < |requests| ==> !m(requests[q], v)
      {
        p := p - 1;
      }
    }

    method PutRequest(r: Request) returns (delivered: seq<Delivered>)
      modifies this
      ensures Outcome(Contents(), delivered, []) == Put(m, old(Contents()), r)
    {
      var p := SearchBuffer(r);
      if p == |buffer| {
        requests := [r] + requests;
        return [];
      }
      delivered := [Delivered(r, buffer[p])];
      buffer := Without(buffer, p);
    }

    method Action(v: Val, ok: Delivery) returns (delivered: seq<Delivered>, dropped: seq<Request>)
      modifies this
      ensures Outcome(Contents(), delivered, dropped) == Act(m, ok, old(Contents()), v)
      decreases |requests|
    {
      delivered, dropped := [], [];
      var p := SearchRequests(v);
      if p == -1 {
        buffer := buffer + [v];
        return;
      }
      var r := requests[p];
      requests := Without(requests, p);
      if ok(r, v) {
        delivered := [Delivered(r, v)];
      } else {
        delivered, dropped := Action(v, ok);
        dropped := [r] + dropped;
      }
    }
  }
}
