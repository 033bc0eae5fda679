/** Whole runs of a mailbox, accounted for by the moments at which requests were put and values arrived. */
module MailboxRuns {
  import opened Common
  import opened Mailbox

  // ---------------------------------------------------------------- the account

  // Requests and values, by the numbers of the events that brought them: what waits, what is buffered, which
  // value went to which request, and which requests were dropped.
  datatype Ledger = Ledger(waiting: set<nat>, stored: set<nat>, served: seq<(nat, nat)>, dropped: seq<nat>)

  function RequestAt(events: seq<Event>, i: nat): Request {
    if i < |events| && events[i].Asks? then events[i].request else 0
  }

  function ValAt(events: seq<Event>, j: nat): Val {
    if j < |events| && events[j].Arrives? then events[j].val else 0
  }

  // The waiting requests that match a value, and those of them that it can be delivered to.
  function Matching(m: Matching, events: seq<Event>, waiting: set<nat>, v: Val): set<nat> {
    set i | i in waiting && m(RequestAt(events, i), v)
  }

  function Able(ok: Delivery, events: seq<Event>, some: set<nat>, v: Val): set<nat> {
    set i | i in some && ok(RequestAt(events, i), v)
  }

  // The buffered values that match a request.
  function Suitable(m: Matching, events: seq<Event>, stored: set<nat>, r: Request): set<nat> {
    set j | j in stored && m(r, ValAt(events, j))
  }

  // Those whose delivery is tried in vain: all that match, or those that are earlier than the one that can.
  function Vain(fits: set<nat>, able: set<nat>): set<nat> {
    if able == {} then fits else set i | i in fits && i < Lowest(able)
  }

  // Request number n takes the earliest value that matches, or waits.
  function Asking(m: Matching, events: seq<Event>, l: Ledger, n: nat, r: Request): Ledger {
    var fits := Suitable(m, events, l.stored, r);
    if fits == {} then l.(waiting := l.waiting + {n})
    else l.(stored := l.stored - {Lowest(fits)}, served := l.served + [(n, Lowest(fits))])
  }

  // Value number n goes to the earliest request that matches and can be delivered to, or is buffered.
  function Arriving(m: Matching, ok: Delivery, events: seq<Event>, l: Ledger, n: nat, v: Val): Ledger {
    var fits := Matching(m, events, l.waiting, v);
    var able := Able(ok, events, fits, v);
    var rest := l.(waiting := l.waiting - Vain(fits, able), dropped := l.dropped + Ascending(Vain(fits, able)));
    if able == {} then rest.(stored := rest.stored + {n})
    else rest.(waiting := rest.waiting - {Lowest(able)}, served := rest.served + [(Lowest(able), n)])
  }

  function Account(m: Matching, events: seq<Event>): Ledger
    decreases |events|
  {
    if events == [] then Ledger({}, {}, [], [])
    else
      var n := |events| - 1;
      match events[n]
      case Asks(r) => Asking(m, events, Account(m, events[..n]), n, r)
      case Arrives(v, ok) => Arriving(m, ok, events, Account(m, events[..n]), n, v)
  }

  // All of this happened before event number n.
  ghost predicate Within(l: Ledger, n: nat) {
    && (forall i :: i in l.waiting ==> i < n) && (forall j :: j in l.stored ==> j < n)
    && (forall i :: 0 <= i < |l.served| ==> l.served[i].0 < n && l.served[i].1 < n)
    && forall i :: 0 <= i < |l.dropped| ==> l.dropped[i] < n
  }

  lemma {:induction false} AccountWithin(m: Matching, events: seq<Event>)
    ensures Within(Account(m, events), |events|)
    decreases |events|
  {
    if events != [] {
      var n := |events| - 1;
      var l := Account(m, events[..n]);
      AccountWithin(m, events[..n]);
      if events[n].Arrives? {
        var fits := Matching(m, events, l.waiting, events[n].val);
        AscendingAscends(Vain(fits, Able(events[n].ok, events, fits, events[n].val)));
      }
    }
  }

  // ---------------------------------------------------------------- lists and sets

  function Backwards<T>(s: seq<T>): seq<T> {
    seq(|s|, i requires 0 <= i < |s| => s[|s| - 1 - i])
  }

  function RequestsAt(events: seq<Event>, ps: seq<nat>): seq<Request> {
    seq(|ps|, i requires 0 <= i < |ps| => RequestAt(events, ps[i]))
  }

  function ValsAt(events: seq<Event>, ps: seq<nat>): seq<Val> {
    seq(|ps|, i requires 0 <= i < |ps| => ValAt(events, ps[i]))
  }

  function PairsAt(events: seq<Event>, ps: seq<(nat, nat)>): seq<Delivered> {
    seq(|ps|, i requires 0 <= i < |ps| => Delivered(RequestAt(events, ps[i].0), ValAt(events, ps[i].1)))
  }

  // The latest first.
  function Latest(events: seq<Event>, ps: seq<nat>): seq<Request> {
    Backwards(RequestsAt(events, ps))
  }

  // The waiting requests, the latest first, and the buffered values, the earliest first.
  function Waiting(events: seq<Event>, waiting: set<nat>): seq<Request> {
    Latest(events, Ascending(waiting))
  }

  function Buffered(events: seq<Event>, stored: set<nat>): seq<Val> {
    ValsAt(events, Ascending(stored))
  }

  lemma LatestMore(events: seq<Event>, ps: seq<nat>, n: nat)
    ensures Latest(events, ps + [n]) == [RequestAt(events, n)] + Latest(events, ps)
    ensures ValsAt(events, ps + [n]) == ValsAt(events, ps) + [ValAt(events, n)]
  {
  }

  lemma LatestAt(events: seq<Event>, ps: seq<nat>, p: nat)
    requires p < |ps|
    ensures |Latest(events, ps)| == |ps| && Latest(events, ps)[p] == RequestAt(events, ps[|ps| - 1 - p])
  {
  }

  lemma LatestLess(events: seq<Event>, ps: seq<nat>, p: nat)
    requires p < |ps|
    ensures Latest(events, Without(ps, |ps| - 1 - p)) == Without(Latest(events, ps), p)
  {
    var a, b := Latest(events, Without(ps, |ps| - 1 - p)), Without(Latest(events, ps), p);
    assert |a| == |b|;
    forall i | 0 <= i < |a|
      ensures a[i] == b[i]
    {
    }
  }

  lemma ValsLess(events: seq<Event>, ps: seq<nat>, p: nat)
    requires p < |ps|
    ensures ValsAt(events, Without(ps, p)) == Without(ValsAt(events, ps), p)
  {
  }

  lemma WaitingMore(events: seq<Event>, waiting: set<nat>, n: nat)
    requires forall i :: i in waiting ==> i < n
    ensures Waiting(events, waiting + {n}) == [RequestAt(events, n)] + Waiting(events, waiting)
  {
    AscendingSnoc(waiting, n);
    LatestMore(events, Ascending(waiting), n);
  }

  lemma BufferedMore(events: seq<Event>, stored: set<nat>, n: nat)
    requires forall j :: j in stored ==> j < n
    ensures Buffered(events, stored + {n}) == Buffered(events, stored) + [ValAt(events, n)]
  {
    AscendingSnoc(stored, n);
    LatestMore(events, Ascending(stored), n);
  }

  lemma WaitingLess(events: seq<Event>, waiting: set<nat>, p: nat)
    requires p < |Ascending(waiting)|
    ensures var x := Ascending(waiting)[|Ascending(waiting)| - 1 - p];
      p < |Waiting(events, waiting)| && Waiting(events, waiting - {x}) == Without(Waiting(events, waiting), p)
  {
    var a := Ascending(waiting);
    AscendingWithout(waiting, |a| - 1 - p);
    LatestLess(events, a, p);
  }

  lemma BufferedLess(events: seq<Event>, stored: set<nat>, p: nat)
    requires p < |Ascending(stored)|
    ensures p < |Buffered(events, stored)|
    ensures Buffered(events, stored - {Ascending(stored)[p]}) == Without(Buffered(events, stored), p)
  {
    AscendingWithout(stored, p);
    ValsLess(events, Ascending(stored), p);
  }

  // The request found from the back is the earliest that matches.
  lemma FindsFromBack(m: Matching, events: seq<Event>, ps: seq<nat>, v: Val)
    ensures var p := FindMatching(m, Latest(events, ps), v);
      && -1 <= p < |ps| && (p >= 0 ==> m(RequestAt(events, ps[|ps| - 1 - p]), v))
      && forall k :: 0 <= k < |ps| - 1 - p ==> !m(RequestAt(events, ps[k]), v)
  {
    var rs := Latest(events, ps);
    var p := FindMatching(m, rs, v);
    assert |rs| == |ps|;
    forall k | 0 <= k < |ps| - 1 - p
      ensures !m(RequestAt(events, ps[k]), v)
    {
      assert rs[|ps| - 1 - k] == RequestAt(events, ps[k]);
    }
  }

  lemma FindsEarliest(m: Matching, events: seq<Event>, waiting: set<nat>, v: Val)
    ensures var p, a := FindMatching(m, Waiting(events, waiting), v), Ascending(waiting);
      var fits := Matching(m, events, waiting, v);
      -1 <= p < |a| && if p == -1 then fits == {} else fits != {} && a[|a| - 1 - p] == Lowest(fits)
  {
    var p, a := FindMatching(m, Waiting(events, waiting), v), Ascending(waiting);
    var fits := Matching(m, events, waiting, v);
    AscendingAscends(waiting);
    FindsFromBack(m, events, a, v);
    if p >= 0 {
      EarliestOf(fits, a, waiting, |a| - 1 - p);
    } else {
      NoneOf(fits, a, waiting);
    }
  }

  // The value found from the front is the earliest that matches.
  lemma FindsFromFront(m: Matching, events: seq<Event>, ps: seq<nat>, r: Request)
    ensures var p := FindInBuffer(m, ValsAt(events, ps), r);
      && p <= |ps| && (p < |ps| ==> m(r, ValAt(events, ps[p])))
      && forall k :: 0 <= k < p ==> !m(r, ValAt(events, ps[k]))
  {
    var vs := ValsAt(events, ps);
    forall k | 0 <= k < FindInBuffer(m, vs, r)
      ensures !m(r, ValAt(events, ps[k]))
    {
      assert vs[k] == ValAt(events, ps[k]);
    }
  }

  lemma FindsFirst(m: Matching, events: seq<Event>, stored: set<nat>, r: Request)
    ensures var p, a := FindInBuffer(m, Buffered(events, stored), r), Ascending(stored);
      var fits := Suitable(m, events, stored, r);
      p <= |a| && if p == |a| then fits == {} else fits != {} && a[p] == Lowest(fits)
  {
    var p, a := FindInBuffer(m, Buffered(events, stored), r), Ascending(stored);
    var fits := Suitable(m, events, stored, r);
    AscendingAscends(stored);
    FindsFromFront(m, events, a, r);
    if p < |a| {
      EarliestOf(fits, a, stored, p);
    } else {
      NoneOf(fits, a, stored);
    }
  }

  // ---------------------------------------------------------------- the mailbox keeps this account

  // A request is put while `rs` wait.
  lemma PutTakes(m: Matching, events: seq<Event>, rs: seq<Request>, stored: set<nat>, r: Request)
    requires Suitable(m, events, stored, r) != {}
    ensures var x := Lowest(Suitable(m, events, stored, r));
      Put(m, Mail(rs, Buffered(events, stored)), r)
      == Outcome(Mail(rs, Buffered(events, stored - {x})), [Delivered(r, ValAt(events, x))], [])
  {
    FindsFirst(m, events, stored, r);
    BufferedLess(events, stored, FindInBuffer(m, Buffered(events, stored), r));
  }

  lemma PutWaits(m: Matching, events: seq<Event>, rs: seq<Request>, stored: set<nat>, r: Request)
    requires Suitable(m, events, stored, r) == {}
    ensures Put(m, Mail(rs, Buffered(events, stored)), r)
         == Outcome(Mail([r] + rs, Buffered(events, stored)), [], [])
  {
    FindsFirst(m, events, stored, r);
  }

  // What is in flight at a moment, and what has been delivered and dropped until then.
  ghost predicate Kept(events: seq<Event>, l: Ledger, o: Outcome) {
    && o.mail == Mail(Waiting(events, l.waiting), Buffered(events, l.stored))
    && o.delivered == PairsAt(events, l.served) && o.dropped == RequestsAt(events, l.dropped)
  }

  function After(before: Outcome, o: Outcome): Outcome {
    Outcome(o.mail, before.delivered + o.delivered, before.dropped + o.dropped)
  }

  lemma PairsMore(events: seq<Event>, ps: seq<(nat, nat)>, d: (nat, nat))
    ensures PairsAt(events, ps + [d]) == PairsAt(events, ps) + [Delivered(RequestAt(events, d.0), ValAt(events, d.1))]
  {
  }

  lemma AskingKeeps(m: Matching, events: seq<Event>, l: Ledger, n: nat, r: Request, before: Outcome)
    requires (forall i :: i in l.waiting ==> i < n) && RequestAt(events, n) == r && Kept(events, l, before)
    ensures Kept(events, Asking(m, events, l, n, r), After(before, Put(m, before.mail, r)))
  {
    var fits := Suitable(m, events, l.stored, r);
    if fits == {} {
      PutWaits(m, events, before.mail.requests, l.stored, r);
      WaitingMore(events, l.waiting, n);
    } else {
      PutTakes(m, events, before.mail.requests, l.stored, r);
      PairsMore(events, l.served, (n, Lowest(fits)));
    }
  }

  lemma VainFirst(fits: set<nat>, able: set<nat>, x: nat)
    requires x in fits && (forall y :: y in fits ==> x <= y) && x !in able && able <= fits
    ensures Ascending(Vain(fits, able)) == [x] + Ascending(Vain(fits - {x}, able))
    ensures Vain(fits, able) == {x} + Vain(fits - {x}, able)
  {
    var all, rest := Vain(fits, able), Vain(fits - {x}, able);
    assert able != {} ==> x < Lowest(able);
    assert all == {x} + rest && rest == all - {x};
    LowestIs(all, x);
  }

  // What the delivery of a value leaves, delivers and drops, by the account.
  function Accounted(m: Matching, ok: Delivery, events: seq<Event>, waiting: set<nat>, buffer: seq<Val>,
                     v: Val): Outcome {
    var fits := Matching(m, events, waiting, v);
    var able := Able(ok, events, fits, v);
    var rest, dropped := waiting - Vain(fits, able), RequestsAt(events, Ascending(Vain(fits, able)));
    if able == {} then Outcome(Mail(Waiting(events, rest), buffer + [v]), [], dropped)
    else
      Outcome(Mail(Waiting(events, rest - {Lowest(able)}), buffer), [Delivered(RequestAt(events, Lowest(able)), v)],
              dropped)
  }

  lemma NobodyMatches(m: Matching, ok: Delivery, events: seq<Event>, waiting: set<nat>, buffer: seq<Val>, v: Val)
    requires Matching(m, events, waiting, v) == {}
    ensures Act(m, ok, Mail(Waiting(events, waiting), buffer), v) == Accounted(m, ok, events, waiting, buffer, v)
  {
    assert FindMatching(m, Waiting(events, waiting), v) == -1 by {
      FindsEarliest(m, events, waiting, v);
    }
    assert Able(ok, events, {}, v) == {};
    assert waiting - {} == waiting && Ascending({}) == [];
  }

  lemma ActServes(m: Matching, ok: Delivery, mail: Mail, v: Val)
    requires var p := FindMatching(m, mail.requests, v); p >= 0 && ok(mail.requests[p], v)
    ensures var p := FindMatching(m, mail.requests, v);
      Act(m, ok, mail, v)
      == Outcome(mail.(requests := Without(mail.requests, p)), [Delivered(mail.requests[p], v)], [])
  {
  }

  lemma ActDrops(m: Matching, ok: Delivery, mail: Mail, v: Val)
    requires var p := FindMatching(m, mail.requests, v); p >= 0 && !ok(mail.requests[p], v)
    ensures var p := FindMatching(m, mail.requests, v);
      var o := Act(m, ok, mail.(requests := Without(mail.requests, p)), v);
      Act(m, ok, mail, v) == o.(dropped := [mail.requests[p]] + o.dropped)
  {
  }

  // The request found, by its number, and the others.
  lemma FoundAt(events: seq<Event>, ps: seq<nat>, p: nat, x: nat, rest: seq<nat>)
    requires p < |ps| && ps[|ps| - 1 - p] == x && rest == Without(ps, |ps| - 1 - p)
    ensures |Latest(events, ps)| == |ps| && Latest(events, ps)[p] == RequestAt(events, x)
    ensures Without(Latest(events, ps), p) == Latest(events, rest)
  {
    LatestAt(events, ps, p);
    LatestLess(events, ps, p);
  }

  lemma FoundWhere(m: Matching, events: seq<Event>, waiting: set<nat>, v: Val) returns (p: nat)
    requires Matching(m, events, waiting, v) != {}
    ensures p == FindMatching(m, Waiting(events, waiting), v) && p < |Ascending(waiting)|
    ensures var a, x := Ascending(waiting), Lowest(Matching(m, events, waiting, v));
      a[|a| - 1 - p] == x && Ascending(waiting - {x}) == Without(a, |a| - 1 - p)
  {
    FindsEarliest(m, events, waiting, v);
    p := FindMatching(m, Waiting(events, waiting), v);
    AscendingWithout(waiting, |Ascending(waiting)| - 1 - p);
  }

  lemma Found(m: Matching, events: seq<Event>, waiting: set<nat>, v: Val)
    requires Matching(m, events, waiting, v) != {}
    ensures var rs, x := Waiting(events, waiting), Lowest(Matching(m, events, waiting, v));
      var p := FindMatching(m, rs, v);
      p >= 0 && rs[p] == RequestAt(events, x) && Without(rs, p) == Waiting(events, waiting - {x})
  {
    var x := Lowest(Matching(m, events, waiting, v));
    var p := FoundWhere(m, events, waiting, v);
    FoundAt(events, Ascending(waiting), p, x, Ascending(waiting - {x}));
  }

  lemma EarliestServed(m: Matching, ok: Delivery, events: seq<Event>, waiting: set<nat>, buffer: seq<Val>, v: Val)
    requires var fits := Matching(m, events, waiting, v); fits != {} && ok(RequestAt(events, Lowest(fits)), v)
    ensures Act(m, ok, Mail(Waiting(events, waiting), buffer), v) == Accounted(m, ok, events, waiting, buffer, v)
  {
    var fits := Matching(m, events, waiting, v);
    var able, x := Able(ok, events, fits, v), Lowest(fits);
    LowestIs(able, x);
    assert Vain(fits, able) == {};
    assert waiting - {} == waiting;
    Found(m, events, waiting, v);
    ActServes(m, ok, Mail(Waiting(events, waiting), buffer), v);
  }

  lemma AccountedDrops(m: Matching, ok: Delivery, events: seq<Event>, waiting: set<nat>, buffer: seq<Val>, v: Val)
    requires var fits := Matching(m, events, waiting, v); fits != {} && !ok(RequestAt(events, Lowest(fits)), v)
    ensures var x := Lowest(Matching(m, events, waiting, v));
      var o := Accounted(m, ok, events, waiting - {x}, buffer, v);
      Accounted(m, ok, events, waiting, buffer, v) == o.(dropped := [RequestAt(events, x)] + o.dropped)
  {
    var fits := Matching(m, events, waiting, v);
    var able, x := Able(ok, events, fits, v), Lowest(fits);
    var rest := waiting - {x};
    assert Matching(m, events, rest, v) == fits - {x};
    assert Able(ok, events, fits - {x}, v) == able;
    VainFirst(fits, able, x);
    assert waiting - Vain(fits, able) == rest - Vain(fits - {x}, able);
    RequestsFirst(events, x, Ascending(Vain(fits - {x}, able)));
  }

  lemma EarliestDropped(m: Matching, ok: Delivery, events: seq<Event>, waiting: set<nat>, buffer: seq<Val>, v: Val)
    requires var fits := Matching(m, events, waiting, v);
      && fits != {} && !ok(RequestAt(events, Lowest(fits)), v)
      && var rest := waiting - {Lowest(fits)};
         Act(m, ok, Mail(Waiting(events, rest), buffer), v) == Accounted(m, ok, events, rest, buffer, v)
    ensures Act(m, ok, Mail(Waiting(events, waiting), buffer), v) == Accounted(m, ok, events, waiting, buffer, v)
  {
    Found(m, events, waiting, v);
    ActDrops(m, ok, Mail(Waiting(events, waiting), buffer), v);
    AccountedDrops(m, ok, events, waiting, buffer, v);
  }

  lemma RequestsFirst(events: seq<Event>, x: nat, rest: seq<nat>)
    ensures RequestsAt(events, [x] + rest) == [RequestAt(events, x)] + RequestsAt(events, rest)
  {
  }

  /** Delivering a value does what the account says. */
  lemma {:induction false} ActAccounts(m: Matching, ok: Delivery, events: seq<Event>, waiting: set<nat>,
                                       buffer: seq<Val>, v: Val)
    ensures Act(m, ok, Mail(Waiting(events, waiting), buffer), v) == Accounted(m, ok, events, waiting, buffer, v)
    decreases waiting
  {
    var fits := Matching(m, events, waiting, v);
    if fits == {} {
      NobodyMatches(m, ok, events, waiting, buffer, v);
    } else if ok(RequestAt(events, Lowest(fits)), v) {
      EarliestServed(m, ok, events, waiting, buffer, v);
    } else {
      ActAccounts(m, ok, events, waiting - {Lowest(fits)}, buffer, v);
      EarliestDropped(m, ok, events, waiting, buffer, v);
    }
  }

  lemma RequestsTogether(events: seq<Event>, a: seq<nat>, b: seq<nat>)
    ensures RequestsAt(events, a + b) == RequestsAt(events, a) + RequestsAt(events, b)
  {
  }

  lemma ArrivingKeeps(m: Matching, ok: Delivery, events: seq<Event>, l: Ledger, n: nat, v: Val, before: Outcome)
    requires (forall j :: j in l.stored ==> j < n) && ValAt(events, n) == v && Kept(events, l, before)
    ensures Kept(events, Arriving(m, ok, events, l, n, v), After(before, Act(m, ok, before.mail, v)))
  {
    var fits := Matching(m, events, l.waiting, v);
    var able := Able(ok, events, fits, v);
    ActAccounts(m, ok, events, l.waiting, Buffered(events, l.stored), v);
    RequestsTogether(events, l.dropped, Ascending(Vain(fits, able)));
    if able == {} {
      BufferedMore(events, l.stored, n);
    } else {
      PairsMore(events, l.served, (Lowest(able), n));
    }
  }

  // An event more does not change what earlier ones brought.
  lemma SameEarlier(events: seq<Event>, n: nat, ps: seq<nat>)
    requires n < |events| && forall i :: 0 <= i < |ps| ==> ps[i] < n
    ensures RequestsAt(events[..n], ps) == RequestsAt(events, ps) && ValsAt(events[..n], ps) == ValsAt(events, ps)
  {
  }

  lemma StillKept(events: seq<Event>, l: Ledger, n: nat, o: Outcome)
    requires n < |events| && Within(l, n) && Kept(events[..n], l, o)
    ensures Kept(events, l, o)
  {
    AscendingAscends(l.waiting);
    AscendingAscends(l.stored);
    SameEarlier(events, n, Ascending(l.waiting));
    SameEarlier(events, n, Ascending(l.stored));
    SameEarlier(events, n, l.dropped);
    assert PairsAt(events[..n], l.served) == PairsAt(events, l.served);
  }

  /** Over any run the mailbox is as the account says: requests wait in the reverse order of their putting, and
      values are buffered in the order of their arrival; a value went to the earliest-put waiting request that
      matched it and could be delivered to, after those that matched but could not, earliest first, were
      dropped; a request took the earliest-arrived value that matched. */
  lemma {:induction false} RunKeepsAccount(m: Matching, events: seq<Event>)
    ensures var o, l := Run(m, events), Account(m, events);
      && o.mail == Mail(Waiting(events, l.waiting), Buffered(events, l.stored))
      && o.delivered == PairsAt(events, l.served) && o.dropped == RequestsAt(events, l.dropped)
    decreases |events|
  {
    if events == [] {
      assert Kept([], Account(m, []), Run(m, []));
    } else {
      var n := |events| - 1;
      var l, before := Account(m, events[..n]), Run(m, events[..n]);
      RunKeepsAccount(m, events[..n]);
      AccountWithin(m, events[..n]);
      StillKept(events, l, n, before);
      match events[n]
      case Asks(r) => AskingKeeps(m, events, l, n, r, before);
      case Arrives(v, ok) => ArrivingKeeps(m, ok, events, l, n, v, before);
    }
  }
}
