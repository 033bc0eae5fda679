/** Deferred blocks are collected one by one, in any order, and then put in the place of the pointers that
    wait for them. */
module ZeroCopy {
  import opened Common
  import opened Graph
  import opened Parsing
  import opened RoundTrip
  import opened Serdes

  // ---------------------------------------------------------------- collecting

  // The buffers announced by a message, what has arrived for each, and how many have arrived.
  datatype Pending = Pending(buffers: seq<nat>, values: seq<Option<Obj>>, received: nat)

  // The first position of x, or the length.
  function Position(xs: seq<nat>, x: nat): (r: nat)
    ensures r <= |xs| && (r < |xs| ==> xs[r] == x) && (x in xs <==> r < |xs|) && forall j :: 0 <= j < r ==> xs[j] != x
  {
    if xs == [] || xs[0] == x then 0
    else
      var r := 1 + Position(xs[1..], x);
      assert forall j :: 0 < j < r ==> xs[j] == xs[1..][j - 1];
      r
  }

  function Sized(p: Pending): seq<Option<Obj>> {
    if p.values == [] then seq(|p.buffers|, _ => None) else p.values
  }

  predicate Valid(p: Pending) {
    p.values == [] || |p.values| == |p.buffers|
  }

  function Receive(p: Pending, which: nat, x: Obj): (r: Pending)
    requires Valid(p) && which in p.buffers
    ensures Valid(r) && r.buffers == p.buffers && r.received == p.received + 1
  {
    p.(values := Sized(p)[Position(p.buffers, which) := Some(x)], received := p.received + 1)
  }

  predicate Ready(p: Pending) {
    p.received > 0 && p.received == |p.buffers|
  }

  class Collector {
    const buffers: seq<nat>
    var values: seq<Option<Obj>>
    var received: nat

    constructor (buffers: seq<nat>)
      ensures Contents() == Pending(buffers, [], 0) && this.buffers == buffers
    {
      this.buffers, values, received := buffers, [], 0;
    }

    function Contents(): Pending
      reads this
    {
      Pending(buffers, values, received)
    }

    // A block has arrived for a buffer; the result says whether the buffer is one of these.
    method Arrive(which: nat, x: Obj) returns (ok: bool)
      requires Valid(Contents())
      modifies this
      ensures ok <==> which in buffers
      ensures Contents() == if ok then Receive(old(Contents()), which, x) else old(Contents())
    {
      var pos := 0;
      while pos < |buffers| && buffers[pos] != which
        invariant pos <= |buffers| && which !in buffers[..pos]
      {
        pos := pos + 1;
      }
      assert buffers == buffers[..pos] + buffers[pos..];
      if pos == |buffers| {
        return false;
      }
      assert Position(buffers, which) == pos by {
        assert forall j :: 0 <= j < pos ==> buffers[j] == buffers[..pos][j];
      }
      if values == [] {
        values := seq(|buffers|, _ => None);
      }
      values := values[pos := Some(x)];
      received := received + 1;
      return true;
    }

    predicate IsReady()
      reads this
      ensures IsReady() <==> Ready(Contents())
    {
      received > 0 && received == |buffers|
    }
  }

  predicate AllIn(a: seq<nat>, b: seq<nat>) {
    forall i :: 0 <= i < |a| ==> a[i] in b
  }

  // The blocks arrive for these buffers, in this order; blocks[i] is the one for buffers[i].
  function Arrivals(p: Pending, order: seq<nat>, blocks: seq<Obj>): (q: Pending)
    requires Valid(p) && |blocks| == |p.buffers| && AllIn(order, p.buffers)
    ensures Valid(q) && q.buffers == p.buffers && q.received == p.received + |order|
    decreases |order|
  {
    if order == [] then p
    else
      var n := |order| - 1;
      Receive(Arrivals(p, order[..n], blocks), order[n], blocks[Position(p.buffers, order[n])])
  }

  lemma {:induction false} ArrivedValues(buffers: seq<nat>, order: seq<nat>, blocks: seq<Obj>, i: nat)
    requires Distinct(buffers) && |blocks| == |buffers| && i < |buffers| && AllIn(order, buffers)
    ensures Sized(Arrivals(Pending(buffers, [], 0), order, blocks))[i]
         == if buffers[i] in order then Some(blocks[i]) else None
    decreases |order|
  {
    if order != [] {
      var n := |order| - 1;
      ArrivedValues(buffers, order[..n], blocks, i);
      InSnoc(order, buffers[i]);
      var pos := Position(buffers, order[n]);
      assert pos == i <==> order[n] == buffers[i];
    }
  }

  lemma InSnoc(xs: seq<nat>, x: nat)
    requires xs != []
    ensures x in xs <==> x in xs[..|xs| - 1] || x == xs[|xs| - 1]
  {
    assert xs == xs[..|xs| - 1] + [xs[|xs| - 1]];
  }

  /** If each buffer gets its block once, in any order, then the value is ready after the last
      arrival and at no time before it, and each block is at the place of its buffer. A value without
      buffers is never ready. */
  lemma ReadyOnce(buffers: seq<nat>, order: seq<nat>, blocks: seq<Obj>, n: nat)
    requires Distinct(buffers) && |blocks| == |buffers| && multiset(order) == multiset(buffers)
    requires n <= |order|
    ensures AllIn(order, buffers)
    ensures Ready(Arrivals(Pending(buffers, [], 0), order[..n], blocks)) <==> n == |order| > 0
    ensures var q := Arrivals(Pending(buffers, [], 0), order, blocks);
      |q.values| == |buffers| && forall i :: 0 <= i < |buffers| ==> q.values[i] == Some(blocks[i])
  {
    SameMembers(order, buffers);
    assert |order| == |multiset(order)| == |buffers|;
    var q := Arrivals(Pending(buffers, [], 0), order, blocks);
    forall i | 0 <= i < |buffers|
      ensures Sized(q)[i] == Some(blocks[i])
    {
      ArrivedValues(buffers, order, blocks, i);
      assert buffers[i] in multiset(buffers);
    }
    assert buffers != [] ==> q.values != [];
  }

  lemma SameMembers(a: seq<nat>, b: seq<nat>)
    requires multiset(a) == multiset(b)
    ensures AllIn(a, b)
  {
    forall i | 0 <= i < |a|
      ensures a[i] in b
    {
      assert a[i] in multiset(a);
    }
  }

  // The order in which a table of blocks is gone through.
  function ByNumber(s: set<nat>): (r: seq<nat>)
    ensures Ascends(r, s)
  {
    AscendingAscends(s);
    Ascending(s)
  }

  // The blocks that are sent apart, in the order of their numbers.
  function Blocks(w: World, aside: map<nat, nat>, ids: seq<nat>): seq<Obj> {
    seq(|ids|, i requires 0 <= i < |ids| =>
      if ids[i] in aside && aside[ids[i]] in w.heap then w.heap[aside[ids[i]]] else Obj(0, Unit))
  }

  // ---------------------------------------------------------------- putting blocks in their places

  datatype Result = Result(value: Value, heap: map<nat, Obj>)

  // Every pointer that waits for a block of `ids` points to it.
  function Fill(v: Value, ids: set<nat>): Value {
    match v
    case Pair(a, b) => Pair(Fill(a, ids), Fill(b, ids))
    case List(items) => List(Fill(items, ids))
    case Slot(id) => if id in ids then To(id) else v
    case _ => v
  }

  function FillHeap(heap: map<nat, Obj>, ids: set<nat>): map<nat, Obj> {
    map o | o in heap :: Obj(heap[o].ty, Fill(heap[o].body, ids))
  }

  function ResetOne(g: Result, id: nat, x: Obj): Result {
    Result(Fill(g.value, {id}), FillHeap(g.heap, {id})[id := x])
  }

  // The first n blocks put in their places: block number i goes to the i-th number.
  function Resets(g: Result, ids: seq<nat>, values: seq<Obj>, n: nat): Result
    requires n <= |ids| == |values|
  {
    if n == 0 then g else ResetOne(Resets(g, ids, values, n - 1), ids[n - 1], values[n - 1])
  }

  method ToTyped(value: Value, st: Store, values: seq<Obj>) returns (r: Result)
    requires |values| == |st.deferred|
    ensures r == Resets(Result(value, st.heap), ByNumber(st.deferred), values, |values|)
  {
    var ids := ByNumber(st.deferred);
    r := Result(value, st.heap);
    var i := 0;
    while i < |ids|
      invariant i <= |ids| && r == Resets(Result(value, st.heap), ids, values, i)
    {
      r := ResetOne(r, ids[i], values[i]);
      i := i + 1;
    }
  }

  function Range(ids: seq<nat>, n: nat): set<nat>
    requires n <= |ids|
  {
    if n == 0 then {} else Range(ids, n - 1) + {ids[n - 1]}
  }

  lemma {:induction false} FillTwice(v: Value, a: set<nat>, b: set<nat>)
    ensures Fill(Fill(v, a), b) == Fill(v, a + b)
  {
    match v
    case Pair(x, y) => FillTwice(x, a, b); FillTwice(y, a, b);
    case List(items) => FillTwice(items, a, b);
    case _ =>
  }

  lemma {:induction false} FillNone(v: Value)
    ensures Fill(v, {}) == v
  {
    match v
    case Pair(x, y) => FillNone(x); FillNone(y);
    case List(items) => FillNone(items);
    case _ =>
  }

  lemma {:induction false} ResetsFill(g: Result, ids: seq<nat>, values: seq<Obj>, n: nat, o: nat)
    requires n <= |ids| == |values|
    ensures Resets(g, ids, values, n).value == Fill(g.value, Range(ids, n))
    ensures o in g.heap && o !in ids ==>
      var h := Resets(g, ids, values, n).heap; o in h && h[o] == Obj(g.heap[o].ty, Fill(g.heap[o].body, Range(ids, n)))
  {
    if n == 0 {
      FillNone(g.value);
      if o in g.heap {
        FillNone(g.heap[o].body);
      }
    } else {
      ResetsFill(g, ids, values, n - 1, o);
      FillTwice(g.value, Range(ids, n - 1), {ids[n - 1]});
      if o in g.heap {
        FillTwice(g.heap[o].body, Range(ids, n - 1), {ids[n - 1]});
      }
    }
  }

  lemma {:induction false} ResetsPlace(g: Result, ids: seq<nat>, values: seq<Obj>, n: nat, i: nat)
    requires i < n <= |ids| == |values| && values[i].body.Data? && forall a, b :: 0 <= a < b < |ids| ==> ids[a] < ids[b]
    ensures var h := Resets(g, ids, values, n).heap; ids[i] in h && h[ids[i]] == values[i]
  {
    if i < n - 1 {
      ResetsPlace(g, ids, values, n - 1, i);
    }
  }

  lemma {:induction false} RangeIs(ids: seq<nat>, n: nat, x: nat)
    requires n <= |ids|
    ensures x in Range(ids, n) <==> x in ids[..n]
  {
    if n > 0 {
      RangeIs(ids, n - 1, x);
      assert ids[..n] == ids[..n - 1] + [ids[n - 1]];
    }
  }
}
