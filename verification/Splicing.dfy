/** The downstream list of one element of the managed tree, and the staged transactions that
    edit it when elements below it are deleted.

    A deletion reaches an element as the message "replace `from` by the indices `to`". All but
    the first of `to` join the list at once; the replacement itself is staged, because `from`
    may only join the list with a later message. The order of arrival is arbitrary. */
module Splicing {
  import opened Common

  // Replace one occurrence of `from` by all of `to`. A staged transaction is an edit with at
  // most one replacement: none for a delete event, one for a replace event.
  datatype Edit = Edit(from: nat, to: seq<nat>)

  function Effect(e: Edit, x: nat): int {
    Times(e.to, x) - if e.from == x then 1 else 0
  }

  // How a list of edits, once all are carried out, changes the number of occurrences of x.
  function Net(es: seq<Edit>, x: nat): int {
    if es == [] then 0 else Net(es[..|es| - 1], x) + Effect(es[|es| - 1], x)
  }

  lemma {:induction false} NetWithout(es: seq<Edit>, i: nat, x: nat)
    requires i < |es|
    ensures Net(es, x) == Net(Without(es, i), x) + Effect(es[i], x)
    decreases |es|
  {
    var n := |es| - 1;
    if i == n {
      assert Without(es, i) == es[..n];
    } else {
      NetWithout(es[..n], i, x);
      assert Without(es, i)[..n - 1] == Without(es[..n], i);
    }
  }

  lemma {:induction false} NetPermuted(a: seq<Edit>, b: seq<Edit>, x: nat)
    requires multiset(a) == multiset(b)
    ensures Net(a, x) == Net(b, x)
    decreases |a|
  {
    if a == [] {
      assert |multiset(b)| == 0;
    } else {
      var n := |a| - 1;
      assert Without(a, n) == a[..n];
      WithoutMultiset(a, n);
      assert a[n] in multiset(b);
      var i :| 0 <= i < |b| && b[i] == a[n];
      WithoutMultiset(b, i);
      NetWithout(b, i, x);
      NetPermuted(a[..n], Without(b, i), x);
    }
  }

  // ---------------------------------------------------------------- resolving transactions

  // The position of x, or |s|.
  function Find(s: seq<nat>, x: nat): (i: nat)
    ensures i <= |s|
    ensures i < |s| ==> s[i] == x
    ensures forall j :: 0 <= j < i ==> s[j] != x
    ensures x in s <==> i < |s|
  {
    if s == [] then 0 else if s[0] == x then 0 else 1 + Find(s[1..], x)
  }

  // The first staged edit, from position i on, whose index is in the list; |staged| if none.
  function FirstReady(down: seq<nat>, staged: seq<Edit>, i: nat): (k: nat)
    requires i <= |staged|
    ensures i <= k <= |staged|
    ensures k < |staged| ==> staged[k].from in down
    ensures forall j :: i <= j < k ==> staged[j].from !in down
    decreases |staged| - i
  {
    if i == |staged| || staged[i].from in down then i else FirstReady(down, staged, i + 1)
  }

  function Carry(down: seq<nat>, e: Edit): seq<nat>
    requires e.from in down && |e.to| <= 1
  {
    var p := Find(down, e.from);
    if e.to == [] then Without(down, p) else down[p := e.to[0]]
  }

  predicate Staged(es: seq<Edit>) {
    forall e :: e in es ==> |e.to| <= 1
  }

  // Carry out staged edits, oldest first, until no remaining one finds its index.
  function Resolve(down: seq<nat>, staged: seq<Edit>): (r: (seq<nat>, seq<Edit>))
    requires Staged(staged)
    ensures Staged(r.1)
    ensures forall e :: e in r.1 ==> e in staged
    ensures forall e :: e in r.1 ==> e.from !in r.0
    decreases |staged|
  {
    var i := FirstReady(down, staged, 0);
    if i == |staged| then (down, staged)
    else Resolve(Carry(down, staged[i]), Without(staged, i))
  }

  function Head(to: seq<nat>): seq<nat> {
    if to == [] then [] else [to[0]]
  }

  function Tail(to: seq<nat>): seq<nat> {
    if to == [] then [] else to[1..]
  }

  // The effect of one replace message on the list and the staged edits.
  function Replace(down: seq<nat>, staged: seq<Edit>, e: Edit): (seq<nat>, seq<Edit>)
    requires Staged(staged)
  {
    Resolve(down + Tail(e.to), staged + [Edit(e.from, Head(e.to))])
  }

  lemma FindIs(s: seq<nat>, x: nat, p: nat)
    requires p < |s| && s[p] == x && forall j :: 0 <= j < p ==> s[j] != x
    ensures Find(s, x) == p
  {
  }

  /** Where the index to be replaced is listed, its first occurrence gives way to the first replacement, at its
      place, and the other replacements join at the end; without replacements it is taken out. */
  lemma ReplacedInPlace(down: seq<nat>, e: Edit, p: nat)
    requires p < |down| && down[p] == e.from && forall j :: 0 <= j < p ==> down[j] != e.from
    ensures Replace(down, [], e)
         == ((if e.to == [] then down[..p] + down[p + 1..] else down[..p] + [e.to[0]] + down[p + 1..] + e.to[1..]), [])
  {
    var all, one := down + Tail(e.to), [Edit(e.from, Head(e.to))];
    assert [] + one == one;
    assert all[p] == e.from && forall j :: 0 <= j < p ==> all[j] != e.from;
    FindIs(all, e.from, p);
    assert FirstReady(all, one, 0) == 0;
    assert Without(one, 0) == [];
    assert Resolve(all, one) == (Carry(all, one[0]), []);
    if e.to == [] {
      assert all == down;
    } else {
      assert down[..p] + [e.to[0]] + down[p + 1..] + e.to[1..] == all[p := e.to[0]];
    }
  }

  /** Where neither that index nor one that is waited for is listed, the first replacement waits, behind all
      others, and the other replacements join the list. */
  lemma ReplacementWaits(down: seq<nat>, staged: seq<Edit>, e: Edit)
    requires Staged(staged) && e.from !in down && e.from !in Tail(e.to)
    requires forall f :: f in staged ==> f.from !in down && f.from !in Tail(e.to)
    ensures Replace(down, staged, e)
         == (down + (if e.to == [] then [] else e.to[1..]),
             staged + [Edit(e.from, if e.to == [] then [] else [e.to[0]])])
  {
    var all, waiting := down + Tail(e.to), staged + [Edit(e.from, Head(e.to))];
    forall f | f in waiting
      ensures f.from !in all
    {
      assert f in staged || f == Edit(e.from, Head(e.to));
    }
    assert FirstReady(all, waiting, 0) == |waiting|;
  }

  lemma CarryCounts(down: seq<nat>, e: Edit, x: nat)
    requires e.from in down && |e.to| <= 1
    ensures Times(Carry(down, e), x) == Times(down, x) + Effect(e, x)
  {
    var p := Find(down, e.from);
    assert down == down[..p] + [e.from] + down[p + 1..];
    if e.to != [] {
      assert e.to == [e.to[0]];
      assert Carry(down, e) == down[..p] + e.to + down[p + 1..];
    }
  }

  lemma {:induction false} ResolveConserves(down: seq<nat>, staged: seq<Edit>, x: nat)
    requires Staged(staged)
    ensures var (d, s) := Resolve(down, staged);
            Times(d, x) + Net(s, x) == Times(down, x) + Net(staged, x)
    decreases |staged|
  {
    var i := FirstReady(down, staged, 0);
    if i < |staged| {
      CarryCounts(down, staged[i], x);
      NetWithout(staged, i, x);
      ResolveConserves(Carry(down, staged[i]), Without(staged, i), x);
    }
  }

  // Nothing gets into the list but what the list and the staged edits named.
  lemma {:induction false} ResolveMembers(down: seq<nat>, staged: seq<Edit>)
    requires Staged(staged)
    ensures forall x :: x in Resolve(down, staged).0 ==> x in down || exists e :: e in staged && x in e.to
    decreases |staged|
  {
    var i := FirstReady(down, staged, 0);
    if i < |staged| {
      var d, rest := Carry(down, staged[i]), Without(staged, i);
      ResolveMembers(d, rest);
      assert forall e :: e in rest ==> e in staged;
      assert staged[i] in staged;
      assert forall x :: x in d ==> x in down || x in staged[i].to;
    }
  }

  lemma ReplaceMembers(down: seq<nat>, staged: seq<Edit>, e: Edit)
    requires Staged(staged)
    ensures var (d, s) := Replace(down, staged, e);
            && (forall x :: x in d ==> x in down || x in e.to || exists f :: f in staged && x in f.to)
            && (forall f :: f in s ==> f.from !in d && (f in staged || f == Edit(e.from, Head(e.to))))
  {
    ResolveMembers(down + Tail(e.to), staged + [Edit(e.from, Head(e.to))]);
  }

  /** A message is accounted for in full, whether its edit was carried out or only staged. */
  lemma ReplaceConserves(down: seq<nat>, staged: seq<Edit>, e: Edit, x: nat)
    requires Staged(staged)
    ensures var (d, s) := Replace(down, staged, e);
            Times(d, x) + Net(s, x) == Times(down, x) + Net(staged, x) + Effect(e, x)
  {
    var staging := staged + [Edit(e.from, Head(e.to))];
    ResolveConserves(down + Tail(e.to), staging, x);
    assert staging[..|staged|] == staged;
    assert e.to == Head(e.to) + Tail(e.to);
  }

  // ---------------------------------------------------------------- confluence

  // Edits put only indices from strictly deeper in the tree in the place of `from`.
  ghost predicate Descending(es: seq<Edit>, depth: nat -> nat) {
    forall e, t :: e in es && t in e.to ==> depth(e.from) < depth(t)
  }

  // Every index is put into the list at least as often as it is taken out.
  ghost predicate Covered(down: seq<nat>, es: seq<Edit>) {
    forall x: nat :: Times(down, x) + Net(es, x) >= 0
  }

  lemma {:induction false} Supplier(es: seq<Edit>, i: nat) returns (j: nat)
    requires i < |es|
    requires Net(es, es[i].from) >= 0
    ensures j < |es| && es[i].from in es[j].to
  {
    var x := es[i].from;
    NetWithout(es, i, x);
    if x in es[i].to {
      return i;
    }
    assert Net(Without(es, i), x) > 0;
    j := Positive(Without(es, i), x);
    j := if j < i then j else j + 1;
  }

  lemma {:induction false} Positive(es: seq<Edit>, x: nat) returns (j: nat)
    requires Net(es, x) > 0
    ensures j < |es| && x in es[j].to
  {
    var n := |es| - 1;
    if x in es[n].to {
      return n;
    }
    j := Positive(es[..n], x);
  }

  /** Descending edits that each wait for an index supplied by another of them cannot exist. */
  lemma {:induction false} NoDeadlock(es: seq<Edit>, depth: nat -> nat, i: nat)
    requires i < |es|
    requires Descending(es, depth)
    requires forall e :: e in es ==> Net(es, e.from) >= 0
    ensures false
    decreases depth(es[i].from)
  {
    var j := Supplier(es, i);
    assert es[j] in es;
    NoDeadlock(es, depth, j);
  }

  function Process(down: seq<nat>, staged: seq<Edit>, es: seq<Edit>): (r: (seq<nat>, seq<Edit>))
    requires Staged(staged)
    ensures Staged(r.1)
  {
    if es == [] then (down, staged)
    else
      var (d, s) := Process(down, staged, es[..|es| - 1]);
      Replace(d, s, es[|es| - 1])
  }

  lemma {:induction false} ProcessConserves(down: seq<nat>, es: seq<Edit>, x: nat)
    ensures var (d, s) := Process(down, [], es);
            Times(d, x) + Net(s, x) == Times(down, x) + Net(es, x)
    decreases |es|
  {
    if es != [] {
      ProcessConserves(down, es[..|es| - 1], x);
      var (d, s) := Process(down, [], es[..|es| - 1]);
      ReplaceConserves(d, s, es[|es| - 1], x);
    }
  }

  lemma {:induction false} ProcessDescends(down: seq<nat>, es: seq<Edit>, depth: nat -> nat)
    requires Descending(es, depth)
    ensures Descending(Process(down, [], es).1, depth)
    ensures forall e :: e in Process(down, [], es).1 ==> e.from !in Process(down, [], es).0
    decreases |es|
  {
    if es != [] {
      var last := es[|es| - 1];
      ProcessDescends(down, es[..|es| - 1], depth);
      assert last in es;
      var s := Process(down, [], es[..|es| - 1]).1;
      assert Descending(s + [Edit(last.from, Head(last.to))], depth);
    }
  }

  /** Nothing stays staged exactly when every deleted index is supplied often enough, by the
      original list or by another message. */
  lemma StagedEmptyIff(down: seq<nat>, es: seq<Edit>, depth: nat -> nat)
    requires Descending(es, depth)
    ensures Process(down, [], es).1 == [] <==> Covered(down, es)
  {
    var (d, s) := Process(down, [], es);
    ProcessDescends(down, es, depth);
    forall x: nat
      ensures Times(d, x) + Net(s, x) == Times(down, x) + Net(es, x)
    {
      ProcessConserves(down, es, x);
    }
    if Covered(down, es) && s != [] {
      forall e | e in s
        ensures Net(s, e.from) >= 0
      {
        assert Times(d, e.from) == 0;
        assert Times(down, e.from) + Net(es, e.from) >= 0;
      }
      NoDeadlock(s, depth, 0);
    }
  }

  /** Confluence: whatever the order in which replace messages arrive, nothing stays staged and
      the final lists hold the same indices equally often, as often as the messages say. */
  lemma Confluence(down: seq<nat>, a: seq<Edit>, b: seq<Edit>, depth: nat -> nat)
    requires multiset(a) == multiset(b)
    requires Descending(a, depth)
    requires Covered(down, a)
    ensures Process(down, [], a).1 == [] == Process(down, [], b).1
    ensures forall x: nat ::
              Times(Process(down, [], a).0, x) == Times(down, x) + Net(a, x) == Times(Process(down, [], b).0, x)
  {
    forall e | e in b
      ensures e in a
    {
      assert e in multiset(b);
    }
    forall x: nat
      ensures Net(a, x) == Net(b, x)
    {
      NetPermuted(a, b, x);
    }
    StagedEmptyIff(down, a, depth);
    StagedEmptyIff(down, b, depth);
    forall x: nat
      ensures Times(Process(down, [], a).0, x) == Times(down, x) + Net(a, x) == Times(Process(down, [], b).0, x)
    {
      ProcessConserves(down, a, x);
      ProcessConserves(down, b, x);
    }
  }

  // ---------------------------------------------------------------- the mutable element

  class Manageable {
    var downstream: seq<nat>
    var staged: seq<Edit>

    // Between messages no staged edit can be carried out.
    predicate Valid()
      reads this
    {
      Staged(staged) && forall e :: e in staged ==> e.from !in downstream
    }

    constructor (downstream: seq<nat>)
      ensures Valid() && this.downstream == downstream && staged == []
    {
      this.downstream, staged := downstream, [];
    }

    method ReplaceDownstream(from: nat, to: seq<nat>)
      requires Valid()
      modifies this
      ensures Valid()
      ensures (downstream, staged) == Replace(old(downstream), old(staged), Edit(from, to))
    {
      if to == [] {
        staged := staged + [Edit(from, [])];
      } else {
        var i := 1;
        while i < |to|
          invariant 1 <= i <= |to|
          invariant downstream == old(downstream) + to[1..i]
          invariant staged == old(staged)
        {
          AddDownstream(to[i]);
          i := i + 1;
          assert to[1..i] == to[1..i - 1] + [to[i - 1]];
        }
        assert to[1..i] == to[1..];
        staged := staged + [Edit(from, [to[0]])];
      }
      assert downstream == old(downstream) + Tail(to);
      ResolveTransactions();
    }

    method AddDownstream(idx: nat)
      modifies this`downstream
      ensures downstream == old(downstream) + [idx]
    {
      downstream := downstream + [idx];
    }

    method ResolveTransactions()
      requires Staged(staged)
      modifies this
      ensures (downstream, staged) == Resolve(old(downstream), old(staged))
      decreases |staged|
    {
      var i := 0;
      while i < |staged|
        invariant 0 <= i <= |staged|
        invariant staged == old(staged) && downstream == old(downstream)
        invariant FirstReady(downstream, staged, 0) == FirstReady(downstream, staged, i)
      {
        var txn := staged[i];
        var search := Find(downstream, txn.from);
        if search < |downstream| {
          if txn.to == [] {
            downstream := Without(downstream, search);
          } else {
            downstream := downstream[search := txn.to[0]];
          }
          staged := Without(staged, i);
          ResolveTransactions();
          return;
        }
        i := i + 1;
      }
    }
  }
}
