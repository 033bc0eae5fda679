/** What several components use: optional values, and lists from which an element is taken out. */
module Common {

  datatype Option<+T> = None | Some(value: T)

  function Without<T>(s: seq<T>, i: nat): seq<T>
    requires i < |s|
  {
    s[..i] + s[i + 1..]
  }

  lemma WithoutMultiset<T>(s: seq<T>, i: nat)
    requires i < |s|
    ensures multiset(Without(s, i)) == multiset(s) - multiset{s[i]}
  {
    assert s == s[..i] + [s[i]] + s[i + 1..];
  }

  function Times<T(==)>(s: seq<T>, x: T): nat {
    multiset(s)[x]
  }

  lemma TimesWithout<T>(s: seq<T>, i: nat, x: T)
    requires i < |s|
    ensures Times(s, x) == Times(Without(s, i), x) + if s[i] == x then 1 else 0
  {
    assert s == s[..i] + [s[i]] + s[i + 1..];
  }

  predicate Distinct<T(==)>(s: seq<T>) {
    forall i, j :: 0 <= i < j < |s| ==> s[i] != s[j]
  }

  // ---------------------------------------------------------------- numbers in order

  lemma {:induction false} LowestExists(s: set<nat>)
    requires s != {}
    ensures exists x :: x in s && forall y :: y in s ==> x <= y
    decreases s
  {
    var x :| x in s;
    if s != {x} {
      var rest := s - {x};
      LowestExists(rest);
      var z :| z in rest && forall y :: y in rest ==> z <= y;
      var least := if x < z then x else z;
      assert forall y :: y in s ==> y == x || y in rest;
      assert least in s && forall y :: y in s ==> least <= y;
    }
  }

  function Lowest(s: set<nat>): (r: nat)
    requires s != {}
    ensures r in s && forall y :: y in s ==> r <= y
  {
    LowestExists(s);
    var x :| x in s && forall y :: y in s ==> x <= y;
    x
  }

  // r lists the members of s in ascending order.
  predicate Ascends(r: seq<nat>, s: set<nat>) {
    && |r| == |s| && (forall i, j :: 0 <= i < j < |r| ==> r[i] < r[j])
    && (forall i :: 0 <= i < |r| ==> r[i] in s) && forall x :: x in s ==> x in r
  }

  lemma AscendsWith(x: nat, rest: seq<nat>, s: set<nat>)
    requires x in s && (forall y :: y in s ==> x <= y) && Ascends(rest, s - {x})
    ensures Ascends([x] + rest, s)
  {
    var r := [x] + rest;
    assert |s| == |s - {x}| + 1;
    forall y | y in s
      ensures y in r
    {
      assert y == r[0] || y in rest;
    }
    forall i, j | 0 <= i < j < |r|
      ensures r[i] < r[j]
    {
      assert rest[j - 1] in s - {x};
    }
  }

  // The order in which a table keyed by numbers is gone through.
  function Ascending(s: set<nat>): seq<nat>
    decreases s
  {
    if s == {} then [] else [Lowest(s)] + Ascending(s - {Lowest(s)})
  }

  lemma {:induction false} AscendingAscends(s: set<nat>)
    ensures Ascends(Ascending(s), s)
    decreases s
  {
    if s != {} {
      AscendingAscends(s - {Lowest(s)});
      AscendsWith(Lowest(s), Ascending(s - {Lowest(s)}), s);
    }
  }

  lemma FirstIsLowest(a: seq<nat>, s: set<nat>)
    requires Ascends(a, s) && a != []
    ensures a[0] in s && forall x :: x in s ==> a[0] <= x
  {
    forall x | x in s
      ensures a[0] <= x
    {
      var i :| 0 <= i < |a| && a[i] == x;
    }
  }

  lemma AscendsRest(a: seq<nat>, s: set<nat>)
    requires Ascends(a, s) && a != []
    ensures Ascends(a[1..], s - {a[0]})
  {
    assert |s - {a[0]}| == |s| - 1;
    forall x | x in s - {a[0]}
      ensures x in a[1..]
    {
      var i :| 0 <= i < |a| && a[i] == x;
      assert a[1..][i - 1] == x;
    }
  }

  lemma SameFirst(a: seq<nat>, b: seq<nat>, s: set<nat>)
    requires Ascends(a, s) && Ascends(b, s) && a != []
    ensures b != [] && a[0] == b[0]
  {
    assert a[0] in s;
    FirstIsLowest(a, s);
    FirstIsLowest(b, s);
  }

  /** There is one such order. */
  lemma {:induction false} OneOrder(a: seq<nat>, b: seq<nat>, s: set<nat>)
    requires Ascends(a, s) && Ascends(b, s)
    ensures a == b
    decreases |a|
  {
    if a != [] {
      SameFirst(a, b, s);
      assert a[1..] == b[1..] by {
        AscendsRest(a, s);
        AscendsRest(b, s);
        OneOrder(a[1..], b[1..], s - {a[0]});
      }
      assert a == [a[0]] + a[1..] && b == [b[0]] + b[1..];
    }
  }

  lemma AscendingSnoc(s: set<nat>, n: nat)
    requires forall x :: x in s ==> x < n
    ensures Ascending(s + {n}) == Ascending(s) + [n]
  {
    var a := Ascending(s);
    AscendingAscends(s);
    AscendingAscends(s + {n});
    assert |s + {n}| == |s| + 1;
    forall x | x in s + {n}
      ensures x in a + [n]
    {
      assert x in a || x == n;
    }
    OneOrder(a + [n], Ascending(s + {n}), s + {n});
  }

  lemma AscendsWithout(a: seq<nat>, s: set<nat>, p: nat)
    requires Ascends(a, s) && p < |a|
    ensures Ascends(Without(a, p), s - {a[p]})
  {
    assert |s - {a[p]}| == |s| - 1;
    forall y | y in s - {a[p]}
      ensures y in Without(a, p)
    {
      StillIn(a, p, y);
    }
  }

  lemma StillIn(a: seq<nat>, p: nat, y: nat)
    requires p < |a| && y in a && y != a[p]
    ensures y in Without(a, p)
  {
    var i :| 0 <= i < |a| && a[i] == y;
    assert Without(a, p)[if i < p then i else i - 1] == y;
  }

  lemma AscendingWithout(s: set<nat>, p: nat)
    requires p < |Ascending(s)|
    ensures Ascending(s - {Ascending(s)[p]}) == Without(Ascending(s), p)
  {
    var a := Ascending(s);
    AscendingAscends(s);
    AscendingAscends(s - {a[p]});
    AscendsWithout(a, s, p);
    OneOrder(Without(a, p), Ascending(s - {a[p]}), s - {a[p]});
  }

  lemma LowestIs(s: set<nat>, x: nat)
    requires x in s && forall y :: y in s ==> x <= y
    ensures Lowest(s) == x
  {
  }

  // Among the numbers listed, the first that fits is the lowest that does.
  lemma EarliestOf(fits: set<nat>, ps: seq<nat>, s: set<nat>, q: nat)
    requires Ascends(ps, s) && fits <= s && q < |ps| && ps[q] in fits && forall k :: 0 <= k < q ==> ps[k] !in fits
    ensures Lowest(fits) == ps[q]
  {
    forall y | y in fits
      ensures ps[q] <= y
    {
      var k :| 0 <= k < |ps| && ps[k] == y;
    }
    LowestIs(fits, ps[q]);
  }

  lemma NoneOf(fits: set<nat>, ps: seq<nat>, s: set<nat>)
    requires Ascends(ps, s) && fits <= s && forall k :: 0 <= k < |ps| ==> ps[k] !in fits
    ensures fits == {}
  {
    forall y | y in s
      ensures y !in fits
    {
      var k :| 0 <= k < |ps| && ps[k] == y;
    }
  }
}
