/** When a graph survives printing and reading back, and when it does not. */
module RoundTrip {
  import opened Common
  import opened Graph
  import opened Parsing

  // The value with its objects renamed by f; pointers to deferred blocks wait for them.
  function Copy(w: World, v: Value, f: Numbering): Value {
    match v
    case Pair(a, b) => Pair(Copy(w, a, f), Copy(w, b, f))
    case List(items) => List(Copy(w, items, f))
    case To(o) =>
      if o !in f then Null else if Deferred(w, o) then Slot(f[o]) else To(f[o])
    case _ => v
  }

  predicate CopiedObj(w: World, o: nat, f: Numbering, heap: map<nat, Obj>) {
    o in f && o in w.heap && f[o] in heap && heap[f[o]] == Obj(w.heap[o].ty, Copy(w, w.heap[o].body, f))
  }

  /** f takes the graph of v to the graph of `got` in `heap`: types and data match, null stays null,
      and pointers are equal exactly when they were equal before. */
  ghost predicate Isomorphic(w: World, v: Value, f: Numbering, got: Value, heap: map<nat, Obj>) {
    && f.Keys == Emit(w, v, map[]).seen.Keys
    && (forall a, b {:trigger f[a], f[b]} :: a in f && b in f && f[a] == f[b] ==> a == b)
    && got == Copy(w, v, f)
    && forall o {:trigger CopiedObj(w, o, f, heap)} :: o in f && !Deferred(w, o) ==> CopiedObj(w, o, f, heap)
  }

  /** What a graph must satisfy to survive, checked along the order in which it is printed: no
      pointer leads back to an object that is still being printed, unless it is polymorphic; and no
      pointer to a block that is deferred is an item of a list. */
  predicate Intact(w: World, v: Value, seen: Numbering, open: set<nat>, moved: bool)
    decreases Unseen(w, seen), v
  {
    match v
    case Pair(a, b) =>
      UnseenShrinks(w, seen, Emit(w, a, seen).seen);
      Intact(w, a, seen, open, moved) && Intact(w, b, Emit(w, a, seen).seen, open, moved)
    case List(items) => Intact(w, items, seen, open, true)
    case To(o) =>
      if Deferred(w, o) then !moved
      else if o in seen || o !in w.heap then o !in open
      else
        MetShrinks(w, seen, o);
        Intact(w, w.heap[o].body, Met(seen, o), Inside(w, open, o), false)
    case _ => true
  }

  // ---------------------------------------------------------------- objects stay as they are read

  predicate SameAt(a: Store, b: Store, id: nat) {
    (id in a.heap <==> id in b.heap) && (id in a.heap ==> a.heap[id] == b.heap[id])
  }

  lemma Grows(w: World, v: Value, seen: Numbering)
    ensures |seen| <= |Emit(w, v, seen).seen|
  {
    var a, b := seen.Keys, Emit(w, v, seen).seen.Keys;
    assert b == a + (b - a);
    assert |a| == |seen| && |b| == |Emit(w, v, seen).seen|;
  }

  lemma ObjectKeeps(w: World, o: nat, seen: Numbering, ids: Numbering, open: set<nat>, st: Store, id: nat)
    requires o in w.heap && o !in seen && !Deferred(w, o) && id <= |seen|
    requires SameAt(AfterBody(w, o, seen, ids, open, st), Enter(w, o, |seen| + 1, st), id)
    ensures SameAt(After(w, To(o), seen, ids, open, st), st, id)
  {
    AfterObjectIs(w, o, seen, ids, open, st);
  }

  // Reading on does not change an object that has a number already.
  lemma {:induction false} AfterKeeps(w: World, v: Value, seen: Numbering, ids: Numbering, open: set<nat>, st: Store,
                                      id: nat)
    requires id <= |seen|
    ensures SameAt(After(w, v, seen, ids, open, st), st, id)
    decreases Unseen(w, seen), v, 1
  {
    match v
    case Pair(a, b) => PairKeeps(w, a, b, seen, ids, open, st, id);
    case List(items) => AfterKeeps(w, items, seen, ids, open, st, id);
    case To(o) =>
      if o in w.heap && o !in seen && !Deferred(w, o) {
        BodyKeeps(w, o, seen, ids, open, st, id);
        ObjectKeeps(w, o, seen, ids, open, st, id);
      }
    case _ =>
  }

  lemma {:induction false} BodyKeeps(w: World, o: nat, seen: Numbering, ids: Numbering, open: set<nat>, st: Store,
                                     id: nat)
    requires o in w.heap && o !in seen && id <= |seen|
    ensures SameAt(AfterBody(w, o, seen, ids, open, st), Enter(w, o, |seen| + 1, st), id)
    decreases Unseen(w, seen), To(o), 0
  {
    assert Unseen(w, Met(seen, o)) < Unseen(w, seen) && id <= |Met(seen, o)| by {
      MetShrinks(w, seen, o);
      MetCount(seen, o);
    }
    AfterKeeps(w, w.heap[o].body, Met(seen, o), ids, Inside(w, open, o), Enter(w, o, |seen| + 1, st), id);
  }

  lemma {:induction false} PairKeeps(w: World, a: Value, b: Value, seen: Numbering, ids: Numbering, open: set<nat>,
                                     st: Store, id: nat)
    requires id <= |seen|
    ensures SameAt(After(w, Pair(a, b), seen, ids, open, st), st, id)
    decreases Unseen(w, seen), Pair(a, b), 0
  {
    var x, s1 := Emit(w, a, seen).seen, After(w, a, seen, ids, open, st);
    assert id <= |x| && Unseen(w, x) <= Unseen(w, seen) by {
      Grows(w, a, seen);
      UnseenShrinks(w, seen, x);
    }
    AfterKeeps(w, a, seen, ids, open, st, id);
    AfterKeeps(w, b, x, ids, open, s1, id);
    assert After(w, Pair(a, b), seen, ids, open, st) == After(w, b, x, ids, open, s1);
  }

  lemma MetCount(seen: Numbering, o: nat)
    requires o !in seen
    ensures |Met(seen, o)| == |seen| + 1
  {
    assert Met(seen, o).Keys == seen.Keys + {o};
    assert |Met(seen, o).Keys| == |Met(seen, o)| && |seen.Keys| == |seen|;
  }

  // ---------------------------------------------------------------- intact or not

  // The objects that are new in b are copied into the store.
  ghost predicate Copied(w: World, a: Numbering, b: Numbering, f: Numbering, st: Store) {
    forall o {:trigger CopiedObj(w, o, f, st.heap)} :: o in b && o !in a && !Deferred(w, o)
      ==> CopiedObj(w, o, f, st.heap)
  }

  lemma CopiedLater(w: World, a: Numbering, b: Numbering, f: Numbering, st: Store, v: Value, ids: Numbering,
                    open: set<nat>)
    requires Ranked(b) && Submap(b, f)
    ensures Copied(w, a, b, f, After(w, v, b, ids, open, st)) <==> Copied(w, a, b, f, st)
  {
    forall o | o in b
      ensures CopiedObj(w, o, f, After(w, v, b, ids, open, st).heap) <==> CopiedObj(w, o, f, st.heap)
    {
      assert f[o] == b[o];
      AfterKeeps(w, v, b, ids, open, st, b[o]);
    }
  }

  /** An intact graph is copied. */
  lemma {:induction false} IntactIsCopied(w: World, k: Kind, v: Value, seen: Numbering, ids: Numbering,
                                          open: set<nat>, moved: bool, st: Store)
    requires WorldOk(w) && WellTyped(w, k, v) && Ranked(seen) && Submap(Emit(w, v, seen).seen, ids)
    requires Intact(w, v, seen, open, moved) && open <= seen.Keys
    ensures Image(w, v, ids, open, moved) == Copy(w, v, ids)
    ensures Copied(w, seen, Emit(w, v, seen).seen, ids, After(w, v, seen, ids, open, st))
    decreases Unseen(w, seen), v, 1
  {
    match v
    case Pair(a, b) =>
      PairIsCopied(w, k, a, b, seen, ids, open, moved, st);
    case List(items) =>
      IntactIsCopied(w, Chain(k.elem, Length(items)), items, seen, ids, open, true, st);
    case To(o) =>
      if o !in seen && !Deferred(w, o) {
        ObjectIsCopied(w, k, o, seen, ids, open, st);
      } else {
        PointerCopied(w, o, seen, ids, open, moved, st);
      }
    case _ =>
  }

  lemma {:induction false} PairIsCopied(w: World, k: Kind, a: Value, b: Value, seen: Numbering, ids: Numbering,
                                        open: set<nat>, moved: bool, st: Store)
    requires WorldOk(w) && WellTyped(w, k, Pair(a, b)) && Ranked(seen) && Submap(Emit(w, Pair(a, b), seen).seen, ids)
    requires Intact(w, Pair(a, b), seen, open, moved) && open <= seen.Keys
    ensures Image(w, Pair(a, b), ids, open, moved) == Copy(w, Pair(a, b), ids)
    ensures Copied(w, seen, Emit(w, Pair(a, b), seen).seen, ids, After(w, Pair(a, b), seen, ids, open, st))
    decreases Unseen(w, seen), Pair(a, b), 0
  {
    var x := Emit(w, a, seen).seen;
    var s1 := After(w, a, seen, ids, open, st);
    PairTyped(w, k, a, b);
    PairRanks(w, a, b, seen, ids);
    IntactIsCopied(w, First(k), a, seen, ids, open, moved, st);
    IntactIsCopied(w, Second(k), b, x, ids, open, moved, s1);
    PairCopied(w, a, b, seen, ids, open, st);
  }

  lemma {:induction false} ObjectIsCopied(w: World, k: Kind, o: nat, seen: Numbering, ids: Numbering, open: set<nat>,
                                          st: Store)
    requires WorldOk(w) && WellTyped(w, k, To(o)) && Ranked(seen) && Submap(Emit(w, To(o), seen).seen, ids)
    requires o !in seen && !Deferred(w, o) && Intact(w, To(o), seen, open, false) && open <= seen.Keys
    ensures o in ids && Copied(w, seen, Emit(w, To(o), seen).seen, ids, After(w, To(o), seen, ids, open, st))
    decreases Unseen(w, seen), To(o), 0
  {
    assert ObjOk(w, o);
    NumberOf(w, o, seen, ids);
    MetRanked(seen, o);
    MetShrinks(w, seen, o);
    IntactIsCopied(w, w.types[w.heap[o].ty].layout, w.heap[o].body, Met(seen, o), ids, Inside(w, open, o), false,
      Enter(w, o, |seen| + 1, st));
    ObjectCopied(w, o, seen, ids, open, st);
  }

  lemma JoinCopied(w: World, a: Numbering, b: Numbering, c: Numbering, f: Numbering, st: Store)
    requires Copied(w, a, b, f, st) && Copied(w, b, c, f, st)
    ensures Copied(w, a, c, f, st)
  {
    forall o | o in c && o !in a && !Deferred(w, o)
      ensures CopiedObj(w, o, f, st.heap)
    {
      assert o in b || o !in b;
    }
  }

  lemma PairCopied(w: World, a: Value, b: Value, seen: Numbering, ids: Numbering, open: set<nat>, st: Store)
    requires var x := Emit(w, a, seen).seen;
      && Ranked(x) && Submap(x, ids) && Copied(w, seen, x, ids, After(w, a, seen, ids, open, st))
      && Copied(w, x, Emit(w, b, x).seen, ids, After(w, b, x, ids, open, After(w, a, seen, ids, open, st)))
    ensures Copied(w, seen, Emit(w, Pair(a, b), seen).seen, ids, After(w, Pair(a, b), seen, ids, open, st))
  {
    var x, s1 := Emit(w, a, seen).seen, After(w, a, seen, ids, open, st);
    CopiedLater(w, seen, x, ids, s1, b, ids, open);
    JoinCopied(w, seen, x, Emit(w, b, x).seen, ids, After(w, b, x, ids, open, s1));
  }

  lemma PointerCopied(w: World, o: nat, seen: Numbering, ids: Numbering, open: set<nat>, moved: bool, st: Store)
    requires o in w.heap && (o in seen || Deferred(w, o)) && Intact(w, To(o), seen, open, moved)
    ensures Image(w, To(o), ids, open, moved) == Copy(w, To(o), ids)
    ensures Copied(w, seen, Emit(w, To(o), seen).seen, ids, After(w, To(o), seen, ids, open, st))
  {
  }

  lemma ObjectCopied(w: World, o: nat, seen: Numbering, ids: Numbering, open: set<nat>, st: Store)
    requires o in w.heap && o !in seen && !Deferred(w, o) && o in ids && ids[o] == |seen| + 1 && Ranked(seen)
    requires Submap(Emit(w, w.heap[o].body, Met(seen, o)).seen, ids)
    requires Image(w, w.heap[o].body, ids, Inside(w, open, o), false) == Copy(w, w.heap[o].body, ids)
    requires Copied(w, Met(seen, o), Emit(w, w.heap[o].body, Met(seen, o)).seen, ids,
      AfterBody(w, o, seen, ids, open, st))
    ensures Copied(w, seen, Emit(w, To(o), seen).seen, ids, After(w, To(o), seen, ids, open, st))
  {
    var e, s1, s2 := Emit(w, To(o), seen).seen, AfterBody(w, o, seen, ids, open, st),
      After(w, To(o), seen, ids, open, st);
    NumberKept(w, o, seen);
    AfterObjectIs(w, o, seen, ids, open, st);
    forall p | p in e && p !in seen && !Deferred(w, p)
      ensures CopiedObj(w, p, ids, s2.heap)
    {
      if p != o {
        assert CopiedObj(w, p, ids, s1.heap);
        assert ids[p] == e[p] != e[o];
      }
    }
  }

  // The new objects of v are in the final store as they were read.
  ghost predicate Kept(w: World, v: Value, seen: Numbering, ids: Numbering, open: set<nat>, st: Store, end: Store) {
    forall id {:trigger SameAt(After(w, v, seen, ids, open, st), end, id)} ::
      |seen| < id <= |Emit(w, v, seen).seen| ==> SameAt(After(w, v, seen, ids, open, st), end, id)
  }

  lemma PairKept(w: World, a: Value, b: Value, seen: Numbering, ids: Numbering, open: set<nat>, st: Store, end: Store)
    requires Kept(w, Pair(a, b), seen, ids, open, st, end)
    ensures Kept(w, a, seen, ids, open, st, end)
    ensures Kept(w, b, Emit(w, a, seen).seen, ids, open, After(w, a, seen, ids, open, st), end)
  {
    var x, s1, s2 := Emit(w, a, seen).seen, After(w, a, seen, ids, open, st), After(w, Pair(a, b), seen, ids, open, st);
    Grows(w, a, seen);
    Grows(w, b, x);
    assert s2 == After(w, b, x, ids, open, s1);
    forall id | |seen| < id <= |x|
      ensures SameAt(s1, end, id)
    {
      AfterKeeps(w, b, x, ids, open, s1, id);
      assert SameAt(s2, end, id);
    }
    forall id | |x| < id <= |Emit(w, b, x).seen|
      ensures SameAt(s2, end, id)
    {
    }
  }

  lemma ListKept(w: World, items: Value, seen: Numbering, ids: Numbering, open: set<nat>, st: Store, end: Store)
    requires Kept(w, List(items), seen, ids, open, st, end)
    ensures Kept(w, items, seen, ids, open, st, end)
  {
    var s1 := After(w, items, seen, ids, open, st);
    assert s1 == After(w, List(items), seen, ids, open, st);
    forall id | |seen| < id <= |Emit(w, items, seen).seen|
      ensures SameAt(s1, end, id)
    {
    }
  }

  lemma ObjectKept(w: World, o: nat, seen: Numbering, ids: Numbering, open: set<nat>, st: Store, end: Store)
    requires o in w.heap && o !in seen && !Deferred(w, o) && Kept(w, To(o), seen, ids, open, st, end)
    ensures Kept(w, w.heap[o].body, Met(seen, o), ids, Inside(w, open, o), Enter(w, o, |seen| + 1, st), end)
    ensures |seen| + 1 in end.heap
      && end.heap[|seen| + 1] == Obj(w.heap[o].ty, Image(w, w.heap[o].body, ids, Inside(w, open, o), false))
  {
    var body, s1, s2 := w.heap[o].body, AfterBody(w, o, seen, ids, open, st), After(w, To(o), seen, ids, open, st);
    AfterObjectIs(w, o, seen, ids, open, st);
    MetCount(seen, o);
    Grows(w, body, Met(seen, o));
    assert SameAt(s2, end, |seen| + 1);
    forall id | |seen| + 1 < id <= |Emit(w, body, Met(seen, o)).seen|
      ensures SameAt(s1, end, id)
    {
      assert SameAt(s2, end, id);
    }
  }

  /** Only an intact graph has a copy in what is read back, under whatever names. */
  lemma {:induction false} CopiedIsIntact(w: World, k: Kind, v: Value, seen: Numbering, ids: Numbering,
                                          open: set<nat>, moved: bool, st: Store, f: Numbering, end: Store)
    requires WorldOk(w) && WellTyped(w, k, v) && Ranked(seen) && Submap(Emit(w, v, seen).seen, ids) && open <= seen.Keys
    requires Image(w, v, ids, open, moved) == Copy(w, v, f) && Kept(w, v, seen, ids, open, st, end)
    requires Emit(w, v, seen).seen.Keys <= f.Keys && Copied(w, map[], f, f, end)
    ensures Intact(w, v, seen, open, moved)
    decreases Unseen(w, seen), v, 1
  {
    match v
    case Pair(a, b) => PairIsIntact(w, k, a, b, seen, ids, open, moved, st, f, end);
    case List(items) =>
      ListKept(w, items, seen, ids, open, st, end);
      CopiedIsIntact(w, Chain(k.elem, Length(items)), items, seen, ids, open, true, st, f, end);
    case To(o) =>
      EmitRanks(w, v, seen);
      if o !in seen && !Deferred(w, o) {
        ObjectIsIntact(w, k, o, seen, ids, open, moved, st, f, end);
      }
    case _ =>
  }

  lemma {:induction false} PairIsIntact(w: World, k: Kind, a: Value, b: Value, seen: Numbering, ids: Numbering,
                                        open: set<nat>, moved: bool, st: Store, f: Numbering, end: Store)
    requires WorldOk(w) && WellTyped(w, k, Pair(a, b)) && Ranked(seen)
    requires Submap(Emit(w, Pair(a, b), seen).seen, ids) && open <= seen.Keys
    requires Image(w, Pair(a, b), ids, open, moved) == Copy(w, Pair(a, b), f)
    requires Kept(w, Pair(a, b), seen, ids, open, st, end)
    requires Emit(w, Pair(a, b), seen).seen.Keys <= f.Keys && Copied(w, map[], f, f, end)
    ensures Intact(w, Pair(a, b), seen, open, moved)
    decreases Unseen(w, seen), Pair(a, b), 0
  {
    var x := Emit(w, a, seen).seen;
    PairTyped(w, k, a, b);
    PairRanks(w, a, b, seen, ids);
    PairKept(w, a, b, seen, ids, open, st, end);
    CopiedIsIntact(w, First(k), a, seen, ids, open, moved, st, f, end);
    CopiedIsIntact(w, Second(k), b, x, ids, open, moved, After(w, a, seen, ids, open, st), f, end);
  }

  lemma {:induction false} ObjectIsIntact(w: World, k: Kind, o: nat, seen: Numbering, ids: Numbering, open: set<nat>,
                                          moved: bool, st: Store, f: Numbering, end: Store)
    requires WorldOk(w) && WellTyped(w, k, To(o)) && Ranked(seen) && Submap(Emit(w, To(o), seen).seen, ids)
    requires open <= seen.Keys
    requires o !in seen && !Deferred(w, o)
    requires Image(w, To(o), ids, open, moved) == Copy(w, To(o), f) && Kept(w, To(o), seen, ids, open, st, end)
    requires Emit(w, To(o), seen).seen.Keys <= f.Keys && Copied(w, map[], f, f, end)
    ensures Intact(w, To(o), seen, open, moved)
    decreases Unseen(w, seen), To(o), 0
  {
    assert ObjOk(w, o);
    NumberOf(w, o, seen, ids);
    NumberKept(w, o, seen);
    EmitObject(w, o, seen);
    MetRanked(seen, o);
    MetShrinks(w, seen, o);
    ObjectKept(w, o, seen, ids, open, st, end);
    assert CopiedObj(w, o, f, end.heap);
    CopiedIsIntact(w, w.types[w.heap[o].ty].layout, w.heap[o].body, Met(seen, o), ids, Inside(w, open, o), false,
                   Enter(w, o, |seen| + 1, st), f, end);
  }

  // ---------------------------------------------------------------- the round trip

  lemma ReadAll(w: World, k: Kind, v: Value)
    requires WorldOk(w) && WellTyped(w, k, v)
    ensures var e := Emit(w, v, map[]);
      && Parse(w.types, k, e.bytes, EMPTY_STORE, false)
         == Some(Parsed(Image(w, v, e.seen, {}, false), After(w, v, map[], e.seen, {}, EMPTY_STORE), []))
      && Ranked(e.seen) && Reading(w, After(w, v, map[], e.seen, {}, EMPTY_STORE), e.seen, {})
  {
    var e := Emit(w, v, map[]);
    EmitRanks(w, v, map[]);
    assert Reading(w, EMPTY_STORE, map[], {});
    ReadBack(w, k, v, map[], e.seen, {}, false, EMPTY_STORE, []);
    assert e.bytes + [] == e.bytes;
    KeepsTrack(w, v, map[], e.seen, {}, EMPTY_STORE);
  }

  lemma WaitsForDeferred(w: World, st: Store, seen: Numbering)
    requires Reading(w, st, seen, {})
    ensures st.deferred == (set o | o in seen && Deferred(w, o) :: seen[o])
  {
    forall id | id in st.deferred
      ensures id in (set o | o in seen && Deferred(w, o) :: seen[o])
    {
      var o :| o in seen && seen[o] == id;
    }
  }

  lemma IntactHasCopy(w: World, k: Kind, v: Value)
    requires WorldOk(w) && WellTyped(w, k, v) && Intact(w, v, map[], {}, false)
    ensures var e := Emit(w, v, map[]);
      Isomorphic(w, v, e.seen, Image(w, v, e.seen, {}, false), After(w, v, map[], e.seen, {}, EMPTY_STORE).heap)
  {
    var e := Emit(w, v, map[]);
    EmitRanks(w, v, map[]);
    IntactIsCopied(w, k, v, map[], e.seen, {}, false, EMPTY_STORE);
  }

  lemma CopyIsIntact(w: World, k: Kind, v: Value, f: Numbering)
    requires WorldOk(w) && WellTyped(w, k, v)
    requires var e := Emit(w, v, map[]);
      Isomorphic(w, v, f, Image(w, v, e.seen, {}, false), After(w, v, map[], e.seen, {}, EMPTY_STORE).heap)
    ensures Intact(w, v, map[], {}, false)
  {
    var e := Emit(w, v, map[]);
    CopiedIsIntact(w, k, v, map[], e.seen, {}, false, EMPTY_STORE, f, After(w, v, map[], e.seen, {}, EMPTY_STORE));
  }

  /** The round trip. Reading what was printed always succeeds and uses up the text; pointers wait
      for exactly the deferred blocks; and the result is the same graph, under some names, if and
      only if the graph is intact. */
  lemma GraphRoundTrip(w: World, k: Kind, v: Value)
    requires WorldOk(w) && WellTyped(w, k, v)
    ensures var e, r := Emit(w, v, map[]), Parse(w.types, k, Emit(w, v, map[]).bytes, EMPTY_STORE, false);
      && r.Some? && r.value.rest == []
      && r.value.store.deferred == (set o | o in e.seen && Deferred(w, o) :: e.seen[o])
      && ((exists f :: Isomorphic(w, v, f, r.value.value, r.value.store.heap)) <==> Intact(w, v, map[], {}, false))
  {
    var e := Emit(w, v, map[]);
    var got, end := Image(w, v, e.seen, {}, false), After(w, v, map[], e.seen, {}, EMPTY_STORE);
    ReadAll(w, k, v);
    WaitsForDeferred(w, end, e.seen);
    if Intact(w, v, map[], {}, false) {
      IntactHasCopy(w, k, v);
    }
    if f :| Isomorphic(w, v, f, got, end.heap) {
      CopyIsIntact(w, k, v, f);
    }
  }
}
