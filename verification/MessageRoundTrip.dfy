/** What is read out of a message with deferrable blocks, whichever way it was written: with the record of
    the value in front, or without. */
module MessageRoundTrip {
  import opened Common
  import opened Graph
  import opened PackDeferrable
  import opened Parsing
  import opened RoundTrip

  // ---------------------------------------------------------------- the numbers of the sizing pass

  // `hidden` has numbers already, but is not printed.
  ghost predicate SameText(w: World, v: Value, ids: Numbering, seen: Numbering, hidden: set<nat>) {
    EmitUnder(w, v, ids, seen.Keys - hidden) == Text(Emit(w, v, seen).bytes, Emit(w, v, seen).seen.Keys - hidden)
  }

  /** Where the numbers of the sizing pass continue those of the objects met, what is written is what
      a fresh printer would write, as long as nothing hidden is met. */
  lemma {:induction false} UnderIs(w: World, v: Value, ids: Numbering, seen: Numbering, hidden: set<nat>)
    requires Ranked(seen) && Submap(Emit(w, v, seen).seen, ids) && hidden <= seen.Keys * w.heap.Keys
    requires EmitUnder(w, v, ids, seen.Keys - hidden).met !! hidden
    ensures SameText(w, v, ids, seen, hidden)
    decreases Unseen(w, seen), v, 1
  {
    match v
    case Pair(a, b) => PairUnder(w, a, b, ids, seen, hidden);
    case List(items) => UnderIs(w, items, ids, seen, hidden);
    case To(o) =>
      if o in w.heap && o !in seen && !Deferred(w, o) {
        ObjectUnder(w, o, ids, seen, hidden);
      } else {
        PointerUnder(w, o, ids, seen, hidden);
      }
    case _ =>
  }

  lemma {:induction false} PairUnder(w: World, a: Value, b: Value, ids: Numbering, seen: Numbering, hidden: set<nat>)
    requires Ranked(seen) && Submap(Emit(w, Pair(a, b), seen).seen, ids) && hidden <= seen.Keys * w.heap.Keys
    requires EmitUnder(w, Pair(a, b), ids, seen.Keys - hidden).met !! hidden
    ensures SameText(w, Pair(a, b), ids, seen, hidden)
    decreases Unseen(w, seen), Pair(a, b), 0
  {
    var x := Emit(w, a, seen).seen;
    PairRanks(w, a, b, seen, ids);
    UnderIs(w, a, ids, seen, hidden);
    UnderIs(w, b, ids, x, hidden);
  }

  lemma {:induction false} ObjectUnder(w: World, o: nat, ids: Numbering, seen: Numbering, hidden: set<nat>)
    requires Ranked(seen) && Submap(Emit(w, To(o), seen).seen, ids) && hidden <= seen.Keys * w.heap.Keys
    requires EmitUnder(w, To(o), ids, seen.Keys - hidden).met !! hidden
    requires o in w.heap && o !in seen && !Deferred(w, o)
    ensures SameText(w, To(o), ids, seen, hidden)
    decreases Unseen(w, seen), To(o), 0
  {
    NumberOf(w, o, seen, ids);
    MetRanked(seen, o);
    HiddenInside(w, o, ids, seen, hidden);
    assert Unseen(w, Met(seen, o)) < Unseen(w, seen) by {
      MetShrinks(w, seen, o);
    }
    UnderIs(w, w.heap[o].body, ids, Met(seen, o), hidden);
    ObjectSame(w, o, ids, seen, hidden);
  }

  lemma HiddenInside(w: World, o: nat, ids: Numbering, seen: Numbering, hidden: set<nat>)
    requires hidden <= seen.Keys && o in w.heap && o !in seen && !Deferred(w, o)
    ensures Met(seen, o).Keys - hidden == seen.Keys - hidden + {o}
    ensures EmitUnder(w, To(o), ids, seen.Keys - hidden).met
      == EmitUnder(w, w.heap[o].body, ids, Met(seen, o).Keys - hidden).met
  {
    assert Met(seen, o).Keys - hidden == seen.Keys - hidden + {o};
  }

  lemma ObjectSame(w: World, o: nat, ids: Numbering, seen: Numbering, hidden: set<nat>)
    requires hidden <= seen.Keys && o in w.heap && o !in seen && !Deferred(w, o)
    requires o in ids && ids[o] == |seen| + 1 && SameText(w, w.heap[o].body, ids, Met(seen, o), hidden)
    ensures SameText(w, To(o), ids, seen, hidden)
  {
    EmitObject(w, o, seen);
    assert Met(seen, o).Keys - hidden == seen.Keys - hidden + {o};
  }

  lemma PointerUnder(w: World, o: nat, ids: Numbering, seen: Numbering, hidden: set<nat>)
    requires Submap(Emit(w, To(o), seen).seen, ids) && hidden <= seen.Keys * w.heap.Keys
    requires EmitUnder(w, To(o), ids, seen.Keys - hidden).met !! hidden
    requires o in seen || Deferred(w, o) || o !in w.heap
    ensures SameText(w, To(o), ids, seen, hidden)
  {
    var e, met := Emit(w, To(o), seen).seen, seen.Keys - hidden;
    if o in e {
      assert ids[o] == e[o];
      assert o !in hidden;
      assert e.Keys - hidden == met + {o};
    }
  }

  // ---------------------------------------------------------------- an object that is not met

  ghost predicate Shifts(w: World, v: Value, a: Numbering, b: Numbering, open: set<nat>, o: nat, moved: bool) {
    && Emit(w, v, b).seen.Keys == Emit(w, v, a).seen.Keys + {o}
    && (Intact(w, v, b, open + {o}, moved) <==> Intact(w, v, a, open, moved))
  }

  /** The rest is intact or not, whether o has a number already or not. */
  lemma {:induction false} IntactShift(w: World, v: Value, a: Numbering, b: Numbering, open: set<nat>, o: nat,
                                       moved: bool)
    requires b.Keys == a.Keys + {o} && o in w.heap && o !in Emit(w, v, a).seen
    ensures Shifts(w, v, a, b, open, o, moved)
    decreases Unseen(w, a), v, 1
  {
    match v
    case Pair(x, y) => PairShifts(w, x, y, a, b, open, o, moved);
    case List(items) => IntactShift(w, items, a, b, open, o, true);
    case To(p) =>
      if p in w.heap && p !in a && !Deferred(w, p) {
        ObjectShifts(w, p, a, b, open, o, moved);
      } else {
        PointerShifts(w, p, a, b, open, o, moved);
      }
    case _ =>
  }

  lemma {:induction false} PairShifts(w: World, x: Value, y: Value, a: Numbering, b: Numbering, open: set<nat>,
                                      o: nat, moved: bool)
    requires b.Keys == a.Keys + {o} && o in w.heap && o !in Emit(w, Pair(x, y), a).seen
    ensures Shifts(w, Pair(x, y), a, b, open, o, moved)
    decreases Unseen(w, a), Pair(x, y), 0
  {
    var a1, b1 := Emit(w, x, a).seen, Emit(w, x, b).seen;
    assert Unseen(w, a1) <= Unseen(w, a) by {
      UnseenShrinks(w, a, a1);
    }
    EmitPair(w, x, y, a);
    IntactShift(w, x, a, b, open, o, moved);
    IntactShift(w, y, a1, b1, open, o, moved);
    PairShifted(w, x, y, a, b, open, o, moved);
  }

  lemma PairShifted(w: World, x: Value, y: Value, a: Numbering, b: Numbering, open: set<nat>, o: nat, moved: bool)
    requires Shifts(w, x, a, b, open, o, moved)
    requires Shifts(w, y, Emit(w, x, a).seen, Emit(w, x, b).seen, open, o, moved)
    ensures Shifts(w, Pair(x, y), a, b, open, o, moved)
  {
  }

  lemma {:induction false} ObjectShifts(w: World, p: nat, a: Numbering, b: Numbering, open: set<nat>, o: nat,
                                        moved: bool)
    requires b.Keys == a.Keys + {o} && o in w.heap && o !in Emit(w, To(p), a).seen
    requires p in w.heap && p !in a && !Deferred(w, p)
    ensures Shifts(w, To(p), a, b, open, o, moved)
    decreases Unseen(w, a), To(p), 0
  {
    MetShrinks(w, a, p);
    NotInside(w, p, a, o);
    MetBoth(a, b, p, o);
    IntactShift(w, w.heap[p].body, Met(a, p), Met(b, p), Inside(w, open, p), o, false);
    ObjectShifted(w, p, a, b, open, o, moved);
  }

  lemma MetBoth(a: Numbering, b: Numbering, p: nat, o: nat)
    requires b.Keys == a.Keys + {o}
    ensures Met(b, p).Keys == Met(a, p).Keys + {o}
  {
  }

  lemma NotInside(w: World, p: nat, a: Numbering, o: nat)
    requires p in w.heap && p !in a && !Deferred(w, p) && o !in Emit(w, To(p), a).seen
    ensures o != p && o !in Emit(w, w.heap[p].body, Met(a, p)).seen
  {
    EmitObject(w, p, a);
    assert p in Met(a, p);
  }

  lemma ObjectShifted(w: World, p: nat, a: Numbering, b: Numbering, open: set<nat>, o: nat, moved: bool)
    requires p in w.heap && p !in a && p != o && b.Keys == a.Keys + {o} && !Deferred(w, p)
    requires Shifts(w, w.heap[p].body, Met(a, p), Met(b, p), Inside(w, open, p), o, false)
    ensures Shifts(w, To(p), a, b, open, o, moved)
  {
    assert Inside(w, open + {o}, p) == Inside(w, open, p) + {o};
    EmitObject(w, p, a);
    EmitObject(w, p, b);
  }

  lemma PointerShifts(w: World, p: nat, a: Numbering, b: Numbering, open: set<nat>, o: nat, moved: bool)
    requires b.Keys == a.Keys + {o} && o in w.heap && o !in Emit(w, To(p), a).seen
    requires p in a || Deferred(w, p) || p !in w.heap
    ensures Shifts(w, To(p), a, b, open, o, moved)
  {
    MetBoth(a, b, p, o);
  }

  lemma {:induction false} CopySame(w: World, v: Value, f: Numbering, g: Numbering)
    requires forall p :: PointsTo(v, p) ==> p in f && p in g && f[p] == g[p]
    ensures Copy(w, v, f) == Copy(w, v, g)
  {
    match v
    case Pair(a, b) =>
      assert forall p :: PointsTo(a, p) || PointsTo(b, p) ==> PointsTo(v, p);
      CopySame(w, a, f, g);
      CopySame(w, b, f, g);
    case List(items) =>
      assert forall p :: PointsTo(items, p) ==> PointsTo(v, p);
      CopySame(w, items, f, g);
    case To(o) => assert PointsTo(v, o);
    case _ =>
  }

  // ---------------------------------------------------------------- a value without its record

  // Object o is printed without its record, and does not come up again.
  ghost predicate Alone(w: World, k: Kind, o: nat) {
    && WorldOk(w) && WellTyped(w, k, To(o))
    && DeferredIn(w, Emit(w, To(o), map[]).seen) == {} && o !in Emit(w, w.heap[o].body, map[]).seen
  }

  function Layout(w: World, o: nat): Kind
    requires o in w.heap && w.heap[o].ty in w.types
  {
    w.types[w.heap[o].ty].layout
  }

  // The numbers of what is printed, and of everything.
  lemma AloneNumbers(w: World, k: Kind, o: nat)
    requires Alone(w, k, o)
    ensures var ids, one: Numbering := Emit(w, To(o), map[]).seen, map[o := 1];
      && Met(map[], o) == one && Ranked(one) && Ranked(ids) && Emit(w, w.heap[o].body, one).seen == ids
      && o in ids && ids[o] == 1 && !Deferred(w, o) && ids.Keys == Emit(w, w.heap[o].body, map[]).seen.Keys + {o}
    ensures WellTyped(w, Layout(w, o), w.heap[o].body)
  {
    var none: Numbering := map[];
    assert ObjOk(w, o);
    ReachedThrough(w, k, o);
    EmitRanks(w, To(o), none);
    assert o !in DeferredIn(w, Emit(w, To(o), none).seen);
    EmitObject(w, o, none);
    MetRanked(none, o);
    EmitRanks(w, w.heap[o].body, Met(none, o));
    assert Met(none, o)[o] == 1;
  }

  /** It is written as if its record had been printed before. */
  lemma AloneText(w: World, k: Kind, o: nat)
    requires Alone(w, k, o)
    ensures WrittenText(w, o, true) == Emit(w, w.heap[o].body, map[o := 1]).bytes
  {
    var w0, body, one: Numbering := w.(deferrable := false), w.heap[o].body, map[o := 1];
    var ids := Emit(w, To(o), map[]).seen;
    AloneNumbers(w, k, o);
    assert DeferredIn(w, Emit(w, body, map[]).seen) <= DeferredIn(w, ids);
    EmitSame(w, Layout(w, o), body, map[]);
    EmitSame(w, Layout(w, o), body, one);
    UnderSize(w0, body, ids, map[]);
    assert one.Keys - {o} == {};
    UnderIs(w0, body, ids, one, {o});
  }

  /** And it is read back without it. */
  lemma AloneReadBack(w: World, k: Kind, o: nat)
    requires Alone(w, k, o)
    ensures var ids, body, one: Numbering := Emit(w, To(o), map[]).seen, w.heap[o].body, map[o := 1];
      var end := After(w, body, one, ids, {o}, EMPTY_STORE);
      && Parse(w.types, Layout(w, o), Emit(w, body, one).bytes, EMPTY_STORE, false)
         == Some(Parsed(Image(w, body, ids, {o}, false), end, []))
      && end.deferred == {} && 1 !in end.heap
  {
    var ids, body, one: Numbering := Emit(w, To(o), map[]).seen, w.heap[o].body, map[o := 1];
    AloneNumbers(w, k, o);
    assert Reading(w, EMPTY_STORE, one, {o});
    ReadBack(w, Layout(w, o), body, one, ids, {o}, false, EMPTY_STORE, []);
    assert Emit(w, body, one).bytes + [] == Emit(w, body, one).bytes;
    KeepsTrack(w, body, one, ids, {o}, EMPTY_STORE);
    NothingWaits(w, After(w, body, one, ids, {o}, EMPTY_STORE), ids, {o});
    AfterKeeps(w, body, one, ids, {o}, EMPTY_STORE, 1);
  }

  lemma NothingWaits(w: World, st: Store, seen: Numbering, open: set<nat>)
    requires Reading(w, st, seen, open) && DeferredIn(w, seen) == {}
    ensures st.deferred == {}
  {
    assert forall p :: p in seen && Deferred(w, p) ==> p in DeferredIn(w, seen);
    assert forall p {:trigger seen[p]} :: p in seen ==> seen[p] !in st.deferred;
  }

  // What is printed along points only to what is printed along.
  lemma AloneClosed(w: World, k: Kind, o: nat, p: nat, x: nat)
    requires Alone(w, k, o)
    requires var inner := Emit(w, w.heap[o].body, map[]).seen;
      PointsTo(w.heap[o].body, x) || (p in inner && p in w.heap && PointsTo(w.heap[p].body, x))
    ensures x in Emit(w, w.heap[o].body, map[]).seen
  {
    assert ObjOk(w, o);
    EmitCovers(w, Layout(w, o), w.heap[o].body, map[], x);
  }

  // Two namings that agree on what is printed along copy it alike.
  lemma AloneCopies(w: World, k: Kind, o: nat, f: Numbering, g: Numbering, p: nat)
    requires Alone(w, k, o)
    requires forall x :: x in Emit(w, w.heap[o].body, map[]).seen ==> x in f && x in g && f[x] == g[x]
    requires p == o || (p in Emit(w, w.heap[o].body, map[]).seen && p in w.heap)
    ensures Copy(w, w.heap[p].body, f) == Copy(w, w.heap[p].body, g)
  {
    forall x | PointsTo(w.heap[p].body, x)
      ensures x in f && x in g && f[x] == g[x]
    {
      AloneClosed(w, k, o, p, x);
    }
    CopySame(w, w.heap[p].body, f, g);
  }

  lemma AloneIntact(w: World, k: Kind, o: nat)
    requires Alone(w, k, o)
    ensures Intact(w, w.heap[o].body, map[], {}, false) <==> Intact(w, w.heap[o].body, map[o := 1], {o}, false)
  {
    var none: Numbering, one: Numbering := map[], map[o := 1];
    assert one.Keys == none.Keys + {o};
    IntactShift(w, w.heap[o].body, none, one, {}, o, false);
    ShiftIntact(w, w.heap[o].body, none, one, o);
  }

  lemma ShiftIntact(w: World, v: Value, a: Numbering, b: Numbering, o: nat)
    requires Shifts(w, v, a, b, {}, o, false)
    ensures Intact(w, v, a, {}, false) <==> Intact(w, v, b, {o}, false)
  {
    assert {} + {o} == {o};
  }

  // Where the objects are copied under one naming, they are copied under another that agrees with it on what
  // is printed along.
  lemma AloneRenamed(w: World, k: Kind, o: nat, f: Numbering, g: Numbering, heap: map<nat, Obj>, p: nat)
    requires Alone(w, k, o) && p in Emit(w, w.heap[o].body, map[]).seen && CopiedObj(w, p, f, heap)
    requires forall x :: x in Emit(w, w.heap[o].body, map[]).seen ==> x in f && x in g && f[x] == g[x]
    ensures CopiedObj(w, p, g, heap)
  {
    AloneCopies(w, k, o, f, g, p);
  }

  // The numbers of what is printed along with o.
  function Others(w: World, o: nat): Numbering {
    map p | p in Emit(w, To(o), map[]).seen && p != o :: Emit(w, To(o), map[]).seen[p]
  }

  lemma OthersAre(w: World, k: Kind, o: nat)
    requires Alone(w, k, o)
    ensures Others(w, o).Keys == Emit(w, w.heap[o].body, map[]).seen.Keys
    ensures forall a, b {:trigger Others(w, o)[a], Others(w, o)[b]} ::
              a in Others(w, o) && b in Others(w, o) && Others(w, o)[a] == Others(w, o)[b] ==> a == b
  {
    AloneNumbers(w, k, o);
  }

  lemma AloneIsCopied(w: World, k: Kind, o: nat)
    requires Alone(w, k, o) && Intact(w, w.heap[o].body, map[], {}, false)
    ensures var ids, body, one: Numbering := Emit(w, To(o), map[]).seen, w.heap[o].body, map[o := 1];
      Isomorphic(w, body, Others(w, o), Image(w, body, ids, {o}, false),
                 After(w, body, one, ids, {o}, EMPTY_STORE).heap)
  {
    var ids, body, one: Numbering := Emit(w, To(o), map[]).seen, w.heap[o].body, map[o := 1];
    var end, f := After(w, body, one, ids, {o}, EMPTY_STORE), Others(w, o);
    AloneNumbers(w, k, o);
    AloneIntact(w, k, o);
    IntactIsCopied(w, Layout(w, o), body, one, ids, {o}, false, EMPTY_STORE);
    OthersAre(w, k, o);
    AloneCopies(w, k, o, ids, f, o);
    forall p | p in f && !Deferred(w, p)
      ensures CopiedObj(w, p, f, end.heap)
    {
      AloneRenamed(w, k, o, ids, f, end.heap, p);
    }
  }

  // If the rest is copied under some names, then so is the whole, with o put in its place.
  function WithValue(w: World, o: nat, f: Numbering, st: Store): Store
    requires o in w.heap
  {
    Filled(st, 1, Obj(w.heap[o].ty, Copy(w, w.heap[o].body, f[o := 1])))
  }

  lemma WholeIsCopied(w: World, k: Kind, o: nat, f: Numbering, st: Store)
    requires Alone(w, k, o) && 1 !in st.heap && f.Keys == Emit(w, w.heap[o].body, map[]).seen.Keys
    requires forall p {:trigger CopiedObj(w, p, f, st.heap)} ::
               p in f && !Deferred(w, p) ==> CopiedObj(w, p, f, st.heap)
    ensures Copied(w, map[], f[o := 1], f[o := 1], WithValue(w, o, f, st))
  {
    var g, end := f[o := 1], WithValue(w, o, f, st);
    forall p | p in g && !Deferred(w, p)
      ensures CopiedObj(w, p, g, end.heap)
    {
      if p != o {
        assert CopiedObj(w, p, f, st.heap);
        assert f[p] != 1;
        assert CopiedObj(w, p, f, end.heap);
        AloneRenamed(w, k, o, f, g, end.heap, p);
      }
    }
  }

  lemma AloneKept(w: World, k: Kind, o: nat, f: Numbering, st: Store)
    requires Alone(w, k, o)
    requires st == After(w, w.heap[o].body, map[o := 1], Emit(w, To(o), map[]).seen, {o}, EMPTY_STORE)
    ensures Kept(w, w.heap[o].body, map[o := 1], Emit(w, To(o), map[]).seen, {o}, EMPTY_STORE, WithValue(w, o, f, st))
  {
    forall id: nat | id != 1
      ensures SameAt(st, WithValue(w, o, f, st), id)
    {
    }
  }

  lemma WholeIsIntact(w: World, k: Kind, o: nat, g: Numbering, end: Store)
    requires Alone(w, k, o) && Emit(w, To(o), map[]).seen.Keys <= g.Keys
    requires var ids, body, one: Numbering := Emit(w, To(o), map[]).seen, w.heap[o].body, map[o := 1];
      && Image(w, body, ids, {o}, false) == Copy(w, body, g)
      && Kept(w, body, one, ids, {o}, EMPTY_STORE, end) && Copied(w, map[], g, g, end)
    ensures Intact(w, w.heap[o].body, map[], {}, false)
  {
    AloneNumbers(w, k, o);
    CopiedIsIntact(w, Layout(w, o), w.heap[o].body, map[o := 1], Emit(w, To(o), map[]).seen, {o}, false, EMPTY_STORE, g,
                   end);
    AloneIntact(w, k, o);
  }

  lemma AloneIsIntact(w: World, k: Kind, o: nat, f: Numbering)
    requires Alone(w, k, o)
    requires var ids, body, one: Numbering := Emit(w, To(o), map[]).seen, w.heap[o].body, map[o := 1];
      Isomorphic(w, body, f, Image(w, body, ids, {o}, false), After(w, body, one, ids, {o}, EMPTY_STORE).heap)
    ensures Intact(w, w.heap[o].body, map[], {}, false)
  {
    var ids, body := Emit(w, To(o), map[]).seen, w.heap[o].body;
    var st := After(w, body, map[o := 1], ids, {o}, EMPTY_STORE);
    AloneReadBack(w, k, o);
    AloneCopies(w, k, o, f, f[o := 1], o);
    WholeIsCopied(w, k, o, f, st);
    AloneKept(w, k, o, f, st);
    assert ids.Keys <= f[o := 1].Keys by {
      AloneNumbers(w, k, o);
    }
    WholeIsIntact(w, k, o, f[o := 1], WithValue(w, o, f, st));
  }

  // ---------------------------------------------------------------- the message

  lemma WholeText(w: World, k: Kind, o: nat, encapsulated: bool)
    requires WorldOk(w) && WellTyped(w, k, To(o)) && !Dropped(w, o, encapsulated)
    ensures WrittenText(w, o, encapsulated) == Emit(w, To(o), map[]).bytes
  {
    var none: Numbering := map[];
    var ids := Emit(w, To(o), none).seen;
    assert none.Keys - {} == {};
    EmitRanks(w, To(o), none);
    if DeferredIn(w, ids) == {} {
      EmitSame(w, k, To(o), none);
      UnderIs(w.(deferrable := false), To(o), ids, none, {});
    } else {
      var x :| x in DeferredIn(w, ids);
      assert w.(deferrable := true) == w;
      UnderIs(w, To(o), ids, none, {});
    }
  }

  // The type the receiver reads: the pointer, or what it points to.
  function ReadAs(w: World, k: Kind, o: nat, encapsulated: bool): Kind
    requires o in w.heap && w.heap[o].ty in w.types
  {
    if Dropped(w, o, encapsulated) then Layout(w, o) else k
  }

  /** Whenever the assertion on the size holds, what was written is read back: it is used up, pointers wait
      for exactly the deferred blocks, and the result is the value that was sent, under some names, if and
      only if the value is intact; in all three ways of writing it. */
  lemma MessageReadBack(w: World, k: Kind, o: nat, encapsulated: bool, each: nat)
    requires WorldOk(w) && WellTyped(w, k, To(o))
    requires MessageSize(w, o, encapsulated, each) == WrittenSize(w, o, encapsulated, each)
    ensures var ids, v := Emit(w, To(o), map[]).seen, Content(w, o, encapsulated);
      var r := Parse(w.types, ReadAs(w, k, o, encapsulated), WrittenText(w, o, encapsulated), EMPTY_STORE, false);
      && r.Some? && r.value.rest == []
      && r.value.store.deferred == (set x | x in ids && Deferred(w, x) :: ids[x])
      && ((exists f :: Isomorphic(w, v, f, r.value.value, r.value.store.heap)) <==> Intact(w, v, map[], {}, false))
  {
    if Dropped(w, o, encapsulated) {
      MessageSizeIff(w, k, o, encapsulated, each);
      DroppedRoundTrip(w, k, o);
    } else {
      WholeText(w, k, o, encapsulated);
      GraphRoundTrip(w, k, To(o));
    }
  }

  lemma DroppedRoundTrip(w: World, k: Kind, o: nat)
    requires Alone(w, k, o)
    ensures var ids, body := Emit(w, To(o), map[]).seen, w.heap[o].body;
      var r := Parse(w.types, Layout(w, o), WrittenText(w, o, true), EMPTY_STORE, false);
      && r.Some? && r.value.rest == []
      && r.value.store.deferred == (set x | x in ids && Deferred(w, x) :: ids[x])
      && ((exists f :: Isomorphic(w, body, f, r.value.value, r.value.store.heap))
            <==> Intact(w, body, map[], {}, false))
  {
    var ids, body, one: Numbering := Emit(w, To(o), map[]).seen, w.heap[o].body, map[o := 1];
    var got, end := Image(w, body, ids, {o}, false), After(w, body, one, ids, {o}, EMPTY_STORE);
    AloneText(w, k, o);
    AloneReadBack(w, k, o);
    assert forall x :: x in ids && Deferred(w, x) ==> x in DeferredIn(w, ids);
    if Intact(w, body, map[], {}, false) {
      AloneIsCopied(w, k, o);
    }
    if f :| Isomorphic(w, body, f, got, end.heap) {
      AloneIsIntact(w, k, o, f);
    }
  }
}
