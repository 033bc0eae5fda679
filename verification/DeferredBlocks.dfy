/** The whole way of a graph with deferred blocks: printed, sent in parts, read back and put together. */
module DeferredBlocks {
  import opened Common
  import opened Graph
  import opened Parsing
  import opened RoundTrip
  import opened Serdes
  import opened ZeroCopy

  // ---------------------------------------------------------------- the same graph

  // The value with its objects renamed by f.
  function Rename(v: Value, f: Numbering): Value {
    match v
    case Pair(a, b) => Pair(Rename(a, f), Rename(b, f))
    case List(items) => List(Rename(items, f))
    case To(o) => if o in f then To(f[o]) else Null
    case _ => v
  }

  // The same graph, deferred blocks and all.
  ghost predicate Identical(w: World, v: Value, f: Numbering, g: Result) {
    && f.Keys == Emit(w, v, map[]).seen.Keys
    && (forall a, b {:trigger f[a], f[b]} :: a in f && b in f && f[a] == f[b] ==> a == b)
    && g.value == Rename(v, f)
    && forall o {:trigger f[o]} :: o in f ==>
         o in w.heap && f[o] in g.heap && g.heap[f[o]] == Obj(w.heap[o].ty, Rename(w.heap[o].body, f))
  }

  lemma {:induction false} FillCopy(w: World, k: Kind, v: Value, f: Numbering, ids: set<nat>)
    requires WellTyped(w, k, v) && forall o {:trigger f[o]} :: o in f && Deferred(w, o) ==> f[o] in ids
    ensures Fill(Copy(w, v, f), ids) == Rename(v, f)
    decreases v
  {
    match v
    case Pair(a, b) =>
      FillCopy(w, First(k), a, f, ids);
      FillCopy(w, Second(k), b, f, ids);
    case List(items) => FillCopy(w, Chain(k.elem, Length(items)), items, f, ids);
    case _ =>
  }

  // The numbers that are set aside, waited for, and deferred in the graph are the same.
  lemma SameNumbers(w: World, k: Kind, v: Value, aside: map<nat, nat>)
    requires WorldOk(w) && WellTyped(w, k, v)
    requires AsideOk(w, aside, Emit(w, v, map[]).seen, Emit(w, v, map[]).seen)
    ensures After(w, v, map[], Emit(w, v, map[]).seen, {}, EMPTY_STORE).deferred == aside.Keys
  {
    var f := Emit(w, v, map[]).seen;
    var st := After(w, v, map[], f, {}, EMPTY_STORE);
    ReadAll(w, k, v);
    WaitsForDeferred(w, st, f);
    forall id | id in st.deferred
      ensures id in aside
    {
      var o :| o in f && Deferred(w, o) && f[o] == id;
    }
    forall id | id in aside
      ensures id in st.deferred
    {
      assert f[aside[id]] == id;
    }
  }

  // The objects read back do not have the numbers of deferred blocks.
  lemma ObjectsPlaced(w: World, k: Kind, v: Value, f: Numbering, ids: seq<nat>, values: seq<Obj>, g: Result, o: nat)
    requires WorldOk(w) && Isomorphic(w, v, f, g.value, g.heap) && o in f && !Deferred(w, o) && o in w.heap
    requires |ids| == |values| && f[o] !in ids
    requires forall p {:trigger f[p]} :: p in f && Deferred(w, p) ==> f[p] in Range(ids, |ids|)
    ensures var h := Resets(g, ids, values, |ids|).heap;
      f[o] in h && h[f[o]] == Obj(w.heap[o].ty, Rename(w.heap[o].body, f))
  {
    assert CopiedObj(w, o, f, g.heap);
    assert ObjOk(w, o);
    ResetsFill(g, ids, values, |ids|, f[o]);
    FillCopy(w, w.types[w.heap[o].ty].layout, w.heap[o].body, f, Range(ids, |ids|));
  }

  lemma BlockPlaced(w: World, aside: map<nat, nat>, f: Numbering, g: Result, o: nat)
    requires WorldOk(w) && AsideOk(w, aside, f, f) && o in f && Deferred(w, o) && o in w.heap
    ensures var ids := ByNumber(aside.Keys);
      var h := Resets(g, ids, Blocks(w, aside, ids), |ids|).heap;
      f[o] in h && h[f[o]] == Obj(w.heap[o].ty, Rename(w.heap[o].body, f))
  {
    var ids := ByNumber(aside.Keys);
    var values := Blocks(w, aside, ids);
    assert ObjOk(w, o);
    assert f[o] in aside && aside[f[o]] == o;
    var i :| 0 <= i < |ids| && ids[i] == f[o];
    assert values[i] == w.heap[o];
    ResetsPlace(g, ids, values, |ids|, i);
  }

  lemma NumbersApart(w: World, aside: map<nat, nat>, f: Numbering, o: nat)
    requires AsideOk(w, aside, f, f) && Ranked(f) && o in f
    ensures f[o] in ByNumber(aside.Keys) <==> Deferred(w, o)
    ensures Deferred(w, o) ==> f[o] in Range(ByNumber(aside.Keys), |aside.Keys|)
  {
    var ids := ByNumber(aside.Keys);
    assert f[o] in aside <==> Deferred(w, o) by {
      if f[o] in aside {
        assert f[aside[f[o]]] == f[o];
      }
    }
    InRange(ids, f[o]);
  }

  lemma InRange(ids: seq<nat>, x: nat)
    ensures x in Range(ids, |ids|) <==> x in ids
  {
    RangeIs(ids, |ids|, x);
    assert ids[..|ids|] == ids;
  }

  lemma AllPlaced(w: World, k: Kind, v: Value, aside: map<nat, nat>, g: Result)
    requires var f := Emit(w, v, map[]).seen;
      WorldOk(w) && WellTyped(w, k, v) && AsideOk(w, aside, f, f) && Isomorphic(w, v, f, g.value, g.heap)
    ensures var f, ids := Emit(w, v, map[]).seen, ByNumber(aside.Keys);
      Identical(w, v, f, Resets(g, ids, Blocks(w, aside, ids), |ids|))
  {
    var f, ids := Emit(w, v, map[]).seen, ByNumber(aside.Keys);
    var values := Blocks(w, aside, ids);
    EmitRanks(w, v, map[]);
    forall o | o in f
      ensures Deferred(w, o) ==> f[o] in Range(ids, |ids|)
      ensures f[o] in ids <==> Deferred(w, o)
    {
      NumbersApart(w, aside, f, o);
    }
    ResetsFill(g, ids, values, |ids|, 0);
    FillCopy(w, k, v, f, Range(ids, |ids|));
    var r := Resets(g, ids, values, |ids|);
    forall o | o in f
      ensures o in w.heap && f[o] in r.heap && r.heap[f[o]] == Obj(w.heap[o].ty, Rename(w.heap[o].body, f))
    {
      if Deferred(w, o) {
        BlockPlaced(w, aside, f, g, o);
      } else {
        ObjectsPlaced(w, k, v, f, ids, values, g, o);
      }
    }
  }

  // ---------------------------------------------------------------- no other graph comes back

  // The objects of f are in `heap`; what was read as `end` is there too, with the blocks in place.
  ghost predicate PutTogether(w: World, ids: Numbering, f: Numbering, blocks: set<nat>, end: Store,
                              heap: map<nat, Obj>) {
    && (forall o {:trigger o in ids} :: o in ids && !Deferred(w, o) && ids[o] in end.heap ==>
          ids[o] in heap && heap[ids[o]] == Obj(end.heap[ids[o]].ty, Fill(end.heap[ids[o]].body, blocks)))
    && (forall o {:trigger f[o]} :: o in f ==>
          o in w.heap && f[o] in heap && heap[f[o]] == Obj(w.heap[o].ty, Rename(w.heap[o].body, f)))
  }

  /** Only an intact graph is put together again, under whatever names. */
  lemma {:induction false} TogetherIsIntact(w: World, k: Kind, v: Value, seen: Numbering, ids: Numbering,
                                            open: set<nat>, moved: bool, st: Store, f: Numbering,
                                            blocks: set<nat>, end: Store, heap: map<nat, Obj>)
    requires WorldOk(w) && WellTyped(w, k, v) && Ranked(seen) && Submap(Emit(w, v, seen).seen, ids) && open <= seen.Keys
    requires Fill(Image(w, v, ids, open, moved), blocks) == Rename(v, f) && Kept(w, v, seen, ids, open, st, end)
    requires Emit(w, v, seen).seen.Keys <= f.Keys && PutTogether(w, ids, f, blocks, end, heap)
    ensures Intact(w, v, seen, open, moved)
    decreases Unseen(w, seen), v, 1
  {
    match v
    case Pair(a, b) => PairTogether(w, k, a, b, seen, ids, open, moved, st, f, blocks, end, heap);
    case List(items) =>
      ListKept(w, items, seen, ids, open, st, end);
      TogetherIsIntact(w, Chain(k.elem, Length(items)), items, seen, ids, open, true, st, f, blocks, end, heap);
    case To(o) =>
      if o !in seen && !Deferred(w, o) {
        ObjectTogether(w, k, o, seen, ids, open, moved, st, f, blocks, end, heap);
      } else {
        PointerTogether(w, o, seen, ids, open, moved, f, blocks);
      }
    case _ =>
  }

  lemma PointerTogether(w: World, o: nat, seen: Numbering, ids: Numbering, open: set<nat>, moved: bool, f: Numbering,
                        blocks: set<nat>)
    requires o in w.heap && (o in seen || Deferred(w, o)) && Ranked(seen)
    requires Submap(Emit(w, To(o), seen).seen, ids) && Emit(w, To(o), seen).seen.Keys <= f.Keys
    requires Fill(Image(w, To(o), ids, open, moved), blocks) == Rename(To(o), f)
    ensures Intact(w, To(o), seen, open, moved)
  {
    assert o in Emit(w, To(o), seen).seen;
  }

  lemma BothFilled(w: World, a: Value, b: Value, ids: Numbering, open: set<nat>, moved: bool, f: Numbering,
                   blocks: set<nat>)
    requires Fill(Image(w, Pair(a, b), ids, open, moved), blocks) == Rename(Pair(a, b), f)
    ensures Fill(Image(w, a, ids, open, moved), blocks) == Rename(a, f)
    ensures Fill(Image(w, b, ids, open, moved), blocks) == Rename(b, f)
  {
  }

  lemma IntactPair(w: World, a: Value, b: Value, seen: Numbering, open: set<nat>, moved: bool)
    ensures Intact(w, Pair(a, b), seen, open, moved)
      <==> Intact(w, a, seen, open, moved) && Intact(w, b, Emit(w, a, seen).seen, open, moved)
  {
  }

  lemma {:induction false} PairTogether(w: World, k: Kind, a: Value, b: Value, seen: Numbering, ids: Numbering,
                                        open: set<nat>, moved: bool, st: Store, f: Numbering,
                                        blocks: set<nat>, end: Store, heap: map<nat, Obj>)
    requires WorldOk(w) && WellTyped(w, k, Pair(a, b)) && Ranked(seen)
    requires Submap(Emit(w, Pair(a, b), seen).seen, ids) && open <= seen.Keys
    requires Fill(Image(w, Pair(a, b), ids, open, moved), blocks) == Rename(Pair(a, b), f)
    requires Kept(w, Pair(a, b), seen, ids, open, st, end)
    requires Emit(w, Pair(a, b), seen).seen.Keys <= f.Keys && PutTogether(w, ids, f, blocks, end, heap)
    ensures Intact(w, Pair(a, b), seen, open, moved)
    decreases Unseen(w, seen), Pair(a, b), 0
  {
    var x := Emit(w, a, seen).seen;
    PairTyped(w, k, a, b);
    PairRanks(w, a, b, seen, ids);
    PairKept(w, a, b, seen, ids, open, st, end);
    BothFilled(w, a, b, ids, open, moved, f, blocks);
    EmitPair(w, a, b, seen);
    IntactPair(w, a, b, seen, open, moved);
    TogetherIsIntact(w, First(k), a, seen, ids, open, moved, st, f, blocks, end, heap);
    TogetherIsIntact(w, Second(k), b, x, ids, open, moved, After(w, a, seen, ids, open, st), f, blocks, end, heap);
  }

  lemma {:induction false} ObjectTogether(w: World, k: Kind, o: nat, seen: Numbering, ids: Numbering, open: set<nat>,
                                          moved: bool, st: Store, f: Numbering, blocks: set<nat>, end: Store,
                                          heap: map<nat, Obj>)
    requires WorldOk(w) && WellTyped(w, k, To(o)) && Ranked(seen) && Submap(Emit(w, To(o), seen).seen, ids)
    requires open <= seen.Keys
    requires o !in seen && !Deferred(w, o)
    requires Fill(Image(w, To(o), ids, open, moved), blocks) == Rename(To(o), f)
    requires Kept(w, To(o), seen, ids, open, st, end)
    requires Emit(w, To(o), seen).seen.Keys <= f.Keys && PutTogether(w, ids, f, blocks, end, heap)
    ensures Intact(w, To(o), seen, open, moved)
    decreases Unseen(w, seen), To(o), 0
  {
    assert ObjOk(w, o);
    NumberOf(w, o, seen, ids);
    assert o in Emit(w, To(o), seen).seen by {
      NumberKept(w, o, seen);
      EmitObject(w, o, seen);
    }
    assert Ranked(Met(seen, o)) && Unseen(w, Met(seen, o)) < Unseen(w, seen) by {
      MetRanked(seen, o);
      MetShrinks(w, seen, o);
    }
    EmitObject(w, o, seen);
    ObjectKept(w, o, seen, ids, open, st, end);
    TogetherIsIntact(w, w.types[w.heap[o].ty].layout, w.heap[o].body, Met(seen, o), ids, Inside(w, open, o), false,
                     Enter(w, o, |seen| + 1, st), f, blocks, end, heap);
  }

  // ---------------------------------------------------------------- every pointer gets its block

  predicate NoSlot(v: Value) {
    match v
    case Pair(a, b) => NoSlot(a) && NoSlot(b)
    case List(items) => NoSlot(items)
    case Slot(_) => false
    case _ => true
  }

  // Only blocks of `ids` are waited for.
  predicate WaitsWithin(v: Value, ids: set<nat>) {
    match v
    case Pair(a, b) => WaitsWithin(a, ids) && WaitsWithin(b, ids)
    case List(items) => WaitsWithin(items, ids)
    case Slot(id) => id in ids
    case _ => true
  }

  lemma {:induction false} FilledUp(v: Value, ids: set<nat>)
    requires WaitsWithin(v, ids)
    ensures NoSlot(Fill(v, ids))
  {
    match v
    case Pair(a, b) => FilledUp(a, ids); FilledUp(b, ids);
    case List(items) => FilledUp(items, ids);
    case _ =>
  }

  // The blocks of `ids` have the numbers of deferred objects.
  ghost predicate Covers(w: World, ids: Numbering, blocks: set<nat>) {
    forall o {:trigger ids[o]} :: o in ids && Deferred(w, o) ==> ids[o] in blocks
  }

  lemma {:induction false} ImageWaits(w: World, k: Kind, v: Value, ids: Numbering, open: set<nat>, moved: bool,
                                      blocks: set<nat>)
    requires WellTyped(w, k, v) && Covers(w, ids, blocks)
    ensures WaitsWithin(Image(w, v, ids, open, moved), blocks)
    decreases v
  {
    match v
    case Pair(a, b) =>
      ImageWaits(w, First(k), a, ids, open, moved, blocks);
      ImageWaits(w, Second(k), b, ids, open, moved, blocks);
    case List(items) => ImageWaits(w, Chain(k.elem, Length(items)), items, ids, open, true, blocks);
    case _ =>
  }

  // The objects in the store only wait for these blocks, and references can find them all.
  ghost predicate HeapWaits(st: Store, blocks: set<nat>) {
    forall id {:trigger id in st.heap} :: id in st.heap ==> id in st.instances && WaitsWithin(st.heap[id].body, blocks)
  }

  lemma {:induction false} AfterWaits(w: World, k: Kind, v: Value, seen: Numbering, ids: Numbering, open: set<nat>,
                                      st: Store, blocks: set<nat>)
    requires WorldOk(w) && WellTyped(w, k, v) && Covers(w, ids, blocks) && HeapWaits(st, blocks)
    ensures HeapWaits(After(w, v, seen, ids, open, st), blocks)
    decreases Unseen(w, seen), v, 1
  {
    match v
    case Pair(a, b) =>
      assert Unseen(w, Emit(w, a, seen).seen) <= Unseen(w, seen) by {
        UnseenShrinks(w, seen, Emit(w, a, seen).seen);
      }
      AfterWaits(w, First(k), a, seen, ids, open, st, blocks);
      AfterWaits(w, Second(k), b, Emit(w, a, seen).seen, ids, open, After(w, a, seen, ids, open, st), blocks);
    case List(items) =>
      AfterWaits(w, Chain(k.elem, Length(items)), items, seen, ids, open, st, blocks);
    case To(o) =>
      if o !in seen && !Deferred(w, o) {
        BodyWaits(w, o, seen, ids, open, st, blocks);
        ObjectWaits(w, o, seen, ids, open, st, blocks);
      }
    case _ =>
  }

  lemma EnterWaits(w: World, o: nat, id: nat, st: Store, blocks: set<nat>)
    requires HeapWaits(st, blocks)
    ensures HeapWaits(Enter(w, o, id, st), blocks)
  {
  }

  lemma {:induction false} BodyWaits(w: World, o: nat, seen: Numbering, ids: Numbering, open: set<nat>, st: Store,
                                     blocks: set<nat>)
    requires WorldOk(w) && o in w.heap && o !in seen && Covers(w, ids, blocks) && HeapWaits(st, blocks)
    ensures HeapWaits(AfterBody(w, o, seen, ids, open, st), blocks)
    decreases Unseen(w, seen), To(o), 0
  {
    assert ObjOk(w, o);
    EnterWaits(w, o, |seen| + 1, st, blocks);
    MetShrinks(w, seen, o);
    AfterWaits(w, w.types[w.heap[o].ty].layout, w.heap[o].body, Met(seen, o), ids, Inside(w, open, o),
               Enter(w, o, |seen| + 1, st), blocks);
  }

  lemma ObjectWaits(w: World, o: nat, seen: Numbering, ids: Numbering, open: set<nat>, st: Store, blocks: set<nat>)
    requires WorldOk(w) && o in w.heap && o !in seen && !Deferred(w, o) && Covers(w, ids, blocks)
    requires HeapWaits(AfterBody(w, o, seen, ids, open, st), blocks)
    ensures HeapWaits(After(w, To(o), seen, ids, open, st), blocks)
  {
    assert ObjOk(w, o);
    ImageWaits(w, w.types[w.heap[o].ty].layout, w.heap[o].body, ids, Inside(w, open, o), false, blocks);
    AfterObjectIs(w, o, seen, ids, open, st);
  }

  /** What it means that every block has returned: what was read (g) has become r, in which no pointer waits
      any more; a pointer that waited for number id, in the value or in any object, leads to id; and under
      id there is the block that was set aside under it. Nothing else has changed. */
  ghost predicate Served(w: World, aside: map<nat, nat>, g: Result, r: Result) {
    && r.value == Fill(g.value, aside.Keys) && NoSlot(r.value)
    && (forall x {:trigger x in g.heap} :: x in g.heap ==>
          x in r.heap && r.heap[x] == Obj(g.heap[x].ty, Fill(g.heap[x].body, aside.Keys)) && NoSlot(r.heap[x].body))
    && (forall id {:trigger aside[id]} :: id in aside ==>
          aside[id] in w.heap && id in r.heap && r.heap[id] == w.heap[aside[id]])
  }

  // What is read back from a graph, and what that becomes once all blocks are in place.
  function GotBack(w: World, v: Value): Result {
    var f := Emit(w, v, map[]).seen;
    Result(Image(w, v, f, {}, false), After(w, v, map[], f, {}, EMPTY_STORE).heap)
  }

  function Complete(w: World, v: Value, aside: map<nat, nat>): Result {
    var ids := ByNumber(aside.Keys);
    Resets(GotBack(w, v), ids, Blocks(w, aside, ids), |ids|)
  }

  lemma RangeAll(s: set<nat>)
    ensures Range(ByNumber(s), |s|) == s
  {
    forall x: nat
      ensures x in Range(ByNumber(s), |s|) <==> x in s
    {
      InRange(ByNumber(s), x);
    }
  }

  lemma ReadsWaiting(w: World, k: Kind, v: Value, aside: map<nat, nat>)
    requires var f := Emit(w, v, map[]).seen; WorldOk(w) && WellTyped(w, k, v) && AsideOk(w, aside, f, f)
    ensures WaitsWithin(GotBack(w, v).value, aside.Keys)
    ensures forall x :: x in GotBack(w, v).heap ==> x !in aside && WaitsWithin(GotBack(w, v).heap[x].body, aside.Keys)
  {
    var f := Emit(w, v, map[]).seen;
    var st := After(w, v, map[], f, {}, EMPTY_STORE);
    ReadAll(w, k, v);
    ImageWaits(w, k, v, f, {}, false, aside.Keys);
    AfterWaits(w, k, v, map[], f, {}, EMPTY_STORE, aside.Keys);
    forall x | x in st.heap
      ensures x !in aside
    {
      NotABlock(w, f, st, aside, x);
    }
  }

  lemma NotABlock(w: World, f: Numbering, st: Store, aside: map<nat, nat>, x: nat)
    requires Ranked(f) && Reading(w, st, f, {}) && AsideOk(w, aside, f, f) && x in st.instances
    ensures x !in aside
  {
    var o :| o in f && f[o] == x;
    NumbersApart(w, aside, f, o);
    assert f[o] in st.instances;
  }

  lemma AllServed(w: World, k: Kind, v: Value, aside: map<nat, nat>)
    requires var f := Emit(w, v, map[]).seen; WorldOk(w) && WellTyped(w, k, v) && AsideOk(w, aside, f, f)
    ensures Served(w, aside, GotBack(w, v), Complete(w, v, aside))
  {
    var f, g, r, ids := Emit(w, v, map[]).seen, GotBack(w, v), Complete(w, v, aside), ByNumber(aside.Keys);
    ReadsWaiting(w, k, v, aside);
    RangeAll(aside.Keys);
    ResetsFill(g, ids, Blocks(w, aside, ids), |ids|, 0);
    FilledUp(g.value, aside.Keys);
    forall x | x in g.heap
      ensures x in r.heap && r.heap[x] == Obj(g.heap[x].ty, Fill(g.heap[x].body, aside.Keys)) && NoSlot(r.heap[x].body)
    {
      ResetsFill(g, ids, Blocks(w, aside, ids), |ids|, x);
      FilledUp(g.heap[x].body, aside.Keys);
    }
    forall id | id in aside
      ensures aside[id] in w.heap && id in r.heap && r.heap[id] == w.heap[aside[id]]
    {
      EmitRanks(w, v, map[]);
      BlockServed(w, aside, f, g, id);
    }
  }

  lemma BlockServed(w: World, aside: map<nat, nat>, f: Numbering, g: Result, id: nat)
    requires WorldOk(w) && AsideOk(w, aside, f, f) && id in aside && f.Keys <= w.heap.Keys
    ensures var ids := ByNumber(aside.Keys);
      var h := Resets(g, ids, Blocks(w, aside, ids), |ids|).heap;
      aside[id] in w.heap && id in h && h[id] == w.heap[aside[id]]
  {
    var ids := ByNumber(aside.Keys);
    var values := Blocks(w, aside, ids);
    assert aside[id] in f && Deferred(w, aside[id]) && ObjOk(w, aside[id]);
    var i :| 0 <= i < |ids| && ids[i] == id;
    assert values[i] == w.heap[aside[id]];
    ResetsPlace(g, ids, values, |ids|, i);
  }

  lemma ServedTogether(w: World, v: Value, aside: map<nat, nat>, f: Numbering, r: Result)
    requires Served(w, aside, GotBack(w, v), r) && Identical(w, v, f, r)
    ensures PutTogether(w, Emit(w, v, map[]).seen, f, aside.Keys,
                        After(w, v, map[], Emit(w, v, map[]).seen, {}, EMPTY_STORE), r.heap)
  {
  }

  lemma IdenticalIsIntact(w: World, k: Kind, v: Value, aside: map<nat, nat>, f: Numbering)
    requires var ids := Emit(w, v, map[]).seen; WorldOk(w) && WellTyped(w, k, v) && AsideOk(w, aside, ids, ids)
    requires Identical(w, v, f, Complete(w, v, aside))
    ensures Intact(w, v, map[], {}, false)
  {
    var ids := Emit(w, v, map[]).seen;
    var end, r := After(w, v, map[], ids, {}, EMPTY_STORE), Complete(w, v, aside);
    AllServed(w, k, v, aside);
    ServedTogether(w, v, aside, f, r);
    TogetherIsIntact(w, k, v, map[], ids, {}, false, EMPTY_STORE, f, aside.Keys, end, r.heap);
  }

  lemma IntactIsIdentical(w: World, k: Kind, v: Value, aside: map<nat, nat>)
    requires var f := Emit(w, v, map[]).seen; WorldOk(w) && WellTyped(w, k, v) && AsideOk(w, aside, f, f)
    requires Intact(w, v, map[], {}, false)
    ensures Identical(w, v, Emit(w, v, map[]).seen, Complete(w, v, aside))
  {
    IntactHasCopy(w, k, v);
    AllPlaced(w, k, v, aside, GotBack(w, v));
  }

  // The numbers that wait are those of the blocks, and the blocks all arrive.
  lemma AllArrive(w: World, k: Kind, v: Value, aside: map<nat, nat>, buffers: seq<nat>, order: seq<nat>)
    requires WorldOk(w) && WellTyped(w, k, v)
    requires AsideOk(w, aside, Emit(w, v, map[]).seen, Emit(w, v, map[]).seen)
    requires |buffers| == |aside.Keys| > 0 && Distinct(buffers) && multiset(order) == multiset(buffers)
    ensures AllIn(order, buffers)
    ensures var p, ids := Parse(w.types, k, Emit(w, v, map[]).bytes, EMPTY_STORE, false), ByNumber(aside.Keys);
      var q := Arrivals(Pending(buffers, [], 0), order, Blocks(w, aside, ids));
      && Ready(q) && p.Some? && ByNumber(p.value.store.deferred) == ids && |ids| == |q.values|
      && (forall i :: 0 <= i < |ids| ==> q.values[i] == Some(Blocks(w, aside, ids)[i]))
      && GotBack(w, v) == Result(p.value.value, p.value.store.heap)
  {
    var ids := ByNumber(aside.Keys);
    ReadyOnce(buffers, order, Blocks(w, aside, ids), |order|);
    assert order[..|order|] == order;
    ReadAll(w, k, v);
    SameNumbers(w, k, v, aside);
  }

  /** Deferred blocks return to their own pointers, for every well-typed graph. Its blocks travel apart and
      arrive in any order; once the last one is there the value is ready; as many numbers wait as blocks
      were set aside, in the same order; and putting the blocks in their places serves every pointer that
      waits. The whole is the graph that was sent, under some names, if and only if the graph is intact. */
  lemma DeferredReturn(w: World, k: Kind, v: Value, aside: map<nat, nat>, buffers: seq<nat>, order: seq<nat>)
    requires WorldOk(w) && WellTyped(w, k, v)
    requires AsideOk(w, aside, Emit(w, v, map[]).seen, Emit(w, v, map[]).seen)
    requires |buffers| == |aside.Keys| > 0 && Distinct(buffers) && multiset(order) == multiset(buffers)
    ensures AllIn(order, buffers)
    ensures var p, ids := Parse(w.types, k, Emit(w, v, map[]).bytes, EMPTY_STORE, false), ByNumber(aside.Keys);
      var q := Arrivals(Pending(buffers, [], 0), order, Blocks(w, aside, ids));
      && Ready(q) && p.Some? && ByNumber(p.value.store.deferred) == ids && |ids| == |q.values|
      && (forall i :: 0 <= i < |ids| ==> q.values[i] == Some(Blocks(w, aside, ids)[i]))
      && GotBack(w, v) == Result(p.value.value, p.value.store.heap)
    ensures Served(w, aside, GotBack(w, v), Complete(w, v, aside))
    ensures (exists f :: Identical(w, v, f, Complete(w, v, aside))) <==> Intact(w, v, map[], {}, false)
  {
    AllArrive(w, k, v, aside, buffers, order);
    AllServed(w, k, v, aside);
    if Intact(w, v, map[], {}, false) {
      IntactIsIdentical(w, k, v, aside);
    }
    if f :| Identical(w, v, f, Complete(w, v, aside)) {
      IdenticalIsIntact(w, k, v, aside, f);
    }
  }

  // ---------------------------------------------------------------- the check on the order

  // A deferred block as it is announced: its number and its size.
  datatype Announced = Announced(id: nat, size: nat)

  // The announcements of the blocks set aside, in the order of their numbers.
  function AnnouncedBy(w: World, aside: map<nat, nat>): seq<Announced> {
    var ids := ByNumber(aside.Keys);
    seq(|ids|, i requires 0 <= i < |ids| =>
      Announced(ids[i], if ids[i] in aside then BlockSize(w, aside[ids[i]]) else 0))
  }

  // The comparison that the program gives: one block comes before another unless the number of the one is the
  // size of the other.
  predicate ComesBefore(a: Announced, b: Announced) {
    a.id != b.size
  }

  // The library's test of an order: no element comes before the one in front of it.
  predicate CheckedSorted(xs: seq<Announced>) {
    forall i {:trigger xs[i]} :: 0 <= i < |xs| - 1 ==> !ComesBefore(xs[i + 1], xs[i])
  }

  /** So two blocks pass exactly if the second one has the size of the first as its number. */
  lemma TwoPassIff(a: Announced, b: Announced)
    ensures CheckedSorted([a, b]) <==> b.id == a.size
  {
    var xs := [a, b];
    assert xs[0] == a && xs[0 + 1] == b;
  }

  lemma AnnouncedAs(w: World, aside: map<nat, nat>, seen: Numbering, i: nat)
    requires Ranked(seen) && AsideOk(w, aside, seen, seen) && i < |AnnouncedBy(w, aside)|
    ensures AnnouncedBy(w, aside)[i].size >= ZERO_COPY_SIZE && AnnouncedBy(w, aside)[i].id <= |seen|
  {
    var id := ByNumber(aside.Keys)[i];
    assert id in aside && Deferred(w, aside[id]) && seen[aside[id]] == id;
  }

  // The announcements are in order, whatever the assertion says.
  lemma AnnouncedInOrder(w: World, aside: map<nat, nat>)
    ensures |AnnouncedBy(w, aside)| == |aside|
    ensures forall i, j :: 0 <= i < j < |aside| ==> AnnouncedBy(w, aside)[i].id < AnnouncedBy(w, aside)[j].id
  {
    assert |aside.Keys| == |aside|;
  }

  lemma FirstTwoRejected(xs: seq<Announced>, objects: nat)
    requires |xs| >= 2 && xs[0].size >= ZERO_COPY_SIZE && xs[1].id <= objects < ZERO_COPY_SIZE
    ensures !CheckedSorted(xs)
  {
    assert xs[0 + 1].id != xs[0].size;
  }

  /** The assertion that the deferred blocks are in order compares a number with a size. The blocks always
      are in order; but as long as fewer objects are printed than the smallest deferred block has bytes, the
      assertion holds exactly where at most one block is deferred. */
  lemma OrderAssertionIff(w: World, v: Value, aside: map<nat, nat>)
    requires var f := Emit(w, v, map[]).seen; AsideOk(w, aside, f, f) && |f| < ZERO_COPY_SIZE
    ensures CheckedSorted(AnnouncedBy(w, aside)) <==> |aside| <= 1
  {
    var xs, f := AnnouncedBy(w, aside), Emit(w, v, map[]).seen;
    AnnouncedInOrder(w, aside);
    if |xs| >= 2 {
      assert xs[0].size >= ZERO_COPY_SIZE && xs[1].id <= |f| by {
        EmitRanks(w, v, map[]);
        AnnouncedAs(w, aside, f, 0);
        AnnouncedAs(w, aside, f, 1);
      }
      FirstTwoRejected(xs, |f|);
    }
  }

  // Two large blocks, and a pair of pointers to them.
  function TwoBlocks(): World {
    var data: seq<byte> := seq(ZERO_COPY_SIZE, _ => 0);
    World(map[5 := Type(Block, Raw(ZERO_COPY_SIZE))], map[1 := Obj(5, Data(data)), 2 := Obj(5, Data(data))], true)
  }

  lemma TwoBlocksOk()
    ensures WorldOk(TwoBlocks()) && Deferred(TwoBlocks(), 1) && Deferred(TwoBlocks(), 2)
    ensures WellTyped(TwoBlocks(), Both(PlainPtr(5), PlainPtr(5)), Pair(To(1), To(2)))
  {
    var w := TwoBlocks();
    assert w.heap.Keys == {1, 2};
    assert |w.heap| == |w.heap.Keys| == 2;
    assert ObjOk(w, 1) && ObjOk(w, 2);
  }

  lemma TwoBlocksSeen()
    ensures Emit(TwoBlocks(), Pair(To(1), To(2)), map[]).seen == map[1 := 1, 2 := 2]
  {
    var w, none: Numbering := TwoBlocks(), map[];
    TwoBlocksOk();
    assert Emit(w, To(1), none).seen == Met(none, 1) == map[1 := 1];
    assert Emit(w, To(2), Met(none, 1)).seen == Met(Met(none, 1), 2);
    EmitPair(w, To(1), To(2), none);
  }

  /** So it fails for this graph: packing sets the two blocks aside, and the assertion rejects them. */
  lemma TwoBlocksRejected()
    ensures var w, v, aside := TwoBlocks(), Pair(To(1), To(2)), map[1 := 1, 2 := 2];
      && AsideOk(w, aside, Emit(w, v, map[]).seen, Emit(w, v, map[]).seen)
      && !CheckedSorted(AnnouncedBy(w, aside))
  {
    var w, v, aside := TwoBlocks(), Pair(To(1), To(2)), map[1 := 1, 2 := 2];
    var f: Numbering := map[1 := 1, 2 := 2];
    TwoBlocksSeen();
    assert AsideOk(w, aside, f, f) by {
      TwoBlocksOk();
    }
    assert aside.Keys == {1, 2} && |aside| == |aside.Keys| == 2 && |f| == |f.Keys| == 2;
    OrderAssertionIff(w, v, aside);
  }
}
