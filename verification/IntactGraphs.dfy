/** Which graphs are intact: a condition on the graph alone, and what happens outside it. */
module IntactGraphs {
  import opened Common
  import opened Graph
  import opened Parsing
  import opened RoundTrip

  predicate Edge(w: World, a: nat, b: nat) {
    a in w.heap && PointsTo(w.heap[a].body, b)
  }

  predicate Path(w: World, p: seq<nat>) {
    |p| >= 2 && forall i :: 0 <= i < |p| - 1 ==> Edge(w, p[i], p[i + 1])
  }

  ghost predicate Reaches(w: World, a: nat, b: nat) {
    exists p :: Path(w, p) && p[0] == a && p[|p| - 1] == b
  }

  // No object lies on a cycle, except through polymorphic objects alone.
  ghost predicate CyclesArePolymorphic(w: World) {
    forall o {:trigger FamilyOf(w, o)} :: o in w.heap && FamilyOf(w, o) != Poly ==> !Reaches(w, o, o)
  }

  // No item of a list holds a pointer to a block that is deferred.
  predicate KeepsBlocks(w: World, v: Value, moved: bool) {
    match v
    case Pair(a, b) => KeepsBlocks(w, a, moved) && KeepsBlocks(w, b, moved)
    case List(items) => KeepsBlocks(w, items, true)
    case To(o) => !(moved && Deferred(w, o))
    case _ => true
  }

  ghost predicate ListsKeepBlocks(w: World) {
    forall o {:trigger w.heap[o]} :: o in w.heap ==> KeepsBlocks(w, w.heap[o].body, false)
  }

  lemma EdgeReaches(w: World, a: nat, b: nat)
    requires Edge(w, a, b)
    ensures Reaches(w, a, b)
  {
    assert Path(w, [a, b]);
  }

  lemma ReachesOn(w: World, a: nat, b: nat, c: nat)
    requires Reaches(w, a, b) && Edge(w, b, c)
    ensures Reaches(w, a, c)
  {
    var p :| Path(w, p) && p[0] == a && p[|p| - 1] == b;
    var q := p + [c];
    forall i | 0 <= i < |q| - 1
      ensures Edge(w, q[i], q[i + 1])
    {
      if i < |p| - 1 {
        assert Edge(w, p[i], p[i + 1]);
      }
    }
    assert Path(w, q);
  }

  // Each object being printed reaches what the value points to.
  ghost predicate Above(w: World, open: set<nat>, v: Value) {
    forall x, t {:trigger Reaches(w, x, t)} :: x in open && PointsTo(v, t) ==> Reaches(w, x, t)
  }

  lemma AboveBody(w: World, open: set<nat>, o: nat)
    requires o in w.heap && Above(w, open, To(o))
    ensures Above(w, Inside(w, open, o), w.heap[o].body)
  {
    forall x, t | x in Inside(w, open, o) && PointsTo(w.heap[o].body, t)
      ensures Reaches(w, x, t)
    {
      if x == o {
        EdgeReaches(w, o, t);
      } else {
        assert PointsTo(To(o), o);
        ReachesOn(w, x, o, t);
      }
    }
  }

  ghost predicate NonePolymorphic(w: World, open: set<nat>) {
    forall x :: x in open ==> x in w.heap && FamilyOf(w, x) != Poly
  }

  /** Every graph whose cycles run through polymorphic objects, and whose deferred blocks are not
      held by items of lists, is intact, and so comes back as the same graph. */
  lemma {:induction false} AcyclicIsIntact(w: World, v: Value, seen: Numbering, open: set<nat>, moved: bool)
    requires CyclesArePolymorphic(w) && ListsKeepBlocks(w) && KeepsBlocks(w, v, moved) && Above(w, open, v)
    requires NonePolymorphic(w, open)
    ensures Intact(w, v, seen, open, moved)
    decreases Unseen(w, seen), v, 1
  {
    match v
    case Pair(a, b) =>
      AboveParts(w, open, v);
      UnseenShrinks(w, seen, Emit(w, a, seen).seen);
      AcyclicIsIntact(w, a, seen, open, moved);
      AcyclicIsIntact(w, b, Emit(w, a, seen).seen, open, moved);
    case List(items) =>
      AboveParts(w, open, v);
      AcyclicIsIntact(w, items, seen, open, true);
    case To(o) =>
      OpenReachesItself(w, open, o);
      assert o in open ==> FamilyOf(w, o) != Poly;
      if !Deferred(w, o) && o !in seen && o in w.heap {
        AcyclicObject(w, o, seen, open);
      }
    case _ =>
  }

  lemma {:induction false} AcyclicObject(w: World, o: nat, seen: Numbering, open: set<nat>)
    requires CyclesArePolymorphic(w) && ListsKeepBlocks(w) && Above(w, open, To(o)) && NonePolymorphic(w, open)
    requires o in w.heap && o !in seen
    ensures Intact(w, w.heap[o].body, Met(seen, o), Inside(w, open, o), false)
    decreases Unseen(w, seen), To(o), 0
  {
    MetShrinks(w, seen, o);
    AboveBody(w, open, o);
    AcyclicIsIntact(w, w.heap[o].body, Met(seen, o), Inside(w, open, o), false);
  }

  lemma OpenReachesItself(w: World, open: set<nat>, o: nat)
    requires Above(w, open, To(o))
    ensures o in open ==> Reaches(w, o, o)
  {
    assert PointsTo(To(o), o);
  }

  lemma AboveParts(w: World, open: set<nat>, v: Value)
    requires Above(w, open, v)
    ensures v.Pair? ==> Above(w, open, v.fst) && Above(w, open, v.snd)
    ensures v.List? ==> Above(w, open, v.items)
  {
  }

  /** The promise, on the graphs it is made for. */
  lemma AcyclicRoundTrip(w: World, k: Kind, v: Value)
    requires WorldOk(w) && WellTyped(w, k, v) && CyclesArePolymorphic(w)
    requires !w.deferrable || (ListsKeepBlocks(w) && KeepsBlocks(w, v, false))
    ensures var r := Parse(w.types, k, Emit(w, v, map[]).bytes, EMPTY_STORE, false);
      r.Some? && r.value.rest == [] && exists f :: Isomorphic(w, v, f, r.value.value, r.value.store.heap)
  {
    if !w.deferrable {
      forall o | o in w.heap
        ensures KeepsBlocks(w, w.heap[o].body, false)
      {
        NothingDeferred(w, w.heap[o].body, false);
      }
      NothingDeferred(w, v, false);
    }
    AcyclicIsIntact(w, v, map[], {}, false);
    GraphRoundTrip(w, k, v);
  }

  lemma {:induction false} NothingDeferred(w: World, v: Value, moved: bool)
    requires !w.deferrable
    ensures KeepsBlocks(w, v, moved)
  {
    match v
    case Pair(a, b) => NothingDeferred(w, a, moved); NothingDeferred(w, b, moved);
    case List(items) => NothingDeferred(w, items, true);
    case _ =>
  }

  // ---------------------------------------------------------------- what goes wrong otherwise

  // An object that is not polymorphic and points to itself.
  const LOOP := World(map[7 := Type(Plain, PlainPtr(7))], map[3 := Obj(7, To(3))], false)

  /** A cycle of plain pointers does not survive: the object comes back pointing to nothing. */
  lemma LoopIsCut()
    ensures WorldOk(LOOP) && WellTyped(LOOP, PlainPtr(7), To(3)) && !Intact(LOOP, To(3), map[], {}, false)
    ensures var r := Parse(LOOP.types, PlainPtr(7), Emit(LOOP, To(3), map[]).bytes, EMPTY_STORE, false);
      r.Some? && r.value.value == To(1) && r.value.store.heap == map[1 := Obj(7, Null)]
  {
    var w, in1: Numbering := LOOP, map[3 := 1];
    assert |w.heap| == 1;
    assert ObjOk(w, 3);
    assert Met(map[], 3) == in1;
    EmitObject(w, 3, map[]);
    assert Emit(w, To(3), in1).seen == in1;
    ReadAll(w, PlainPtr(7), To(3));
    AfterObjectIs(w, 3, map[], in1, {}, EMPTY_STORE);
    assert Inside(w, {}, 3) == {3};
  }

  // A list of pointers to one large block.
  const BLOCKS := World(map[5 := Type(Block, Raw(ZERO_COPY_SIZE))],
    map[2 := Obj(5, Data(seq(ZERO_COPY_SIZE, _ => 0)))], true)

  lemma BlocksOk()
    ensures WorldOk(BLOCKS) && WellTyped(BLOCKS, PlainPtr(5), To(2)) && Deferred(BLOCKS, 2)
  {
    assert |BLOCKS.heap| == 1 && ObjOk(BLOCKS, 2);
  }

  lemma DeferredMet(w: World, o: nat)
    requires o in w.heap && Deferred(w, o)
    ensures Emit(w, To(o), map[]).seen == Met(map[], o)
  {
  }

  /** An item of a list cannot wait for a block: it is moved into the list before the block comes. */
  lemma ListLosesBlock(w: World, ty: nat, o: nat)
    requires WorldOk(w) && WellTyped(w, PlainPtr(ty), To(o)) && Deferred(w, o)
    ensures var k, v := ListOf(PlainPtr(ty)), List(Pair(To(o), Unit));
      && WellTyped(w, k, v) && !Intact(w, v, map[], {}, false)
      && var r := Parse(w.types, k, Emit(w, v, map[]).bytes, EMPTY_STORE, false);
         r.Some? && r.value.value == List(Pair(Lost, Unit))
  {
    var k, v := ListOf(PlainPtr(ty)), List(Pair(To(o), Unit));
    assert Length(Unit) == 0 && Length(Pair(To(o), Unit)) == 1;
    assert WellTyped(w, Chain(PlainPtr(ty), 1), Pair(To(o), Unit));
    DeferredMet(w, o);
    assert Emit(w, Pair(To(o), Unit), map[]).seen == Met(map[], o);
    assert !Intact(w, Pair(To(o), Unit), map[], {}, true);
    ReadAll(w, k, v);
    var f := Emit(w, v, map[]).seen;
    assert Image(w, Pair(To(o), Unit), f, {}, true) == Pair(Lost, Unit);
  }
}
