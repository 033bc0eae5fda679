/** The size of a printed graph in closed form, and the size that a message with deferred blocks is made
    for: when it is what is written into it. */
module PackDeferrable {
  import opened Common
  import opened Graph

  // A record takes a kind and one or two words.
  const REFERENCE_SIZE: nat := 9
  const INSTANCE_SIZE: nat := 17

  function PointerSize(w: World, o: nat): nat {
    if Deferred(w, o) then INSTANCE_SIZE else REFERENCE_SIZE
  }

  // A value on its own, each pointer taking a record of an object that does not follow.
  function Flat(w: World, v: Value): nat {
    match v
    case Data(b) => |b|
    case Pair(a, b) => Flat(w, a) + Flat(w, b)
    case List(items) => WORD + Flat(w, items)
    case Null => 1
    case To(o) => PointerSize(w, o)
    case _ => 0
  }

  // What an object adds where it is printed: its type, and itself.
  function ObjectSize(w: World, o: nat): nat {
    if o !in w.heap || Deferred(w, o) then 0 else INSTANCE_SIZE - REFERENCE_SIZE + Flat(w, w.heap[o].body)
  }

  ghost function Total(w: World, s: set<nat>): nat {
    if s == {} then 0
    else
      var x :| x in s;
      ObjectSize(w, x) + Total(w, s - {x})
  }

  lemma {:induction false} TotalWith(w: World, s: set<nat>, x: nat)
    requires x in s
    ensures Total(w, s) == ObjectSize(w, x) + Total(w, s - {x})
    decreases s
  {
    var y :| y in s && Total(w, s) == ObjectSize(w, y) + Total(w, s - {y});
    if y != x {
      TotalWith(w, s - {y}, x);
      TotalWith(w, s - {x}, y);
      assert s - {y} - {x} == s - {x} - {y};
    }
  }

  lemma {:induction false} TotalBoth(w: World, a: set<nat>, b: set<nat>)
    requires a !! b
    ensures Total(w, a + b) == Total(w, a) + Total(w, b)
    decreases b
  {
    if b == {} {
      assert a + b == a;
    } else {
      var x :| x in b;
      TotalWith(w, b, x);
      TotalWith(w, a + b, x);
      TotalBoth(w, a, b - {x});
      assert a + b - {x} == a + (b - {x});
    }
  }

  // What is new after a value is printed.
  function New(w: World, v: Value, seen: Numbering): set<nat> {
    Emit(w, v, seen).seen.Keys - seen.Keys
  }

  lemma RecordSize(r: Record)
    ensures |PutRecord(r)| == match r case Ignored => 1 case Reference(_) => REFERENCE_SIZE case _ => INSTANCE_SIZE
  {
  }

  ghost predicate Sized(w: World, v: Value, seen: Numbering) {
    |Emit(w, v, seen).bytes| == Flat(w, v) + Total(w, New(w, v, seen))
  }

  lemma NewOfPair(w: World, a: Value, b: Value, seen: Numbering)
    ensures var x := Emit(w, a, seen).seen;
      New(w, Pair(a, b), seen) == New(w, a, seen) + New(w, b, x) && New(w, a, seen) !! New(w, b, x)
  {
    var x := Emit(w, a, seen).seen;
    var y := Emit(w, b, x).seen;
    assert seen.Keys <= x.Keys <= y.Keys && Emit(w, Pair(a, b), seen).seen == y;
  }

  lemma NewOfObject(w: World, o: nat, seen: Numbering)
    requires o in w.heap && o !in seen && !Deferred(w, o)
    ensures var inner := New(w, w.heap[o].body, Met(seen, o)); New(w, To(o), seen) == {o} + inner && o !in inner
  {
    var a, m := seen.Keys, Met(seen, o).Keys;
    var e := Emit(w, w.heap[o].body, Met(seen, o)).seen.Keys;
    assert m == a + {o};
    SplitOff(a, e, o);
    assert New(w, To(o), seen) == e - a by {
      EmitObject(w, o, seen);
    }
  }

  lemma SplitOff(a: set<nat>, b: set<nat>, o: nat)
    requires a + {o} <= b && o !in a
    ensures b - a == {o} + (b - (a + {o})) && o !in b - (a + {o})
  {
  }

  lemma TotalOne(w: World, o: nat)
    ensures Total(w, {o}) == ObjectSize(w, o)
  {
    TotalWith(w, {o}, o);
    assert {o} - {o} == {};
  }

  lemma PairBytes(w: World, a: Value, b: Value, seen: Numbering)
    ensures |Emit(w, Pair(a, b), seen).bytes| == |Emit(w, a, seen).bytes| + |Emit(w, b, Emit(w, a, seen).seen).bytes|
  {
  }

  lemma PairSized(w: World, a: Value, b: Value, seen: Numbering)
    requires Sized(w, a, seen) && Sized(w, b, Emit(w, a, seen).seen)
    ensures Sized(w, Pair(a, b), seen)
  {
    PairBytes(w, a, b, seen);
    NewOfPair(w, a, b, seen);
    TotalBoth(w, New(w, a, seen), New(w, b, Emit(w, a, seen).seen));
  }

  lemma ObjectSized(w: World, o: nat, seen: Numbering)
    requires o in w.heap && o !in seen && !Deferred(w, o) && Sized(w, w.heap[o].body, Met(seen, o))
    ensures Sized(w, To(o), seen)
  {
    EmitObject(w, o, seen);
    RecordSize(Instance(|seen| + 1, Tag(w, o)));
    NewOfObject(w, o, seen);
    TotalBoth(w, {o}, New(w, w.heap[o].body, Met(seen, o)));
    TotalOne(w, o);
  }

  lemma PointerSized(w: World, o: nat, seen: Numbering)
    requires o in w.heap && (o in seen || Deferred(w, o))
    ensures Sized(w, To(o), seen)
  {
    RecordSize(Again(w, o, if o in seen then seen[o] else |seen| + 1));
    if o !in seen {
      assert New(w, To(o), seen) == {o};
      TotalOne(w, o);
    }
  }

  /** The size of what is printed: the value on its own, and each object that is printed along, once. */
  lemma {:induction false} GraphSize(w: World, k: Kind, v: Value, seen: Numbering)
    requires WorldOk(w) && WellTyped(w, k, v)
    ensures |Emit(w, v, seen).bytes| == Flat(w, v) + Total(w, New(w, v, seen))
    decreases Unseen(w, seen), v
  {
    match v
    case Pair(a, b) =>
      UnseenShrinks(w, seen, Emit(w, a, seen).seen);
      GraphSize(w, if k.Both? then k.fst else k.elem, a, seen);
      GraphSize(w, if k.Both? then k.snd else Chain(k.elem, k.n - 1), b, Emit(w, a, seen).seen);
      PairSized(w, a, b, seen);
    case List(items) => GraphSize(w, Chain(k.elem, Length(items)), items, seen);
    case To(o) =>
      if o !in seen && !Deferred(w, o) {
        assert ObjOk(w, o);
        MetShrinks(w, seen, o);
        GraphSize(w, w.types[w.heap[o].ty].layout, w.heap[o].body, Met(seen, o));
        ObjectSized(w, o, seen);
      } else {
        PointerSized(w, o, seen);
      }
    case _ =>
  }

  // ---------------------------------------------------------------- the size of the message

  function DeferredIn(w: World, seen: Numbering): set<nat> {
    set o | o in seen && Deferred(w, o)
  }

  // The size the message is made for. The value is object o, sized behind a pointer. Where blocks are
  // deferred their number and their descriptions, of `each` bytes, come first; where none is, a value
  // that is no pointer itself (it was `encapsulated` in one) is written without its record.
  function MessageSize(w: World, o: nat, encapsulated: bool, each: nat): int {
    var e := Emit(w, To(o), map[]);
    var n := |DeferredIn(w, e.seen)|;
    if n > 0 then |e.bytes| + WORD + n * each
    else if encapsulated then |e.bytes| - INSTANCE_SIZE
    else |e.bytes|
  }

  // Printing with the records of a sizing pass: an object is new where it is first met, but its number is
  // the one it has already.
  datatype Text = Text(bytes: seq<byte>, met: set<nat>)

  function EmitUnder(w: World, v: Value, ids: Numbering, met: set<nat>): (r: Text)
    ensures met <= r.met
    decreases |w.heap.Keys - met|, v
  {
    match v
    case Data(b) => Text(b, met)
    case Pair(a, b) =>
      var x := EmitUnder(w, a, ids, met);
      Fewer(w, met, x.met);
      var y := EmitUnder(w, b, ids, x.met);
      Text(x.bytes + y.bytes, y.met)
    case List(items) =>
      var x := EmitUnder(w, items, ids, met);
      Text(Word(Length(items)) + x.bytes, x.met)
    case Null => Text(PutRecord(Ignored), met)
    case To(o) =>
      if o in met || Deferred(w, o) then Text(PutRecord(Again(w, o, NumberIn(ids, o))), met + {o})
      else if o !in w.heap then Text([], met)
      else
        Fewer(w, met, met + {o});
        var x := EmitUnder(w, w.heap[o].body, ids, met + {o});
        Text(PutRecord(Instance(NumberIn(ids, o), Tag(w, o))) + x.bytes, x.met)
    case _ => Text([], met)
  }

  function NumberIn(ids: Numbering, o: nat): nat {
    if o in ids then ids[o] else 0
  }

  lemma Fewer(w: World, a: set<nat>, b: set<nat>)
    requires a <= b
    ensures |w.heap.Keys - b| <= |w.heap.Keys - a|
    ensures forall o :: o in w.heap && o in b && o !in a ==> |w.heap.Keys - b| < |w.heap.Keys - a|
  {
    var x, y := w.heap.Keys - a, w.heap.Keys - b;
    assert x == y + (x - y);
    forall o | o in w.heap && o in b && o !in a
      ensures |y| < |x|
    {
      assert o in x - y;
    }
  }

  // Whether the value is written without its record.
  predicate Dropped(w: World, o: nat, encapsulated: bool) {
    encapsulated && DeferredIn(w, Emit(w, To(o), map[]).seen) == {}
  }

  function Content(w: World, o: nat, encapsulated: bool): Value
    requires o in w.heap
  {
    if Dropped(w, o, encapsulated) then w.heap[o].body else To(o)
  }

  // What is written for object o, after what describes the blocks: the packer has the records of the sizing
  // pass, and defers only if that pass did.
  function WrittenText(w: World, o: nat, encapsulated: bool): seq<byte>
    requires o in w.heap
  {
    var ids := Emit(w, To(o), map[]).seen;
    EmitUnder(w.(deferrable := DeferredIn(w, ids) != {}), Content(w, o, encapsulated), ids, {}).bytes
  }

  // The size that is written.
  function WrittenSize(w: World, o: nat, encapsulated: bool, each: nat): int
    requires o in w.heap
  {
    var n := |DeferredIn(w, Emit(w, To(o), map[]).seen)|;
    (if n > 0 then WORD + n * each else 0) + |WrittenText(w, o, encapsulated)|
  }

  ghost predicate SameSize(w: World, v: Value, ids: Numbering, seen: Numbering) {
    var x, y := EmitUnder(w, v, ids, seen.Keys), Emit(w, v, seen);
    |x.bytes| == |y.bytes| && x.met == y.seen.Keys
  }

  /** The numbers do not change the size. */
  lemma {:induction false} UnderSize(w: World, v: Value, ids: Numbering, seen: Numbering)
    ensures SameSize(w, v, ids, seen)
    decreases Unseen(w, seen), v
  {
    match v
    case Pair(a, b) =>
      UnderSize(w, a, ids, seen);
      assert Unseen(w, Emit(w, a, seen).seen) <= Unseen(w, seen) by {
        UnseenShrinks(w, seen, Emit(w, a, seen).seen);
      }
      UnderSize(w, b, ids, Emit(w, a, seen).seen);
      PairUnderSize(w, a, b, ids, seen);
    case List(items) =>
      UnderSize(w, items, ids, seen);
      ListUnderSize(w, items, ids, seen);
    case To(o) =>
      if o in w.heap && o !in seen && !Deferred(w, o) {
        MetShrinks(w, seen, o);
        UnderSize(w, w.heap[o].body, ids, Met(seen, o));
        ObjectUnderSize(w, o, ids, seen);
      } else {
        PointerUnderSize(w, o, ids, seen);
      }
    case _ =>
      LeafUnderSize(w, v, ids, seen);
  }

  lemma LeafUnderSize(w: World, v: Value, ids: Numbering, seen: Numbering)
    requires !v.Pair? && !v.List? && !v.To?
    ensures SameSize(w, v, ids, seen)
  {
  }

  lemma PairUnderSize(w: World, a: Value, b: Value, ids: Numbering, seen: Numbering)
    requires SameSize(w, a, ids, seen) && SameSize(w, b, ids, Emit(w, a, seen).seen)
    ensures SameSize(w, Pair(a, b), ids, seen)
  {
  }

  lemma ListUnderSize(w: World, items: Value, ids: Numbering, seen: Numbering)
    requires SameSize(w, items, ids, seen)
    ensures SameSize(w, List(items), ids, seen)
  {
  }

  lemma ObjectUnderSize(w: World, o: nat, ids: Numbering, seen: Numbering)
    requires o in w.heap && o !in seen && !Deferred(w, o) && SameSize(w, w.heap[o].body, ids, Met(seen, o))
    ensures SameSize(w, To(o), ids, seen)
  {
    assert Met(seen, o).Keys == seen.Keys + {o};
    EmitObject(w, o, seen);
    RecordSize(Instance(|seen| + 1, Tag(w, o)));
    RecordSize(Instance(NumberIn(ids, o), Tag(w, o)));
  }

  lemma PointerUnderSize(w: World, o: nat, ids: Numbering, seen: Numbering)
    requires o in seen || Deferred(w, o) || o !in w.heap
    ensures SameSize(w, To(o), ids, seen)
  {
    RecordSize(Again(w, o, NumberIn(ids, o)));
    if o in seen {
      assert seen.Keys + {o} == seen.Keys;
      RecordSize(Again(w, o, seen[o]));
    } else if o in w.heap {
      assert Met(seen, o).Keys == seen.Keys + {o};
      RecordSize(Again(w, o, |seen| + 1));
    }
  }

  // What can be reached from object o is o and what can be reached from its body.
  lemma ReachedThrough(w: World, k: Kind, o: nat)
    requires WorldOk(w) && WellTyped(w, k, To(o))
    ensures Emit(w, To(o), map[]).seen.Keys == Emit(w, w.heap[o].body, map[]).seen.Keys + {o}
  {
    assert ObjOk(w, o);
    var body, layout := w.heap[o].body, w.types[w.heap[o].ty].layout;
    var all, inner := Emit(w, To(o), map[]).seen.Keys, Emit(w, body, map[]).seen.Keys;
    var everything := EverythingReached(w);
    PrintsWhatIsReached(w, k, To(o), everything);
    PrintsWhatIsReached(w, layout, body, everything);
    assert PointsTo(To(o), o);
    assert forall x :: PointsTo(body, x) ==> x in all;
    EmitWithin(w, body, map[], all);
    assert Closed(w, inner + {o});
    EmitWithin(w, To(o), map[], inner + {o});
  }

  lemma EverythingReached(w: World) returns (all: set<nat>)
    requires WorldOk(w)
    ensures Closed(w, all) && forall o :: o in w.heap ==> o in all
    ensures forall k, v, x {:trigger WellTyped(w, k, v), PointsTo(v, x)} ::
              WellTyped(w, k, v) && PointsTo(v, x) ==> x in all
  {
    all := w.heap.Keys;
    forall k, v, x | WellTyped(w, k, v) && PointsTo(v, x)
      ensures x in all
    {
      PointsIntoHeap(w, k, v, x);
    }
    forall o, x | o in w.heap && PointsTo(w.heap[o].body, x)
      ensures x in all
    {
      assert ObjOk(w, o);
      PointsIntoHeap(w, w.types[w.heap[o].ty].layout, w.heap[o].body, x);
    }
  }

  lemma {:induction false} PointsIntoHeap(w: World, k: Kind, v: Value, x: nat)
    requires WellTyped(w, k, v) && PointsTo(v, x)
    ensures x in w.heap
    decreases v
  {
    match v
    case Pair(a, b) =>
      if PointsTo(a, x) {
        PointsIntoHeap(w, if k.Both? then k.fst else k.elem, a, x);
      } else {
        PointsIntoHeap(w, if k.Both? then k.snd else Chain(k.elem, k.n - 1), b, x);
      }
    case List(items) => PointsIntoHeap(w, Chain(k.elem, Length(items)), items, x);
    case _ =>
  }

  // Without deferred objects in reach, it does not matter whether blocks may be deferred.
  lemma {:induction false} FlatSame(w: World, v: Value)
    requires forall x :: PointsTo(v, x) ==> !Deferred(w, x)
    ensures Flat(w.(deferrable := false), v) == Flat(w, v)
  {
    match v
    case Pair(a, b) =>
      assert forall x :: PointsTo(a, x) || PointsTo(b, x) ==> PointsTo(v, x);
      FlatSame(w, a);
      FlatSame(w, b);
    case List(items) =>
      assert forall x :: PointsTo(items, x) ==> PointsTo(v, x);
      FlatSame(w, items);
    case To(o) => assert PointsTo(v, o);
    case _ =>
  }

  lemma {:induction false} EmitSame(w: World, k: Kind, v: Value, seen: Numbering)
    requires WorldOk(w) && WellTyped(w, k, v) && DeferredIn(w, Emit(w, v, seen).seen) == {}
    ensures Emit(w.(deferrable := false), v, seen) == Emit(w, v, seen)
    decreases Unseen(w, seen), v
  {
    var w0 := w.(deferrable := false);
    match v
    case Pair(a, b) =>
      var x := Emit(w, a, seen).seen;
      UnseenShrinks(w, seen, x);
      assert x.Keys <= Emit(w, b, x).seen.Keys;
      assert DeferredIn(w, x) <= DeferredIn(w, Emit(w, v, seen).seen);
      EmitSame(w, if k.Both? then k.fst else k.elem, a, seen);
      EmitSame(w, if k.Both? then k.snd else Chain(k.elem, k.n - 1), b, x);
    case List(items) => EmitSame(w, Chain(k.elem, Length(items)), items, seen);
    case To(o) =>
      assert ObjOk(w, o);
      assert o in Emit(w, v, seen).seen;
      assert o !in DeferredIn(w, Emit(w, v, seen).seen);
      if o !in seen {
        MetShrinks(w, seen, o);
        EmitSame(w, w.types[w.heap[o].ty].layout, w.heap[o].body, Met(seen, o));
      }
    case _ =>
  }

  /** The assertion on the size of the message holds exactly if blocks are deferred, or the value is a
      pointer, or the value cannot be reached from itself: otherwise it is printed once more inside itself,
      its record having been dropped. A value that is kept inline is new to all pointers and so never
      reached. */
  lemma MessageSizeIff(w: World, k: Kind, o: nat, encapsulated: bool, each: nat)
    requires WorldOk(w) && WellTyped(w, k, To(o))
    ensures MessageSize(w, o, encapsulated, each) == WrittenSize(w, o, encapsulated, each)
      <==> Dropped(w, o, encapsulated) ==> o !in Emit(w, w.heap[o].body, map[]).seen
  {
    var e, body := Emit(w, To(o), map[]), w.heap[o].body;
    if DeferredIn(w, e.seen) == {} {
      UnderSize(w.(deferrable := false), Content(w, o, encapsulated), e.seen, map[]);
      assert ObjOk(w, o);
      ReachedThrough(w, k, o);
      assert DeferredIn(w, Emit(w, body, map[]).seen) <= DeferredIn(w, e.seen);
      EmitSame(w, k, To(o), map[]);
      EmitSame(w, w.types[w.heap[o].ty].layout, body, map[]);
      BodySize(w, k, o);
    } else {
      var x :| x in DeferredIn(w, e.seen);
      assert w.(deferrable := true) == w;
      UnderSize(w, To(o), e.seen, map[]);
    }
  }

  lemma BodySize(w: World, k: Kind, o: nat)
    requires WorldOk(w) && WellTyped(w, k, To(o)) && !Deferred(w, o)
    requires Emit(w, To(o), map[]).seen.Keys == Emit(w, w.heap[o].body, map[]).seen.Keys + {o}
    ensures var whole, inner := |Emit(w, To(o), map[]).bytes|, |Emit(w, w.heap[o].body, map[]).bytes|;
      if o in Emit(w, w.heap[o].body, map[]).seen then inner > whole - INSTANCE_SIZE else inner == whole - INSTANCE_SIZE
  {
    assert ObjOk(w, o);
    var none: Numbering := map[];
    var all, inner := New(w, To(o), none), New(w, w.heap[o].body, none);
    GraphSize(w, k, To(o), none);
    GraphSize(w, w.types[w.heap[o].ty].layout, w.heap[o].body, none);
    assert none.Keys == {};
    TotalAndOne(w, inner, all, o);
  }

  lemma TotalAndOne(w: World, inner: set<nat>, all: set<nat>, o: nat)
    requires all == inner + {o}
    ensures Total(w, all) == Total(w, inner) + if o in inner then 0 else ObjectSize(w, o)
  {
    if o in inner {
      assert all == inner;
    } else {
      TotalWith(w, all, o);
      assert all - {o} == inner;
    }
  }

  // ---------------------------------------------------------------- a message that is too small

  // A polymorphic object that points to itself.
  const SELF := World(map[7 := Type(Poly, PolyPtr)], map[3 := Obj(7, To(3))], true)

  /** Its message is made for one reference; what is written is its record again, and then the reference. */
  lemma SelfOverruns(each: nat)
    ensures WorldOk(SELF) && WellTyped(SELF, PolyPtr, To(3))
    ensures MessageSize(SELF, 3, true, each) == REFERENCE_SIZE
    ensures WrittenSize(SELF, 3, true, each) == INSTANCE_SIZE + REFERENCE_SIZE
  {
    var none: Numbering := map[];
    assert |SELF.heap| == 1;
    assert ObjOk(SELF, 3);
    EmitObject(SELF, 3, none);
    RecordSize(Instance(1, 7));
    RecordSize(Reference(1));
    assert Met(none, 3) == map[3 := 1];
    var e := Emit(SELF, To(3), none);
    assert e.seen == map[3 := 1] && |e.bytes| == INSTANCE_SIZE + REFERENCE_SIZE;
    assert DeferredIn(SELF, e.seen) == {};
    UnderSize(SELF.(deferrable := false), To(3), e.seen, none);
    EmitSame(SELF, PolyPtr, To(3), none);
  }
}
