/** Reading a printed graph back. A polymorphic object is known under its number while it is being
    read; any other object only afterwards, so that a reference from inside it finds nothing. */
module Parsing {
  import opened Common
  import opened Graph

  // What has been built: the objects under their numbers, the numbers that references can find,
  // and the numbers of the deferred blocks that pointers wait for.
  datatype Store = Store(heap: map<nat, Obj>, instances: set<nat>, deferred: set<nat>)

  datatype Parsed = Parsed(value: Value, store: Store, rest: seq<byte>)

  function Core(k: Kind): nat {
    match k
    case Both(a, b) => 1 + Core(a) + Core(b)
    case ListOf(e) => 1 + Core(e)
    case Chain(e, _) => 1 + Core(e)
    case _ => 0
  }

  function Count(k: Kind): nat {
    if k.Chain? then k.n else 0
  }

  /** Read a value of kind k off the front of s. `moved` says that the value is part of a list's
      item, which is read into a temporary and then moved into the list. The result is None where
      the text is cut short or a check fails. */
  function Parse(types: map<nat, Type>, k: Kind, s: seq<byte>, st: Store, moved: bool): (r: Option<Parsed>)
    ensures r.Some? ==> |r.value.rest| <= |s|
    decreases |s|, Core(k), Count(k), 1
  {
    match k
    case Raw(n) => if |s| < n then None else Some(Parsed(Data(s[..n]), st, s[n..]))
    case Nothing => Some(Parsed(Unit, st, s))
    case Both(a, b) =>
      (match Parse(types, a, s, st, moved)
       case None => None
       case Some(x) => Paired(x.value, Parse(types, b, x.rest, x.store, moved)))
    case Chain(e, n) =>
      if n == 0 then Some(Parsed(Unit, st, s))
      else
        (match Parse(types, e, s, st, moved)
         case None => None
         case Some(x) => Paired(x.value, Parse(types, Chain(e, n - 1), x.rest, x.store, moved)))
    case ListOf(e) =>
      if |s| < WORD then None
      else
        (match Parse(types, Chain(e, Number(s[..WORD])), s[WORD..], st, true)
         case None => None
         case Some(x) => Some(Parsed(List(x.value), x.store, x.rest)))
    case _ =>
      (match GetRecord(s)
       case None => None
       case Some(got) => ParsePointer(types, k, got.record, got.rest, st, moved))
  }

  function Paired(a: Value, y: Option<Parsed>): Option<Parsed> {
    match y
    case None => None
    case Some(b) => Some(Parsed(Pair(a, b.value), b.store, b.rest))
  }

  // A pointer, once its record is read.
  function ParsePointer(types: map<nat, Type>, k: Kind, record: Record, rest: seq<byte>, st: Store,
                        moved: bool): (r: Option<Parsed>)
    ensures r.Some? ==> |r.value.rest| <= |rest|
    decreases |rest| + 1, 0, 0, 0
  {
    match record
    case Ignored => Some(Parsed(Null, st, rest))
    case Reference(id) => Some(Parsed(if id in st.instances then To(id) else Null, st, rest))
    case Deferral(id, _) =>
      if !IsBlock(types, k) then None
      else Some(Parsed(if moved then Lost else Slot(id), st.(deferred := st.deferred + {id}), rest))
    case Instance(id, tag) =>
      var ty := Target(k, tag);
      if ty !in types || (k == PolyPtr && id in st.instances) then None
      else Adopted(id, k == PolyPtr, ty,
        Parse(types, types[ty].layout, rest, if k == PolyPtr then Known(st, id) else st, false))
  }

  // A new object, once its body is read.
  function Adopted(id: nat, known: bool, ty: nat, x: Option<Parsed>): Option<Parsed> {
    match x
    case None => None
    case Some(p) =>
      if !known && id in p.store.instances then None
      else Some(Parsed(To(id), Filled(Known(p.store, id), id, Obj(ty, p.value)), p.rest))
  }

  // The type of the object that follows.
  function Target(k: Kind, tag: nat): nat {
    if k.PlainPtr? then k.ty else tag
  }

  predicate IsBlock(types: map<nat, Type>, k: Kind) {
    k.PlainPtr? && k.ty in types && types[k.ty].family == Block
  }

  function Known(st: Store, id: nat): Store {
    st.(instances := st.instances + {id})
  }

  function Filled(st: Store, id: nat, x: Obj): Store {
    st.(heap := st.heap[id := x])
  }

  const EMPTY_STORE := Store(map[], {}, {})

  // ---------------------------------------------------------------- what comes back

  // The value as it is read back, inside the objects `open` that cannot be found yet.
  function Image(w: World, v: Value, ids: Numbering, open: set<nat>, moved: bool): Value {
    match v
    case Pair(a, b) => Pair(Image(w, a, ids, open, moved), Image(w, b, ids, open, moved))
    case List(items) => List(Image(w, items, ids, open, true))
    case To(o) =>
      if o !in ids then Null
      else if Deferred(w, o) then (if moved then Lost else Slot(ids[o]))
      else if o in open then Null
      else To(ids[o])
    case _ => v
  }

  // Inside object o.
  function Inside(w: World, open: set<nat>, o: nat): set<nat> {
    if FamilyOf(w, o) == Poly then open else open + {o}
  }

  // The store in which the body of a new object is read.
  function Enter(w: World, o: nat, id: nat, st: Store): Store {
    if FamilyOf(w, o) == Poly then Known(st, id) else st
  }

  // The store after a value is read back, with all objects printed along with it.
  function After(w: World, v: Value, seen: Numbering, ids: Numbering, open: set<nat>, st: Store): Store
    decreases Unseen(w, seen), v, 1
  {
    match v
    case Pair(a, b) =>
      UnseenShrinks(w, seen, Emit(w, a, seen).seen);
      After(w, b, Emit(w, a, seen).seen, ids, open, After(w, a, seen, ids, open, st))
    case List(items) => After(w, items, seen, ids, open, st)
    case To(o) =>
      if o in seen then Noted(w, o, seen[o], st)
      else if o !in w.heap then st
      else if Deferred(w, o) then Noted(w, o, |seen| + 1, st)
      else AfterObject(w, o, seen, ids, open, st)
    case _ => st
  }

  // After the record of an object that does not follow.
  function Noted(w: World, o: nat, id: nat, st: Store): Store {
    if Deferred(w, o) then st.(deferred := st.deferred + {id}) else st
  }

  function AfterObject(w: World, o: nat, seen: Numbering, ids: Numbering, open: set<nat>, st: Store): Store
    requires o in w.heap && o !in seen
    decreases Unseen(w, seen), To(o), 0
  {
    var id, body := |seen| + 1, w.heap[o].body;
    MetShrinks(w, seen, o);
    Filled(Known(After(w, body, Met(seen, o), ids, Inside(w, open, o), Enter(w, o, id, st)), id), id,
           Obj(w.heap[o].ty, Image(w, body, ids, Inside(w, open, o), false)))
  }

  // The store while the objects `seen` have been met and `open` are being read.
  ghost predicate Reading(w: World, st: Store, seen: Numbering, open: set<nat>) {
    && (forall o {:trigger seen[o]} :: o in seen ==>
          (seen[o] in st.instances <==> !Deferred(w, o) && o !in open) && (seen[o] in st.deferred <==> Deferred(w, o)))
    && st.instances <= seen.Values && st.deferred <= seen.Values
  }

  // ---------------------------------------------------------------- the store keeps track

  lemma Entering(w: World, o: nat, seen: Numbering, open: set<nat>, st: Store)
    requires o !in seen && !Deferred(w, o) && Ranked(seen) && Reading(w, st, seen, open) && open <= seen.Keys
    ensures Reading(w, Enter(w, o, |seen| + 1, st), Met(seen, o), Inside(w, open, o))
    ensures Ranked(Met(seen, o)) && Inside(w, open, o) <= Met(seen, o).Keys
  {
    MetRanked(seen, o);
  }

  lemma Leaving(w: World, o: nat, seen: Numbering, open: set<nat>, st: Store, x: Obj)
    requires o in seen && o !in open && !Deferred(w, o) && Ranked(seen) && Reading(w, st, seen, Inside(w, open, o))
    ensures Reading(w, Filled(Known(st, seen[o]), seen[o], x), seen, open)
    ensures FamilyOf(w, o) != Poly ==> seen[o] !in st.instances
  {
  }

  lemma NotingAgain(w: World, o: nat, seen: Numbering, open: set<nat>, st: Store)
    requires o in seen && Ranked(seen) && Reading(w, st, seen, open)
    ensures Reading(w, Noted(w, o, seen[o], st), seen, open)
  {
  }

  lemma NotingNew(w: World, o: nat, seen: Numbering, open: set<nat>, st: Store)
    requires o !in seen && Deferred(w, o) && Ranked(seen) && Reading(w, st, seen, open)
    ensures Reading(w, Noted(w, o, |seen| + 1, st), Met(seen, o), open)
  {
    var now, st1 := Met(seen, o), Noted(w, o, |seen| + 1, st);
    MetValues(seen, o);
    assert st1.instances <= now.Values && st1.deferred <= now.Values;
    forall p | p in now
      ensures (now[p] in st1.instances <==> !Deferred(w, p) && p !in open)
        && (now[p] in st1.deferred <==> Deferred(w, p))
    {
      if p != o {
        assert now[p] == seen[p] <= |seen|;
      } else {
        FreshNumber(seen, |seen| + 1);
      }
    }
  }

  lemma FreshNumber(seen: Numbering, id: nat)
    requires Ranked(seen) && id > |seen|
    ensures id !in seen.Values
  {
  }

  // The store when the body of a new object has just been read.
  function AfterBody(w: World, o: nat, seen: Numbering, ids: Numbering, open: set<nat>, st: Store): Store
    requires o in w.heap
  {
    After(w, w.heap[o].body, Met(seen, o), ids, Inside(w, open, o), Enter(w, o, |seen| + 1, st))
  }

  lemma NumberKept(w: World, o: nat, seen: Numbering)
    requires o in w.heap && o !in seen && Ranked(seen)
    ensures var e := Emit(w, w.heap[o].body, Met(seen, o)).seen; o in e && e[o] == |seen| + 1 && Ranked(e)
  {
    var in1 := Met(seen, o);
    MetRanked(seen, o);
    EmitRanks(w, w.heap[o].body, in1);
    assert in1[o] == |seen| + 1;
  }

  lemma AfterObjectIs(w: World, o: nat, seen: Numbering, ids: Numbering, open: set<nat>, st: Store)
    requires o in w.heap && o !in seen && !Deferred(w, o)
    ensures AfterObject(w, o, seen, ids, open, st)
      == Filled(Known(AfterBody(w, o, seen, ids, open, st), |seen| + 1), |seen| + 1,
      Obj(w.heap[o].ty, Image(w, w.heap[o].body, ids, Inside(w, open, o), false)))
    ensures Emit(w, To(o), seen).seen == Emit(w, w.heap[o].body, Met(seen, o)).seen
  {
    EmitObject(w, o, seen);
  }

  lemma EntersAndLeaves(w: World, o: nat, seen: Numbering, ids: Numbering, open: set<nat>, st: Store)
    requires o in w.heap && o !in seen && !Deferred(w, o) && Ranked(seen) && open <= seen.Keys
    requires Reading(w, AfterBody(w, o, seen, ids, open, st), Emit(w, w.heap[o].body, Met(seen, o)).seen,
      Inside(w, open, o))
    ensures Reading(w, AfterObject(w, o, seen, ids, open, st), Emit(w, To(o), seen).seen, open)
    ensures FamilyOf(w, o) != Poly ==> |seen| + 1 !in AfterBody(w, o, seen, ids, open, st).instances
  {
    NumberKept(w, o, seen);
    AfterObjectIs(w, o, seen, ids, open, st);
    Leaving(w, o, Emit(w, To(o), seen).seen, open, AfterBody(w, o, seen, ids, open, st),
            Obj(w.heap[o].ty, Image(w, w.heap[o].body, ids, Inside(w, open, o), false)));
  }

  lemma ObjectTracks(w: World, o: nat, seen: Numbering, ids: Numbering, open: set<nat>, st: Store)
    requires o in w.heap && o !in seen && !Deferred(w, o) && Ranked(seen) && open <= seen.Keys
    requires Reading(w, AfterBody(w, o, seen, ids, open, st), Emit(w, w.heap[o].body, Met(seen, o)).seen,
      Inside(w, open, o))
    ensures Reading(w, After(w, To(o), seen, ids, open, st), Emit(w, To(o), seen).seen, open)
  {
    EntersAndLeaves(w, o, seen, ids, open, st);
  }

  lemma PointerTracks(w: World, o: nat, seen: Numbering, ids: Numbering, open: set<nat>, st: Store)
    requires Ranked(seen) && Reading(w, st, seen, open) && (o in seen || (o in w.heap && Deferred(w, o)))
    ensures Reading(w, After(w, To(o), seen, ids, open, st), Emit(w, To(o), seen).seen, open)
  {
    if o in seen {
      NotingAgain(w, o, seen, open, st);
    } else {
      NotingNew(w, o, seen, open, st);
    }
  }

  /** Throughout, references can find exactly the objects that are met, not deferred and not being
      read; pointers wait exactly for the deferred blocks that are met. */
  lemma {:induction false} KeepsTrack(w: World, v: Value, seen: Numbering, ids: Numbering, open: set<nat>, st: Store)
    requires Ranked(seen) && Reading(w, st, seen, open) && open <= seen.Keys
    ensures Reading(w, After(w, v, seen, ids, open, st), Emit(w, v, seen).seen, open)
    decreases Unseen(w, seen), v
  {
    match v
    case Pair(a, b) =>
      var x := Emit(w, a, seen).seen;
      assert Ranked(x) && Unseen(w, x) <= Unseen(w, seen) by {
        EmitRanks(w, a, seen);
        UnseenShrinks(w, seen, x);
      }
      KeepsTrack(w, a, seen, ids, open, st);
      KeepsTrack(w, b, x, ids, open, After(w, a, seen, ids, open, st));
    case List(items) =>
      KeepsTrack(w, items, seen, ids, open, st);
    case To(o) =>
      if o in seen || (o in w.heap && Deferred(w, o)) {
        PointerTracks(w, o, seen, ids, open, st);
      } else if o in w.heap {
        MetShrinks(w, seen, o);
        Entering(w, o, seen, open, st);
        KeepsTrack(w, w.heap[o].body, Met(seen, o), ids, Inside(w, open, o), Enter(w, o, |seen| + 1, st));
        ObjectTracks(w, o, seen, ids, open, st);
      }
    case _ =>
  }

  // ---------------------------------------------------------------- reading what was printed

  // Reading v back, in front of `rest`, gives its image, and the store with the objects printed along.
  predicate ComesBack(w: World, k: Kind, v: Value, seen: Numbering, ids: Numbering, open: set<nat>, moved: bool,
                      st: Store, rest: seq<byte>) {
    Parse(w.types, k, Emit(w, v, seen).bytes + rest, st, moved)
      == Some(Parsed(Image(w, v, ids, open, moved), After(w, v, seen, ids, open, st), rest))
  }

  lemma LeafComesBack(w: World, k: Kind, v: Value, seen: Numbering, ids: Numbering, open: set<nat>, moved: bool,
                      st: Store, rest: seq<byte>)
    requires WellTyped(w, k, v) && (v.Data? || v.Unit? || v.Null?)
    ensures ComesBack(w, k, v, seen, ids, open, moved, st, rest)
  {
    match v
    case Data(b) =>
      assert (b + rest)[..|b|] == b && (b + rest)[|b|..] == rest;
    case Unit =>
      assert [] + rest == rest;
    case Null =>
      RecordRoundTrip(Ignored, rest);
  }

  function First(k: Kind): Kind {
    match k
    case Both(a, _) => a
    case Chain(e, _) => e
    case _ => Nothing
  }

  function Second(k: Kind): Kind {
    match k
    case Both(_, b) => b
    case Chain(e, n) => if n > 0 then Chain(e, n - 1) else Nothing
    case _ => Nothing
  }

  lemma PairTyped(w: World, k: Kind, a: Value, b: Value)
    requires WellTyped(w, k, Pair(a, b))
    ensures WellTyped(w, First(k), a) && WellTyped(w, Second(k), b) && (k.Both? || (k.Chain? && k.n > 0))
  {
  }

  lemma ParsePair(types: map<nat, Type>, k: Kind, x: seq<byte>, y: seq<byte>, rest: seq<byte>, st: Store, moved: bool,
                  p: Parsed, q: Parsed)
    requires k.Both? || (k.Chain? && k.n > 0)
    requires Parse(types, First(k), x + (y + rest), st, moved) == Some(p) && p.rest == y + rest
    requires Parse(types, Second(k), y + rest, p.store, moved) == Some(q)
    ensures Parse(types, k, x + y + rest, st, moved) == Some(Parsed(Pair(p.value, q.value), q.store, q.rest))
  {
    assert x + y + rest == x + (y + rest);
  }

  lemma ParseList(types: map<nat, Type>, e: Kind, n: nat, x: seq<byte>, rest: seq<byte>, st: Store, moved: bool,
                  p: Parsed)
    requires Fits(n) && Parse(types, Chain(e, n), x + rest, st, true) == Some(p)
    ensures Parse(types, ListOf(e), Word(n) + x + rest, st, moved) == Some(Parsed(List(p.value), p.store, p.rest))
  {
    assert Word(n) + x + rest == Word(n) + (x + rest);
    ReadWord(n, x + rest);
  }

  predicate IsPointer(k: Kind) {
    k.PolyPtr? || k.PlainPtr?
  }

  lemma ParseRecord(types: map<nat, Type>, k: Kind, r: Record, rest: seq<byte>, st: Store, moved: bool)
    requires IsPointer(k) && RecordFits(r)
    ensures Parse(types, k, PutRecord(r) + rest, st, moved) == ParsePointer(types, k, r, rest, st, moved)
  {
    RecordRoundTrip(r, rest);
  }

  lemma PointerComesBack(w: World, k: Kind, o: nat, seen: Numbering, ids: Numbering, open: set<nat>, moved: bool,
                         st: Store, rest: seq<byte>)
    requires WorldOk(w) && WellTyped(w, k, To(o)) && (o in seen || Deferred(w, o))
    requires Ranked(seen) && seen.Keys <= w.heap.Keys && Reading(w, st, seen, open)
    requires Submap(Emit(w, To(o), seen).seen, ids)
    ensures ComesBack(w, k, To(o), seen, ids, open, moved, st, rest)
  {
    var now := Emit(w, To(o), seen).seen;
    NumbersFit(w, seen);
    assert ObjOk(w, o);
    assert ids[o] == now[o];
    assert o in seen ==> Fits(seen[o]);
    ParseRecord(w.types, k, Again(w, o, now[o]), rest, st, moved);
  }

  lemma ParseObject(types: map<nat, Type>, k: Kind, ty: nat, id: nat, tag: nat, x: seq<byte>, rest: seq<byte>,
                    st: Store, moved: bool, p: Parsed)
    requires Fits(id) && Fits(tag) && ty in types
    requires ((k == PolyPtr && tag == ty && id !in st.instances) || k == PlainPtr(ty))
    requires Parse(types, types[ty].layout, x + rest, if k == PolyPtr then Known(st, id) else st, false) == Some(p)
    requires k != PolyPtr ==> id !in p.store.instances
    ensures Parse(types, k, PutRecord(Instance(id, tag)) + x + rest, st, moved)
      == Some(Parsed(To(id), Filled(Known(p.store, id), id, Obj(ty, p.value)), p.rest))
  {
    assert PutRecord(Instance(id, tag)) + x + rest == PutRecord(Instance(id, tag)) + (x + rest);
    ParseRecord(types, k, Instance(id, tag), x + rest, st, moved);
  }

  lemma ObjectComesBack(w: World, k: Kind, o: nat, seen: Numbering, ids: Numbering, open: set<nat>, moved: bool,
                        st: Store, rest: seq<byte>)
    requires WorldOk(w) && WellTyped(w, k, To(o)) && o !in seen && !Deferred(w, o) && open <= seen.Keys
    requires Fits(|seen| + 1)
    requires Ranked(seen) && Reading(w, st, seen, open) && o in ids && ids[o] == |seen| + 1
    requires Reading(w, AfterBody(w, o, seen, ids, open, st), Emit(w, w.heap[o].body, Met(seen, o)).seen,
      Inside(w, open, o))
    requires ComesBack(w, w.types[w.heap[o].ty].layout, w.heap[o].body, Met(seen, o), ids, Inside(w, open, o), false,
      Enter(w, o, |seen| + 1, st), rest)
    ensures ComesBack(w, k, To(o), seen, ids, open, moved, st, rest)
  {
    assert ObjOk(w, o);
    var id, ty, body, open1 := |seen| + 1, w.heap[o].ty, w.heap[o].body, Inside(w, open, o);
    var p := Parsed(Image(w, body, ids, open1, false), After(w, body, Met(seen, o), ids, open1, Enter(w, o, id, st)),
      rest);
    EntersAndLeaves(w, o, seen, ids, open, st);
    ParseObject(w.types, k, ty, id, Tag(w, o), Emit(w, body, Met(seen, o)).bytes, rest, st, moved, p);
  }

  lemma PairComesBack(w: World, k: Kind, a: Value, b: Value, seen: Numbering, ids: Numbering, open: set<nat>,
                      moved: bool, st: Store, rest: seq<byte>)
    requires k.Both? || (k.Chain? && k.n > 0)
    requires ComesBack(w, First(k), a, seen, ids, open, moved, st, Emit(w, b, Emit(w, a, seen).seen).bytes + rest)
    requires ComesBack(w, Second(k), b, Emit(w, a, seen).seen, ids, open, moved, After(w, a, seen, ids, open, st), rest)
    ensures ComesBack(w, k, Pair(a, b), seen, ids, open, moved, st, rest)
  {
    var x := Emit(w, a, seen);
    var y := Emit(w, b, x.seen);
    var p := Parsed(Image(w, a, ids, open, moved), After(w, a, seen, ids, open, st), y.bytes + rest);
    var q := Parsed(Image(w, b, ids, open, moved), After(w, b, x.seen, ids, open, p.store), rest);
    ParsePair(w.types, k, x.bytes, y.bytes, rest, st, moved, p, q);
  }

  lemma ListComesBack(w: World, k: Kind, items: Value, seen: Numbering, ids: Numbering, open: set<nat>, moved: bool,
                      st: Store, rest: seq<byte>)
    requires k.ListOf? && Fits(Length(items))
    requires ComesBack(w, Chain(k.elem, Length(items)), items, seen, ids, open, true, st, rest)
    ensures ComesBack(w, k, List(items), seen, ids, open, moved, st, rest)
  {
    var p := Parsed(Image(w, items, ids, open, true), After(w, items, seen, ids, open, st), rest);
    ParseList(w.types, k.elem, Length(items), Emit(w, items, seen).bytes, rest, st, moved, p);
  }

  /** What comes back: reading a printed value always succeeds, leaves what follows it, and yields
      the image of the value and of each object printed with it. */
  lemma {:induction false} ReadBack(w: World, k: Kind, v: Value, seen: Numbering, ids: Numbering, open: set<nat>,
                                    moved: bool, st: Store, rest: seq<byte>)
    requires WorldOk(w) && WellTyped(w, k, v)
    requires Ranked(seen) && seen.Keys <= w.heap.Keys && open <= seen.Keys && Reading(w, st, seen, open)
    requires Submap(Emit(w, v, seen).seen, ids)
    ensures ComesBack(w, k, v, seen, ids, open, moved, st, rest)
    decreases Unseen(w, seen), v, 1
  {
    match v
    case Pair(a, b) =>
      ReadPair(w, k, a, b, seen, ids, open, moved, st, rest);
    case List(items) =>
      ReadBack(w, Chain(k.elem, Length(items)), items, seen, ids, open, true, st, rest);
      ListComesBack(w, k, items, seen, ids, open, moved, st, rest);
    case To(o) =>
      if o in seen || Deferred(w, o) {
        PointerComesBack(w, k, o, seen, ids, open, moved, st, rest);
      } else {
        ReadObject(w, k, o, seen, ids, open, moved, st, rest);
      }
    case _ =>
      LeafComesBack(w, k, v, seen, ids, open, moved, st, rest);
  }

  lemma {:induction false} ReadPair(w: World, k: Kind, a: Value, b: Value, seen: Numbering, ids: Numbering,
                                    open: set<nat>, moved: bool, st: Store, rest: seq<byte>)
    requires WorldOk(w) && WellTyped(w, k, Pair(a, b))
    requires Ranked(seen) && seen.Keys <= w.heap.Keys && open <= seen.Keys && Reading(w, st, seen, open)
    requires Submap(Emit(w, Pair(a, b), seen).seen, ids)
    ensures ComesBack(w, k, Pair(a, b), seen, ids, open, moved, st, rest)
    decreases Unseen(w, seen), Pair(a, b), 0
  {
    var x := Emit(w, a, seen);
    var y := Emit(w, b, x.seen);
    PairTyped(w, k, a, b);
    PairRanks(w, a, b, seen, ids);
    assert x.seen.Keys <= w.heap.Keys by {
      EmitRanks(w, a, seen);
    }
    KeepsTrack(w, a, seen, ids, open, st);
    ReadBack(w, First(k), a, seen, ids, open, moved, st, y.bytes + rest);
    ReadBack(w, Second(k), b, x.seen, ids, open, moved, After(w, a, seen, ids, open, st), rest);
    PairComesBack(w, k, a, b, seen, ids, open, moved, st, rest);
  }

  lemma BodyTracks(w: World, o: nat, seen: Numbering, ids: Numbering, open: set<nat>, st: Store)
    requires o in w.heap && o !in seen && Ranked(Met(seen, o)) && Inside(w, open, o) <= Met(seen, o).Keys
    requires Reading(w, Enter(w, o, |seen| + 1, st), Met(seen, o), Inside(w, open, o))
    ensures Reading(w, AfterBody(w, o, seen, ids, open, st), Emit(w, w.heap[o].body, Met(seen, o)).seen,
      Inside(w, open, o))
  {
    KeepsTrack(w, w.heap[o].body, Met(seen, o), ids, Inside(w, open, o), Enter(w, o, |seen| + 1, st));
  }

  lemma ObjectReady(w: World, o: nat, seen: Numbering, ids: Numbering, open: set<nat>, st: Store)
    requires o in w.heap && o !in seen && !Deferred(w, o)
    requires Ranked(seen) && seen.Keys <= w.heap.Keys && open <= seen.Keys && Reading(w, st, seen, open)
    ensures Ranked(Met(seen, o)) && Met(seen, o).Keys <= w.heap.Keys && Inside(w, open, o) <= Met(seen, o).Keys
    ensures Reading(w, Enter(w, o, |seen| + 1, st), Met(seen, o), Inside(w, open, o))
    ensures Reading(w, AfterBody(w, o, seen, ids, open, st), Emit(w, w.heap[o].body, Met(seen, o)).seen,
      Inside(w, open, o))
  {
    Entering(w, o, seen, open, st);
    BodyTracks(w, o, seen, ids, open, st);
  }

  lemma NumberOf(w: World, o: nat, seen: Numbering, ids: Numbering)
    requires o in w.heap && o !in seen && !Deferred(w, o) && Ranked(seen) && Submap(Emit(w, To(o), seen).seen, ids)
    ensures o in ids && ids[o] == |seen| + 1 && Submap(Emit(w, w.heap[o].body, Met(seen, o)).seen, ids)
  {
    NumberKept(w, o, seen);
    EmitObject(w, o, seen);
  }

  lemma {:induction false} ReadObject(w: World, k: Kind, o: nat, seen: Numbering, ids: Numbering, open: set<nat>,
                                      moved: bool, st: Store, rest: seq<byte>)
    requires WorldOk(w) && WellTyped(w, k, To(o)) && o !in seen && !Deferred(w, o)
    requires Ranked(seen) && seen.Keys <= w.heap.Keys && open <= seen.Keys && Reading(w, st, seen, open)
    requires Submap(Emit(w, To(o), seen).seen, ids)
    ensures ComesBack(w, k, To(o), seen, ids, open, moved, st, rest)
    decreases Unseen(w, seen), To(o), 0
  {
    assert Fits(|seen| + 1) by {
      NumbersFit(w, seen);
    }
    NumberOf(w, o, seen, ids);
    MetShrinks(w, seen, o);
    ObjectReady(w, o, seen, ids, open, st);
    assert ObjOk(w, o);
    ReadBack(w, w.types[w.heap[o].ty].layout, w.heap[o].body, Met(seen, o), ids, Inside(w, open, o), false,
      Enter(w, o, |seen| + 1, st), rest);
    ObjectComesBack(w, k, o, seen, ids, open, moved, st, rest);
  }
}
