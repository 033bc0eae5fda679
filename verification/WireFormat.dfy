/** What is found in the text and beside it, in terms of the objects alone: the bytes of words and records,
    the record of each pointer, which blocks travel apart, and under which sizes they are announced. */
module WireFormat {
  import opened Common
  import opened Graph
  import opened Parsing
  import opened RoundTrip
  import opened Serdes
  import opened ZeroCopy
  import opened DeferredBlocks

  // ---------------------------------------------------------------- bytes

  // Digit number i of a number, to the base of 256.
  function Digit(n: nat, i: nat): byte {
    if i == 0 then n % 256 else Digit(n / 256, i - 1)
  }

  lemma {:induction false} WordDigit(n: nat, k: nat, i: nat)
    requires i < k
    ensures Bytes(n, k)[i] == Digit(n, i)
    decreases k
  {
    if i > 0 {
      WordDigit(n / 256, k - 1, i - 1);
    }
  }

  // What follows the kind.
  function Words(r: Record): seq<nat> {
    match r
    case Ignored => []
    case Deferral(id, size) => [id, size]
    case Reference(id) => [id]
    case Instance(id, ty) => [id, ty]
  }

  lemma SecondWord(a: seq<byte>, b: seq<byte>, c: seq<byte>, i: nat)
    requires |a| == 1 && |b| == 8 && i < 8 <= |c|
    ensures (a + b + c)[1 + i] == b[i] && (a + b + c)[9 + i] == c[i]
  {
  }

  /** A record takes one byte for its kind, 1 to 4, and eight for each of its words, the lowest digit first. */
  lemma RecordLayout(r: Record, w: nat, i: nat)
    requires w < |Words(r)| && i < 8
    ensures |PutRecord(r)| == 1 + 8 * |Words(r)|
    ensures PutRecord(r)[0] == match r case Ignored => 1 case Deferral(_, _) => 2 case Reference(_) => 3 case _ => 4
    ensures PutRecord(r)[1 + 8 * w + i] == Digit(Words(r)[w], i)
  {
    WordDigit(Words(r)[w], 8, i);
    match r
    case Reference(id) => assert w == 0;
    case Deferral(id, size) =>
      assert w == 0 || w == 1;
      SecondWord([DEFERRED], Word(id), Word(size), i);
    case Instance(id, ty) =>
      assert w == 0 || w == 1;
      SecondWord([INSTANCE], Word(id), Word(ty), i);
  }

  // ---------------------------------------------------------------- records

  // A block of at least 256 KiB, in a message that may leave blocks out.
  ghost predicate TravelsApart(w: World, o: nat) {
    && w.deferrable && o in w.heap && w.heap[o].ty in w.types && w.types[w.heap[o].ty].family == Block
    && w.heap[o].body.Data? && |w.heap[o].body.bytes| >= 0x4_0000
  }

  lemma ApartIffDeferred(w: World, o: nat)
    requires WorldOk(w) && o in w.heap
    ensures TravelsApart(w, o) <==> Deferred(w, o)
  {
    assert ObjOk(w, o);
  }

  /** What is found where a pointer was written: for a block that travels apart its number and its length; for
      an object that was written before its number; otherwise the next number, with its type if the object is
      polymorphic and 0 if it is not. */
  lemma RecordOfPointer(w: World, k: Kind, o: nat, seen: Numbering, rest: seq<byte>)
    requires WorldOk(w) && WellTyped(w, k, To(o)) && Ranked(seen) && seen.Keys <= w.heap.Keys
    ensures var id := if o in seen then seen[o] else |seen| + 1;
      var got := GetRecord(Emit(w, To(o), seen).bytes + rest);
      got.Some? && got.value.record
                   == if TravelsApart(w, o) then Deferral(id, |w.heap[o].body.bytes|)
                      else if o in seen then Reference(id)
                      else Instance(id, if w.types[w.heap[o].ty].family == Poly then w.heap[o].ty else 0)
  {
    assert ObjOk(w, o);
    NumbersFit(w, seen);
    ApartIffDeferred(w, o);
    if o in seen {
      assert Fits(seen[o]);
    }
    if o in seen || Deferred(w, o) {
      RecordRoundTrip(Again(w, o, if o in seen then seen[o] else |seen| + 1), rest);
    } else {
      EmitObject(w, o, seen);
      var body := Emit(w, w.heap[o].body, Met(seen, o)).bytes;
      var r := Instance(|seen| + 1, Tag(w, o));
      assert PutRecord(r) + body + rest == PutRecord(r) + (body + rest);
      RecordRoundTrip(r, body + rest);
    }
  }

  // ---------------------------------------------------------------- blocks that travel apart

  /** What packing sets aside are the blocks met that travel apart, and all of them. */
  lemma SetAsideIff(w: World, v: Value, aside: map<nat, nat>, o: nat)
    requires var f := Emit(w, v, map[]).seen; WorldOk(w) && AsideOk(w, aside, f, f)
    requires o in Emit(w, v, map[]).seen
    ensures (exists id :: id in aside && aside[id] == o) <==> TravelsApart(w, o)
    ensures TravelsApart(w, o) ==> var id := Emit(w, v, map[]).seen[o]; id in aside && aside[id] == o
  {
    var f := Emit(w, v, map[]).seen;
    EmitRanks(w, v, map[]);
    ApartIffDeferred(w, o);
    if Deferred(w, o) {
      assert f[o] in aside && aside[f[o]] == o;
    }
  }

  /** A block is announced with the length of the bytes that arrive for it. */
  lemma AnnouncedSize(w: World, v: Value, aside: map<nat, nat>, i: nat)
    requires var f := Emit(w, v, map[]).seen; WorldOk(w) && AsideOk(w, aside, f, f)
    requires i < |AnnouncedBy(w, aside)|
    ensures i < |Blocks(w, aside, ByNumber(aside.Keys))|
    ensures var x, b := AnnouncedBy(w, aside)[i], Blocks(w, aside, ByNumber(aside.Keys))[i];
      x.id in aside && aside[x.id] in w.heap && b == w.heap[aside[x.id]] && b.body.Data? && x.size == |b.body.bytes|
  {
    var f := Emit(w, v, map[]).seen;
    var id := ByNumber(aside.Keys)[i];
    EmitRanks(w, v, map[]);
    assert id in aside && aside[id] in f && Deferred(w, aside[id]);
    assert ObjOk(w, aside[id]);
  }

  // ---------------------------------------------------------------- all other blocks

  // The object is in the store with its content as it was.
  predicate Inline(w: World, o: nat, ids: Numbering, st: Store) {
    o in ids && o in w.heap && ids[o] in st.heap && st.heap[ids[o]] == w.heap[o]
  }

  // The objects that are new in b and hold nothing but bytes are.
  ghost predicate AllInline(w: World, a: Numbering, b: Numbering, ids: Numbering, st: Store) {
    forall o {:trigger Inline(w, o, ids, st)} ::
      o in b && o !in a && o in w.heap && w.heap[o].body.Data? && !Deferred(w, o) ==> Inline(w, o, ids, st)
  }

  lemma InlineLater(w: World, a: Numbering, b: Numbering, ids: Numbering, st: Store, v: Value, open: set<nat>)
    requires Ranked(b) && Submap(b, ids) && AllInline(w, a, b, ids, st)
    ensures AllInline(w, a, b, ids, After(w, v, b, ids, open, st))
  {
    forall o | o in b && o !in a && o in w.heap && w.heap[o].body.Data? && !Deferred(w, o)
      ensures Inline(w, o, ids, After(w, v, b, ids, open, st))
    {
      assert Inline(w, o, ids, st) && ids[o] == b[o];
      AfterKeeps(w, v, b, ids, open, st, b[o]);
    }
  }

  lemma JoinInline(w: World, a: Numbering, b: Numbering, c: Numbering, ids: Numbering, st: Store)
    requires AllInline(w, a, b, ids, st) && AllInline(w, b, c, ids, st)
    ensures AllInline(w, a, c, ids, st)
  {
    forall o | o in c && o !in a && o in w.heap && w.heap[o].body.Data? && !Deferred(w, o)
      ensures Inline(w, o, ids, st)
    {
      assert o in b || o !in b;
    }
  }

  lemma {:induction false} ReadInline(w: World, v: Value, seen: Numbering, ids: Numbering, open: set<nat>, st: Store)
    requires Ranked(seen) && Submap(Emit(w, v, seen).seen, ids)
    ensures AllInline(w, seen, Emit(w, v, seen).seen, ids, After(w, v, seen, ids, open, st))
    decreases Unseen(w, seen), v, 1
  {
    match v
    case Pair(a, b) => PairInline(w, a, b, seen, ids, open, st);
    case List(items) => ReadInline(w, items, seen, ids, open, st);
    case To(o) =>
      if o in w.heap && o !in seen && !Deferred(w, o) {
        BodyInline(w, o, seen, ids, open, st);
        ObjectInline(w, o, seen, ids, open, st);
      }
    case _ =>
  }

  lemma {:induction false} PairInline(w: World, a: Value, b: Value, seen: Numbering, ids: Numbering, open: set<nat>,
                                      st: Store)
    requires Ranked(seen) && Submap(Emit(w, Pair(a, b), seen).seen, ids)
    ensures AllInline(w, seen, Emit(w, Pair(a, b), seen).seen, ids, After(w, Pair(a, b), seen, ids, open, st))
    decreases Unseen(w, seen), Pair(a, b), 0
  {
    var x, s1 := Emit(w, a, seen).seen, After(w, a, seen, ids, open, st);
    PairRanks(w, a, b, seen, ids);
    ReadInline(w, a, seen, ids, open, st);
    ReadInline(w, b, x, ids, open, s1);
    InlineLater(w, seen, x, ids, s1, b, open);
    JoinInline(w, seen, x, Emit(w, b, x).seen, ids, After(w, b, x, ids, open, s1));
  }

  lemma {:induction false} BodyInline(w: World, o: nat, seen: Numbering, ids: Numbering, open: set<nat>, st: Store)
    requires Ranked(seen) && Submap(Emit(w, To(o), seen).seen, ids) && o in w.heap && o !in seen && !Deferred(w, o)
    ensures AllInline(w, Met(seen, o), Emit(w, w.heap[o].body, Met(seen, o)).seen, ids,
                      AfterBody(w, o, seen, ids, open, st))
    decreases Unseen(w, seen), To(o), 0
  {
    MetShrinks(w, seen, o);
    MetRanked(seen, o);
    EmitObject(w, o, seen);
    ReadInline(w, w.heap[o].body, Met(seen, o), ids, Inside(w, open, o), Enter(w, o, |seen| + 1, st));
  }

  lemma ObjectInline(w: World, o: nat, seen: Numbering, ids: Numbering, open: set<nat>, st: Store)
    requires Ranked(seen) && Submap(Emit(w, To(o), seen).seen, ids) && o in w.heap && o !in seen && !Deferred(w, o)
    requires AllInline(w, Met(seen, o), Emit(w, w.heap[o].body, Met(seen, o)).seen, ids,
      AfterBody(w, o, seen, ids, open, st))
    ensures AllInline(w, seen, Emit(w, To(o), seen).seen, ids, After(w, To(o), seen, ids, open, st))
  {
    var e, s1, s2 := Emit(w, To(o), seen).seen, AfterBody(w, o, seen, ids, open, st),
      After(w, To(o), seen, ids, open, st);
    NumberOf(w, o, seen, ids);
    NumberKept(w, o, seen);
    AfterObjectIs(w, o, seen, ids, open, st);
    forall p | p in e && p !in seen && p in w.heap && w.heap[p].body.Data? && !Deferred(w, p)
      ensures Inline(w, p, ids, s2)
    {
      if p != o {
        assert Inline(w, p, ids, s1);
        assert ids[p] == e[p] != e[o];
      }
    }
  }

  /** Every block met that does not travel apart is read back where it was written, byte by byte. */
  lemma OtherBlocksInline(w: World, k: Kind, v: Value, o: nat)
    requires WorldOk(w) && WellTyped(w, k, v) && o in Emit(w, v, map[]).seen && o in w.heap
    requires w.heap[o].body.Data? && !TravelsApart(w, o)
    ensures var p := Parse(w.types, k, Emit(w, v, map[]).bytes, EMPTY_STORE, false);
      var id := Emit(w, v, map[]).seen[o];
      p.Some? && id in p.value.store.heap && p.value.store.heap[id] == w.heap[o] && id !in p.value.store.deferred
  {
    var f := Emit(w, v, map[]).seen;
    ReadAll(w, k, v);
    ApartIffDeferred(w, o);
    ReadInline(w, v, map[], f, {}, EMPTY_STORE);
    assert Inline(w, o, f, After(w, v, map[], f, {}, EMPTY_STORE));
  }
}
