/** Object graphs and their printed form.

    A value is made of plain data, tuples, lists and shared pointers; a heap maps object ids to a
    type and a value. Printing visits each object once: the first pointer to it is printed with the
    object, every later one as a back-reference. Large blocks of data are left out of the text when
    they can be deferred, and travel on their own. */
module Graph {
  import opened Common

  type byte = b: int | 0 <= b < 256

  // ---------------------------------------------------------------- machine words

  function Power(k: nat): nat {
    if k == 0 then 1 else 256 * Power(k - 1)
  }

  // Little-endian; what does not fit is cut off.
  function Bytes(n: nat, k: nat): (r: seq<byte>)
    ensures |r| == k
    decreases k, n
  {
    if k == 0 then [] else [n % 256] + Bytes(n / 256, k - 1)
  }

  function Number(s: seq<byte>): nat {
    if s == [] then 0 else s[0] + 256 * Number(s[1..])
  }

  const WORD: nat := 8

  function Word(n: nat): (r: seq<byte>)
    ensures |r| == WORD
  {
    Bytes(n, WORD)
  }

  predicate Fits(n: nat) {
    n < 0x1_0000_0000_0000_0000
  }

  lemma {:induction false} NumberOfBytes(n: nat, k: nat)
    requires n < Power(k)
    ensures Number(Bytes(n, k)) == n
  {
    if k > 0 {
      NumberOfBytes(n / 256, k - 1);
      assert Bytes(n, k)[1..] == Bytes(n / 256, k - 1);
    }
  }

  lemma PowerOfWord()
    ensures Power(WORD) == 0x1_0000_0000_0000_0000
  {
    assert Power(2) == 65536;
    assert Power(4) == 256 * (256 * Power(2)) == 0x1_0000_0000;
    assert Power(6) == 256 * (256 * Power(4)) == 0x1_0000_0000_0000;
    assert Power(8) == 256 * (256 * Power(6));
  }

  lemma WordRoundTrip(n: nat)
    requires Fits(n)
    ensures Number(Word(n)) == n
  {
    PowerOfWord();
    NumberOfBytes(n, WORD);
  }

  lemma ReadWord(n: nat, rest: seq<byte>)
    requires Fits(n)
    ensures |Word(n) + rest| >= WORD && Number((Word(n) + rest)[..WORD]) == n && (Word(n) + rest)[WORD..] == rest
  {
    WordRoundTrip(n);
    assert (Word(n) + rest)[..WORD] == Word(n);
  }

  // ---------------------------------------------------------------- pointer records

  // What stands for a pointer: nothing, a block that travels on its own (with its size), an object
  // that was printed before, or an object that follows (with its type).
  datatype Record = Ignored | Deferral(id: nat, size: nat) | Reference(id: nat) | Instance(id: nat, ty: nat)

  const IGNORED: nat := 1
  const DEFERRED: nat := 2
  const REFERENCE: nat := 3
  const INSTANCE: nat := 4

  function PutRecord(r: Record): seq<byte> {
    match r
    case Ignored => [IGNORED]
    case Deferral(id, size) => [DEFERRED] + Word(id) + Word(size)
    case Reference(id) => [REFERENCE] + Word(id)
    case Instance(id, ty) => [INSTANCE] + Word(id) + Word(ty)
  }

  datatype Got = Got(record: Record, rest: seq<byte>)

  // None where the text ends too early or the kind is unknown.
  function GetRecord(s: seq<byte>): (r: Option<Got>)
    ensures r.Some? ==> |r.value.rest| < |s|
  {
    if |s| == 0 then None
    else if s[0] == IGNORED then Some(Got(Ignored, s[1..]))
    else if |s| < 1 + WORD then None
    else
      var id, rest := Number(s[1..][..WORD]), s[1..][WORD..];
      if s[0] == REFERENCE then Some(Got(Reference(id), rest))
      else if |rest| < WORD then None
      else if s[0] == DEFERRED then Some(Got(Deferral(id, Number(rest[..WORD])), rest[WORD..]))
      else if s[0] == INSTANCE then Some(Got(Instance(id, Number(rest[..WORD])), rest[WORD..]))
      else None
  }

  predicate RecordFits(r: Record) {
    match r
    case Ignored => true
    case Deferral(id, size) => Fits(id) && Fits(size)
    case Reference(id) => Fits(id)
    case Instance(id, ty) => Fits(id) && Fits(ty)
  }

  lemma OneWord(tag: byte, n: nat, rest: seq<byte>)
    requires Fits(n)
    ensures var s := [tag] + Word(n) + rest;
      |s| >= 1 + WORD && s[0] == tag && Number(s[1..][..WORD]) == n && s[1..][WORD..] == rest
  {
    assert ([tag] + Word(n) + rest)[1..] == Word(n) + rest;
    ReadWord(n, rest);
  }

  lemma TwoWords(tag: byte, m: nat, n: nat, rest: seq<byte>)
    requires Fits(m) && Fits(n)
    ensures var s := [tag] + Word(m) + Word(n) + rest;
      && |s| >= 1 + WORD && s[0] == tag && Number(s[1..][..WORD]) == m
      && |s[1..][WORD..]| >= WORD && Number(s[1..][WORD..][..WORD]) == n && s[1..][WORD..][WORD..] == rest
  {
    assert [tag] + Word(m) + Word(n) + rest == [tag] + Word(m) + (Word(n) + rest);
    OneWord(tag, m, Word(n) + rest);
    ReadWord(n, rest);
  }

  /** A record can be read back off the front of anything that follows it. */
  lemma RecordRoundTrip(r: Record, rest: seq<byte>)
    requires RecordFits(r)
    ensures GetRecord(PutRecord(r) + rest) == Some(Got(r, rest))
  {
    match r
    case Ignored =>
      assert (PutRecord(r) + rest)[1..] == rest;
    case Reference(id) =>
      OneWord(REFERENCE, id, rest);
    case Deferral(id, n) =>
      TwoWords(DEFERRED, id, n, rest);
    case Instance(id, n) =>
      TwoWords(INSTANCE, id, n, rest);
  }

  // ---------------------------------------------------------------- values and heaps

  // A list's items are chained with Pair and end in Unit. Slot(k) is a pointer that waits for the
  // deferred block k; Lost is a pointer that was to wait for one, but was moved away meanwhile.
  datatype Value =
    | Data(bytes: seq<byte>)
    | Unit
    | Pair(fst: Value, snd: Value)
    | List(items: Value)
    | Null
    | To(id: nat)
    | Slot(id: nat)
    | Lost

  // What the static type says about a value. Only a polymorphic object names its own type.
  datatype Kind =
    | Raw(n: nat)
    | Nothing
    | Both(fst: Kind, snd: Kind)
    | ListOf(elem: Kind)
    | Chain(elem: Kind, n: nat)
    | PolyPtr
    | PlainPtr(ty: nat)

  // How pointers to objects of a type are handled: Block stands for types that are just bytes.
  datatype Family = Poly | Plain | Block

  datatype Type = Type(family: Family, layout: Kind)

  datatype Obj = Obj(ty: nat, body: Value)

  // `deferrable` says whether large blocks may travel on their own.
  datatype World = World(types: map<nat, Type>, heap: map<nat, Obj>, deferrable: bool)

  function Length(items: Value): nat {
    if items.Pair? then 1 + Length(items.snd) else 0
  }

  // The smallest block that is worth deferring.
  const ZERO_COPY_SIZE: nat := 256 * 1024

  function FamilyOf(w: World, o: nat): Family {
    if o in w.heap && w.heap[o].ty in w.types then w.types[w.heap[o].ty].family else Plain
  }

  function BlockSize(w: World, o: nat): nat {
    if o in w.heap && w.heap[o].body.Data? then |w.heap[o].body.bytes| else 0
  }

  predicate Deferred(w: World, o: nat) {
    w.deferrable && FamilyOf(w, o) == Block && BlockSize(w, o) >= ZERO_COPY_SIZE
  }

  // The type number in the record of an instance.
  function Tag(w: World, o: nat): nat {
    if o in w.heap && FamilyOf(w, o) == Poly then w.heap[o].ty else 0
  }

  predicate WellTyped(w: World, k: Kind, v: Value)
    decreases v
  {
    match v
    case Data(b) => k == Raw(|b|)
    case Unit => k == Nothing || (k.Chain? && k.n == 0)
    case Pair(a, b) =>
      (k.Both? && WellTyped(w, k.fst, a) && WellTyped(w, k.snd, b)) ||
      (k.Chain? && k.n > 0 && WellTyped(w, k.elem, a) && WellTyped(w, Chain(k.elem, k.n - 1), b))
    case List(items) =>
      k.ListOf? && Fits(Length(items)) && WellTyped(w, Chain(k.elem, Length(items)), items)
    case Null => k == PolyPtr || (k.PlainPtr? && k.ty in w.types && w.types[k.ty].family != Poly)
    case To(o) =>
      o in w.heap && w.heap[o].ty in w.types &&
      ((k == PolyPtr && FamilyOf(w, o) == Poly) ||
       (k == PlainPtr(w.heap[o].ty) && FamilyOf(w, o) != Poly))
    case _ => false
  }

  predicate ObjOk(w: World, o: nat)
    requires o in w.heap
  {
    && w.heap[o].ty in w.types && Fits(w.heap[o].ty)
    && WellTyped(w, w.types[w.heap[o].ty].layout, w.heap[o].body)
    && (FamilyOf(w, o) == Block ==> w.heap[o].body.Data? && Fits(BlockSize(w, o)))
  }

  predicate WorldOk(w: World) {
    && Fits(|w.heap|)
    && forall o {:trigger ObjOk(w, o)} :: o in w.heap ==> ObjOk(w, o)
  }

  // ---------------------------------------------------------------- printing

  // The number of each object met so far: 1, 2, 3, ... in the order of first encounter.
  type Numbering = map<nat, nat>

  datatype Emitted = Emitted(bytes: seq<byte>, seen: Numbering)

  function Met(seen: Numbering, o: nat): Numbering {
    seen[o := |seen| + 1]
  }

  function Unseen(w: World, seen: Numbering): nat {
    |w.heap.Keys - seen.Keys|
  }

  lemma UnseenShrinks(w: World, a: Numbering, b: Numbering)
    requires a.Keys <= b.Keys
    ensures Unseen(w, b) <= Unseen(w, a)
  {
    var x, y := w.heap.Keys - a.Keys, w.heap.Keys - b.Keys;
    assert x == y + (x - y);
  }

  lemma MetShrinks(w: World, seen: Numbering, o: nat)
    requires o in w.heap && o !in seen
    ensures Unseen(w, Met(seen, o)) < Unseen(w, seen)
  {
    var x, y := w.heap.Keys - seen.Keys, w.heap.Keys - Met(seen, o).Keys;
    assert x == y + {o};
  }

  /** The printed form of a value, and the numbering afterwards. */
  function Emit(w: World, v: Value, seen: Numbering): (r: Emitted)
    ensures seen.Keys <= r.seen.Keys
    decreases Unseen(w, seen), v
  {
    match v
    case Data(b) => Emitted(b, seen)
    case Pair(a, b) =>
      var x := Emit(w, a, seen);
      UnseenShrinks(w, seen, x.seen);
      var y := Emit(w, b, x.seen);
      Emitted(x.bytes + y.bytes, y.seen)
    case List(items) =>
      var x := Emit(w, items, seen);
      Emitted(Word(Length(items)) + x.bytes, x.seen)
    case Null => Emitted(PutRecord(Ignored), seen)
    case To(o) =>
      if o in seen then Emitted(PutRecord(Again(w, o, seen[o])), seen)
      else if o !in w.heap then Emitted([], seen)
      else if Deferred(w, o) then Emitted(PutRecord(Again(w, o, |seen| + 1)), Met(seen, o))
      else
        MetShrinks(w, seen, o);
        var x := Emit(w, w.heap[o].body, Met(seen, o));
        Emitted(PutRecord(Instance(|seen| + 1, Tag(w, o))) + x.bytes, x.seen)
    case _ => Emitted([], seen)
  }

  // The record of an object that does not follow: a block that is deferred, or an object printed before.
  function Again(w: World, o: nat, id: nat): Record {
    if Deferred(w, o) then Deferral(id, BlockSize(w, o)) else Reference(id)
  }

  lemma EmitObject(w: World, o: nat, seen: Numbering)
    requires o in w.heap && o !in seen && !Deferred(w, o)
    ensures var e := Emit(w, w.heap[o].body, Met(seen, o));
      Emit(w, To(o), seen) == Emitted(PutRecord(Instance(|seen| + 1, Tag(w, o))) + e.bytes, e.seen)
  {
  }

  // ---------------------------------------------------------------- numbering

  ghost predicate Ranked(seen: Numbering) {
    && (forall o {:trigger seen[o]} :: o in seen ==> 1 <= seen[o] <= |seen|)
    && (forall a, b {:trigger seen[a], seen[b]} :: a in seen && b in seen && seen[a] == seen[b] ==> a == b)
  }

  ghost predicate Submap(a: Numbering, b: Numbering) {
    forall o {:trigger a[o]} :: o in a ==> o in b && b[o] == a[o]
  }

  lemma MetValues(seen: Numbering, o: nat)
    requires o !in seen
    ensures Met(seen, o).Values == seen.Values + {|seen| + 1}
  {
    var m := Met(seen, o);
    forall x | x in seen.Values + {|seen| + 1}
      ensures x in m.Values
    {
      if p :| p in seen && seen[p] == x {
        assert m[p] == x;
      } else {
        assert m[o] == x;
      }
    }
  }

  lemma MetRanked(seen: Numbering, o: nat)
    requires Ranked(seen) && o !in seen
    ensures Ranked(Met(seen, o)) && Submap(seen, Met(seen, o)) && |Met(seen, o)| == |seen| + 1
    ensures Met(seen, o).Values == seen.Values + {|seen| + 1}
  {
    assert Met(seen, o).Keys == seen.Keys + {o};
    MetValues(seen, o);
    assert |Met(seen, o).Keys| == |Met(seen, o)| && |seen.Keys| == |seen|;
  }

  /** Numbers are given once, in order, and never change. */
  lemma {:induction false} EmitRanks(w: World, v: Value, seen: Numbering)
    requires Ranked(seen)
    ensures Ranked(Emit(w, v, seen).seen) && Submap(seen, Emit(w, v, seen).seen)
    ensures Emit(w, v, seen).seen.Keys <= seen.Keys + w.heap.Keys
    decreases Unseen(w, seen), v
  {
    match v
    case Pair(a, b) =>
      EmitRanks(w, a, seen);
      UnseenShrinks(w, seen, Emit(w, a, seen).seen);
      EmitRanks(w, b, Emit(w, a, seen).seen);
    case List(items) => EmitRanks(w, items, seen);
    case To(o) =>
      if o !in seen && o in w.heap {
        MetRanked(seen, o);
        if !Deferred(w, o) {
          MetShrinks(w, seen, o);
          EmitRanks(w, w.heap[o].body, Met(seen, o));
        }
      }
    case _ =>
  }

  lemma SubmapOf(a: Numbering, b: Numbering, c: Numbering)
    requires Submap(a, b) && Submap(b, c)
    ensures Submap(a, c)
  {
    forall o | o in a
      ensures o in c && c[o] == a[o]
    {
      assert b[o] == a[o];
    }
  }

  lemma EmitPair(w: World, a: Value, b: Value, seen: Numbering)
    ensures Emit(w, Pair(a, b), seen).seen == Emit(w, b, Emit(w, a, seen).seen).seen
  {
  }

  // Between the two parts of a pair.
  lemma PairRanks(w: World, a: Value, b: Value, seen: Numbering, ids: Numbering)
    requires Ranked(seen) && Submap(Emit(w, Pair(a, b), seen).seen, ids)
    ensures var x := Emit(w, a, seen).seen;
      && Ranked(x) && Submap(x, ids) && Unseen(w, x) <= Unseen(w, seen)
      && Ranked(Emit(w, b, x).seen) && Submap(Emit(w, b, x).seen, ids)
  {
    var x := Emit(w, a, seen).seen;
    EmitRanks(w, a, seen);
    EmitRanks(w, b, x);
    EmitPair(w, a, b, seen);
    SubmapOf(x, Emit(w, b, x).seen, ids);
    UnseenShrinks(w, seen, x);
  }

  /** The numbering only depends on the graph, and so do the bytes: printing uses numbers from 1 to
      the number of objects, so they fit their fields. */
  lemma NumbersFit(w: World, seen: Numbering)
    requires WorldOk(w) && Ranked(seen) && seen.Keys <= w.heap.Keys
    ensures forall o {:trigger seen[o]} :: o in seen ==> Fits(seen[o])
    ensures seen.Keys != w.heap.Keys ==> Fits(|seen| + 1)
  {
    assert |w.heap| == |w.heap.Keys| && |seen| == |seen.Keys|;
    assert w.heap.Keys == seen.Keys + (w.heap.Keys - seen.Keys);
  }

  // ---------------------------------------------------------------- what is printed

  predicate PointsTo(v: Value, o: nat) {
    match v
    case Pair(a, b) => PointsTo(a, o) || PointsTo(b, o)
    case List(items) => PointsTo(items, o)
    case To(p) => p == o
    case _ => false
  }

  /** Everything a value points to is numbered once it is printed, and so is everything that newly
      printed objects point to. */
  lemma {:induction false} EmitCovers(w: World, k: Kind, v: Value, seen: Numbering, x: nat)
    requires WorldOk(w) && WellTyped(w, k, v)
    ensures PointsTo(v, x) ==> x in Emit(w, v, seen).seen
    ensures forall o :: o in Emit(w, v, seen).seen && o !in seen ==>
              o in w.heap && (PointsTo(w.heap[o].body, x) ==> x in Emit(w, v, seen).seen)
    decreases Unseen(w, seen), v
  {
    match v
    case Pair(a, b) =>
      EmitCovers(w, if k.Both? then k.fst else k.elem, a, seen, x);
      UnseenShrinks(w, seen, Emit(w, a, seen).seen);
      EmitCovers(w, if k.Both? then k.snd else Chain(k.elem, k.n - 1), b, Emit(w, a, seen).seen, x);
    case List(items) => EmitCovers(w, Chain(k.elem, Length(items)), items, seen, x);
    case To(o) =>
      if o !in seen {
        assert ObjOk(w, o);
        if !Deferred(w, o) {
          MetShrinks(w, seen, o);
          EmitCovers(w, w.types[w.heap[o].ty].layout, w.heap[o].body, Met(seen, o), x);
        }
      }
    case _ =>
  }

  // A set of objects that is closed under pointers.
  ghost predicate Closed(w: World, all: set<nat>) {
    forall o, x {:trigger PointsTo(w.heap[o].body, x)} :: o in all && o in w.heap && PointsTo(w.heap[o].body, x)
      ==> x in all
  }

  /** Nothing else is numbered: what is printed lies within every closed set that holds what the
      value points to. */
  lemma {:induction false} EmitWithin(w: World, v: Value, seen: Numbering, all: set<nat>)
    requires Closed(w, all) && seen.Keys <= all && forall x :: PointsTo(v, x) ==> x in all
    ensures Emit(w, v, seen).seen.Keys <= all
    decreases Unseen(w, seen), v
  {
    match v
    case Pair(a, b) =>
      assert forall x :: PointsTo(a, x) ==> PointsTo(v, x);
      assert forall x :: PointsTo(b, x) ==> PointsTo(v, x);
      EmitWithin(w, a, seen, all);
      UnseenShrinks(w, seen, Emit(w, a, seen).seen);
      EmitWithin(w, b, Emit(w, a, seen).seen, all);
    case List(items) =>
      assert forall x :: PointsTo(items, x) ==> PointsTo(v, x);
      EmitWithin(w, items, seen, all);
    case To(o) =>
      assert PointsTo(v, o);
      if o !in seen && o in w.heap && !Deferred(w, o) {
        MetShrinks(w, seen, o);
        EmitWithin(w, w.heap[o].body, Met(seen, o), all);
      }
    case _ =>
  }

  /** A printed graph is exactly what can be reached from the value. */
  lemma PrintsWhatIsReached(w: World, k: Kind, v: Value, all: set<nat>)
    requires WorldOk(w) && WellTyped(w, k, v) && Closed(w, all) && forall x :: PointsTo(v, x) ==> x in all
    ensures var got := Emit(w, v, map[]).seen.Keys;
      got <= all && Closed(w, got) && forall x :: PointsTo(v, x) ==> x in got
  {
    EmitWithin(w, v, map[], all);
    var got := Emit(w, v, map[]).seen.Keys;
    forall o, x | o in got && o in w.heap && PointsTo(w.heap[o].body, x)
      ensures x in got
    {
      EmitCovers(w, k, v, map[], x);
    }
    forall x | PointsTo(v, x)
      ensures x in got
    {
      EmitCovers(w, k, v, map[], x);
    }
  }
}
