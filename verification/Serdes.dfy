/** The printer with its table of records, which is filled while sizing and handed to the packer. */
module Serdes {
  import opened Graph

  datatype EntryKind = Follows | Printed | Apart

  // The record of an object: its kind, its number, its type (or its size, if it is deferred), and
  // the serializer that used it last.
  datatype Entry = Entry(kind: EntryKind, id: nat, ty: nat, progenitor: nat)

  function Detail(w: World, o: nat): nat {
    if Deferred(w, o) then BlockSize(w, o) else Tag(w, o)
  }

  function RecordOf(e: Entry): Record {
    match e.kind
    case Follows => Instance(e.id, e.ty)
    case Printed => Reference(e.id)
    case Apart => Deferral(e.id, e.ty)
  }

  // The entry of o agrees with the numbering: `all` gives the numbers, `seen` says what `me` has met.
  predicate EntryOk(w: World, e: Entry, o: nat, me: nat, seen: Numbering, all: Numbering) {
    && o in all && e.id == all[o] && e.ty == Detail(w, o)
    && (e.progenitor == me <==> o in seen)
    && (o in seen ==> (e.kind == Apart <==> Deferred(w, o)))
  }

  // The table holds what was met, or all objects from the start.
  ghost predicate KeysOk(records: map<nat, Entry>, seen: Numbering, all: Numbering) {
    seen.Keys <= records.Keys && (records.Keys == seen.Keys || records.Keys == all.Keys)
  }

  ghost predicate TableOk(w: World, records: map<nat, Entry>, me: nat, seen: Numbering, all: Numbering) {
    && (forall o {:trigger records[o]} :: o in records ==> EntryOk(w, records[o], o, me, seen, all))
    && KeysOk(records, seen, all)
  }

  // What is set aside are the deferred blocks met, under their numbers.
  ghost predicate AsideOk(w: World, deferred: map<nat, nat>, seen: Numbering, all: Numbering) {
    && (forall o {:trigger seen[o]} :: o in seen && Deferred(w, o) ==>
          o in all && all[o] in deferred && deferred[all[o]] == o)
    && (forall id {:trigger deferred[id]} :: id in deferred ==>
          deferred[id] in seen && Deferred(w, deferred[id]) && deferred[id] in all && all[deferred[id]] == id)
  }

  // What the printer `me` finds when it meets o.
  function NextEntry(records: map<nat, Entry>, o: nat, ty: nat, me: nat): Entry {
    if o !in records then Entry(Follows, |records| + 1, ty, me)
    else
      var was := records[o];
      var again := if was.kind == Follows then Printed else was.kind;
      was.(progenitor := me, kind := if was.progenitor != me then Follows else again)
  }

  function FinalEntry(w: World, records: map<nat, Entry>, o: nat, me: nat): Entry {
    var e := NextEntry(records, o, Tag(w, o), me);
    if e.kind == Follows && Deferred(w, o) then e.(kind := Apart, ty := BlockSize(w, o)) else e
  }

  class Printer {
    const me: nat
    const sizing: bool
    const deferrable: bool
    var records: map<nat, Entry>
    var deferred: map<nat, nat>
    var buffer: array<byte>
    var current: nat

    constructor (me: nat, sizing: bool, deferrable: bool)
      ensures this.me == me && this.sizing == sizing && this.deferrable == deferrable
      ensures records == map[] && deferred == map[] && current == 0 && buffer.Length == 0 && fresh(buffer)
    {
      this.me, this.sizing, this.deferrable := me, sizing, deferrable;
      records, deferred, current := map[], map[], 0;
      buffer := new byte[0];
    }

    // Take over the records of another printer, which loses them.
    method Acquire(s: Printer)
      requires s != this && records == map[]
      modifies this`records, s`records
      ensures records == old(s.records) && s.records == map[]
    {
      records := s.records;
      s.records := map[];
    }

    method Reset(msg: array<byte>)
      requires current == 0
      modifies this`buffer
      ensures buffer == msg
    {
      buffer := msg;
    }

    predicate Room(n: nat)
      reads this
    {
      !sizing ==> current + n <= buffer.Length
    }

    function Written(): seq<byte>
      requires Room(0)
      reads this, buffer
    {
      if sizing then [] else buffer[..current]
    }

    function With(data: seq<byte>): seq<byte> {
      if sizing then [] else data
    }

    // The cursor moves in any case; only a packer writes.
    method Copy(data: seq<byte>)
      requires Room(|data|)
      modifies this`current, buffer
      ensures current == old(current) + |data| && Room(0) && Written() == old(Written()) + With(data)
    {
      if !sizing {
        var i := 0;
        while i < |data|
          invariant i <= |data| && current == old(current)
          invariant buffer[..current] == old(buffer[..current])
          invariant forall j :: 0 <= j < i ==> buffer[current + j] == data[j]
        {
          buffer[current + i] := data[i];
          i := i + 1;
        }
      }
      current := current + |data|;
    }

    /** The record of an object: new, met before by this printer, or left by another one. */
    method GetRecord(o: nat, ty: nat) returns (e: Entry)
      modifies this`records
      ensures records == old(records)[o := e] && e == NextEntry(old(records), o, ty, me)
    {
      if o !in records {
        e := Entry(Follows, |records| + 1, ty, me);
      } else {
        e := records[o];
        if e.progenitor == me {
          if e.kind == Follows {
            e := e.(kind := Printed);
          }
        } else {
          e := e.(progenitor := me, kind := Follows);
        }
      }
      records := records[o := e];
    }

    ghost predicate Agrees(w: World, seen: Numbering, all: Numbering)
      reads this
    {
      TableOk(w, records, me, seen, all) && AsideOk(w, deferred, seen, all)
    }

    // Since it stood at `from` with `before` written, this printer has put out `data`.
    predicate PutOut(data: seq<byte>, before: seq<byte>, from: nat)
      reads this, buffer
    {
      current == from + |data| && Room(0) && Written() == before + With(data)
    }

    // Find the record of the object a pointer leads to, and set the object aside if it is deferred.
    // The result says whether the object follows.
    method Register(w: World, o: nat) returns (e: Entry, follows: bool)
      requires deferrable == w.deferrable
      modifies this`records, this`deferred
      ensures e == FinalEntry(w, old(records), o, me) && records == old(records)[o := e]
        && follows == (e.kind == Follows)
      ensures deferred == if NextEntry(old(records), o, Tag(w, o), me).kind == Follows
        && Deferred(w, o) then old(deferred)[e.id := o] else old(deferred)
    {
      e := GetRecord(o, Tag(w, o));
      follows := e.kind == Follows;
      if follows && FamilyOf(w, o) == Block && deferrable && BlockSize(w, o) >= ZERO_COPY_SIZE {
        follows := false;
        e := e.(kind := Apart, ty := BlockSize(w, o));
        records := records[o := e];
        deferred := deferred[e.id := o];
      }
    }

    method PupRecord(w: World, o: nat, ghost seen: Numbering, ghost all: Numbering) returns (follows: bool)
      requires o in w.heap && deferrable == w.deferrable && Ranked(seen) && Agrees(w, seen, all)
      requires Submap(Now(seen, o), all)
      requires Room(|PutRecord(RecordFor(w, o, seen))|)
      modifies this`records, this`deferred, this`current, buffer
      ensures follows <==> o !in seen && !Deferred(w, o)
      ensures PutOut(PutRecord(RecordFor(w, o, seen)), old(Written()), old(current)) && Agrees(w, Now(seen, o), all)
    {
      Registered(w, records, deferred, me, o, seen, all);
      var e;
      e, follows := Register(w, o);
      Copy(PutRecord(RecordOf(e)));
    }

    // Two pieces, one after the other.
    lemma PutOutBoth(x: seq<byte>, y: seq<byte>, before: seq<byte>, between: seq<byte>, from: nat)
      requires between == before + With(x) && PutOut(y, between, from + |x|)
      ensures PutOut(x + y, before, from)
    {
      assert before + With(x) + With(y) == before + With(x + y);
    }

    /** Whatever the table held before, if it agrees with the numbering: a value is printed as a
        fresh printer would, and the size advances by exactly as much. */
    method Pup(w: World, k: Kind, v: Value, ghost seen: Numbering, ghost all: Numbering)
      requires WorldOk(w) && WellTyped(w, k, v) && deferrable == w.deferrable
      requires Ranked(seen) && Submap(Emit(w, v, seen).seen, all) && Agrees(w, seen, all)
      requires Room(|Emit(w, v, seen).bytes|)
      modifies this`records, this`deferred, this`current, buffer
      ensures PutOut(Emit(w, v, seen).bytes, old(Written()), old(current)) && Agrees(w, Emit(w, v, seen).seen, all)
      decreases Unseen(w, seen), v, 1
    {
      match v
      case Data(b) => Copy(b);
      case Pair(a, b) => PupPair(w, k, a, b, seen, all);
      case List(items) =>
        Copy(Word(Length(items)));
        Pup(w, Chain(k.elem, Length(items)), items, seen, all);
      case Null => Copy(PutRecord(Ignored));
      case To(o) => PupPointer(w, k, o, seen, all);
      case _ =>
    }

    method PupPair(w: World, k: Kind, a: Value, b: Value, ghost seen: Numbering, ghost all: Numbering)
      requires WorldOk(w) && WellTyped(w, k, Pair(a, b)) && deferrable == w.deferrable
      requires Ranked(seen) && Submap(Emit(w, Pair(a, b), seen).seen, all) && Agrees(w, seen, all)
      requires Room(|Emit(w, Pair(a, b), seen).bytes|)
      modifies this`records, this`deferred, this`current, buffer
      ensures PutOut(Emit(w, Pair(a, b), seen).bytes, old(Written()), old(current))
        && Agrees(w, Emit(w, Pair(a, b), seen).seen, all)
      decreases Unseen(w, seen), Pair(a, b), 0
    {
      ghost var x := Emit(w, a, seen);
      assert Ranked(x.seen) && Submap(x.seen, all) && Unseen(w, x.seen) <= Unseen(w, seen) by {
        PairRanks(w, a, b, seen, all);
      }
      ghost var before, from := Written(), current;
      Pup(w, if k.Both? then k.fst else k.elem, a, seen, all);
      ghost var between := Written();
      Pup(w, if k.Both? then k.snd else Chain(k.elem, k.n - 1), b, x.seen, all);
      PutOutBoth(x.bytes, Emit(w, b, x.seen).bytes, before, between, from);
    }

    method PupPointer(w: World, k: Kind, o: nat, ghost seen: Numbering, ghost all: Numbering)
      requires WorldOk(w) && WellTyped(w, k, To(o)) && deferrable == w.deferrable
      requires Ranked(seen) && Submap(Emit(w, To(o), seen).seen, all) && Agrees(w, seen, all)
      requires Room(|Emit(w, To(o), seen).bytes|)
      modifies this`records, this`deferred, this`current, buffer
      ensures PutOut(Emit(w, To(o), seen).bytes, old(Written()), old(current))
        && Agrees(w, Emit(w, To(o), seen).seen, all)
      decreases Unseen(w, seen), To(o), 0
    {
      assert ObjOk(w, o);
      PointerEmits(w, o, seen, all);
      ghost var before, from := Written(), current;
      var follows := PupRecord(w, o, seen, all);
      ghost var between := Written();
      if follows {
        assert Ranked(Met(seen, o)) && Unseen(w, Met(seen, o)) < Unseen(w, seen) by {
          MetRanked(seen, o);
          MetShrinks(w, seen, o);
        }
        Pup(w, w.types[w.heap[o].ty].layout, w.heap[o].body, Met(seen, o), all);
        PutOutBoth(PutRecord(RecordFor(w, o, seen)), Emit(w, w.heap[o].body, Met(seen, o)).bytes, before, between,
          from);
      }
    }
  }

  // ---------------------------------------------------------------- one record at a time

  function Now(seen: Numbering, o: nat): Numbering {
    if o in seen then seen else Met(seen, o)
  }

  function RecordFor(w: World, o: nat, seen: Numbering): Record {
    if o in seen then Again(w, o, seen[o])
    else if Deferred(w, o) then Again(w, o, |seen| + 1)
    else Instance(|seen| + 1, Tag(w, o))
  }

  lemma PointerEmits(w: World, o: nat, seen: Numbering, all: Numbering)
    requires o in w.heap && Ranked(seen) && Submap(Emit(w, To(o), seen).seen, all)
    ensures Submap(Now(seen, o), all)
    ensures var e, r := Emit(w, To(o), seen), PutRecord(RecordFor(w, o, seen));
      if o in seen || Deferred(w, o) then e == Emitted(r, Now(seen, o))
      else e == Emitted(r + Emit(w, w.heap[o].body, Met(seen, o)).bytes, Emit(w, w.heap[o].body, Met(seen, o)).seen)
  {
    if o !in seen && !Deferred(w, o) {
      EmitObject(w, o, seen);
      MetRanked(seen, o);
      EmitRanks(w, w.heap[o].body, Met(seen, o));
    }
  }

  // The number of a new object is the next one, whether the table holds it already or not.
  lemma NumberNow(w: World, records: map<nat, Entry>, me: nat, o: nat, seen: Numbering, all: Numbering)
    requires Ranked(seen) && TableOk(w, records, me, seen, all) && Submap(Now(seen, o), all)
    ensures o in all && all[o] == if o in seen then seen[o] else |seen| + 1
    ensures o !in records ==> |records| == |seen| && o !in seen
  {
    assert all[o] == Now(seen, o)[o];
    assert |records.Keys| == |records| && |seen.Keys| == |seen|;
  }

  /** Meeting an object again finds it printed or set aside; meeting it for the first time finds it
      new, under its number, even if another printer has left a record. */
  lemma WhichEntry(w: World, records: map<nat, Entry>, me: nat, o: nat, seen: Numbering, all: Numbering, e: Entry)
    requires Ranked(seen) && TableOk(w, records, me, seen, all) && Submap(Now(seen, o), all)
    requires e == NextEntry(records, o, Tag(w, o), me)
    ensures o in all && e.progenitor == me && e.id == all[o] == (if o in seen then seen[o] else |seen| + 1)
    ensures e.kind == Follows <==> o !in seen
    ensures o !in seen && !Deferred(w, o) ==> e.ty == Detail(w, o)
    ensures o in seen ==> RecordOf(e) == RecordFor(w, o, seen) && TableOk(w, records[o := e], me, seen, all)
  {
    NumberNow(w, records, me, o, seen, all);
    if o in records {
      assert EntryOk(w, records[o], o, me, seen, all);
    }
    if o in seen {
      EntryAgain(w, records, me, o, seen, all, e);
    }
  }

  lemma EntryAgain(w: World, records: map<nat, Entry>, me: nat, o: nat, seen: Numbering, all: Numbering, e: Entry)
    requires TableOk(w, records, me, seen, all) && o in seen && o in records && o in all && all[o] == seen[o]
    requires e == NextEntry(records, o, Tag(w, o), me)
    ensures RecordOf(e) == RecordFor(w, o, seen) && TableOk(w, records[o := e], me, seen, all)
  {
    var table := records[o := e];
    assert EntryOk(w, records[o], o, me, seen, all);
    forall p | p in table
      ensures EntryOk(w, table[p], p, me, seen, all)
    {
      if p != o {
        assert EntryOk(w, records[p], p, me, seen, all);
      }
    }
    assert table.Keys == records.Keys;
  }

  // A new object's entry, and what it becomes if the object is deferred.
  lemma EntryNew(w: World, records: map<nat, Entry>, me: nat, o: nat, seen: Numbering, all: Numbering, e: Entry)
    requires TableOk(w, records, me, seen, all) && o !in seen && o in all && all[o] == |seen| + 1
    requires e.progenitor == me && e.kind == Follows && e.id == all[o] && (!Deferred(w, o) ==> e.ty == Detail(w, o))
    ensures var now := if Deferred(w, o) then e.(kind := Apart, ty := BlockSize(w, o)) else e;
      RecordOf(now) == RecordFor(w, o, seen) && TableOk(w, records[o := now], me, Met(seen, o), all)
  {
    var now := if Deferred(w, o) then e.(kind := Apart, ty := BlockSize(w, o)) else e;
    var table := records[o := now];
    assert EntryOk(w, now, o, me, Met(seen, o), all);
    forall p | p in table
      ensures EntryOk(w, table[p], p, me, Met(seen, o), all)
    {
      if p != o {
        assert EntryOk(w, records[p], p, me, seen, all);
      }
    }
    KeysNew(records, o, now, seen, all);
  }

  lemma KeysNew(records: map<nat, Entry>, o: nat, e: Entry, seen: Numbering, all: Numbering)
    requires KeysOk(records, seen, all) && o in all
    ensures KeysOk(records[o := e], Met(seen, o), all)
  {
    assert records[o := e].Keys == records.Keys + {o};
    assert Met(seen, o).Keys == seen.Keys + {o};
  }

  lemma AsideNew(w: World, deferred: map<nat, nat>, o: nat, seen: Numbering, all: Numbering)
    requires Ranked(seen) && AsideOk(w, deferred, seen, all) && o !in seen && Submap(Met(seen, o), all)
    ensures o in all && AsideOk(w, if Deferred(w, o) then deferred[all[o] := o] else deferred, Met(seen, o), all)
  {
    var now := Met(seen, o);
    assert now[o] == |seen| + 1;
    forall p | p in seen
      ensures p in all && all[p] <= |seen|
    {
      assert now[p] == seen[p];
    }
  }

  lemma Registered(w: World, records: map<nat, Entry>, deferred: map<nat, nat>, me: nat, o: nat, seen: Numbering,
                   all: Numbering)
    requires Ranked(seen) && TableOk(w, records, me, seen, all) && AsideOk(w, deferred, seen, all)
    requires Submap(Now(seen, o), all)
    ensures var e := FinalEntry(w, records, o, me);
      && RecordOf(e) == RecordFor(w, o, seen) && (e.kind == Follows <==> o !in seen && !Deferred(w, o))
      && TableOk(w, records[o := e], me, Now(seen, o), all)
      && AsideOk(w, if NextEntry(records, o, Tag(w, o), me).kind == Follows
           && Deferred(w, o) then deferred[e.id := o] else deferred, Now(seen, o), all)
  {
    var e := NextEntry(records, o, Tag(w, o), me);
    WhichEntry(w, records, me, o, seen, all, e);
    if o !in seen {
      EntryNew(w, records, me, o, seen, all, e);
      AsideNew(w, deferred, o, seen, all);
    }
  }

  // ---------------------------------------------------------------- size, then pack

  // A table left by another printer that met everything.
  lemma LeftBehind(w: World, records: map<nat, Entry>, them: nat, me: nat, all: Numbering)
    requires TableOk(w, records, them, all, all) && me != them
    ensures TableOk(w, records, me, map[], all) && AsideOk(w, map[], map[], all)
  {
    forall o | o in records
      ensures EntryOk(w, records[o], o, me, map[], all)
    {
      assert EntryOk(w, records[o], o, them, all, all);
    }
    assert records.Keys == all.Keys;
  }

  method Size(w: World, k: Kind, v: Value) returns (s: Printer)
    requires WorldOk(w) && WellTyped(w, k, v)
    ensures var e := Emit(w, v, map[]);
      fresh(s) && s.me == 0 && s.current == |e.bytes| && TableOk(w, s.records, 0, e.seen, e.seen)
  {
    EmitRanks(w, v, map[]);
    s := new Printer(0, true, w.deferrable);
    s.Pup(w, k, v, map[], Emit(w, v, map[]).seen);
  }

  // Pack into a buffer of the given size, with the records of a sizing pass.
  method PackWith(w: World, k: Kind, v: Value, sizer: Printer) returns (packer: Printer)
    requires WorldOk(w) && WellTyped(w, k, v)
    requires sizer.current == |Emit(w, v, map[]).bytes|
    requires TableOk(w, sizer.records, 0, Emit(w, v, map[]).seen, Emit(w, v, map[]).seen)
    modifies sizer`records
    ensures fresh(packer) && fresh(packer.buffer) && !packer.sizing && sizer.current == old(sizer.current)
    ensures packer.current == packer.buffer.Length == sizer.current
      && packer.buffer[..packer.current] == Emit(w, v, map[]).bytes
    ensures AsideOk(w, packer.deferred, Emit(w, v, map[]).seen, Emit(w, v, map[]).seen)
  {
    ghost var all := Emit(w, v, map[]).seen;
    EmitRanks(w, v, map[]);
    LeftBehind(w, sizer.records, 0, 1, all);
    packer := new Printer(1, false, w.deferrable);
    packer.Acquire(sizer);
    var msg := new byte[sizer.current];
    packer.Reset(msg);
    packer.Pup(w, k, v, map[], all);
  }

  /** Size, hand the records over, then pack into a buffer of that size: the buffer is filled
      exactly, with what a fresh printer would have put out; what is set aside are the deferred
      blocks, under the numbers their records carry. */
  method Pack(w: World, k: Kind, v: Value) returns (msg: array<byte>, aside: map<nat, nat>)
    requires WorldOk(w) && WellTyped(w, k, v)
    ensures fresh(msg) && msg[..] == Emit(w, v, map[]).bytes
    ensures AsideOk(w, aside, Emit(w, v, map[]).seen, Emit(w, v, map[]).seen)
  {
    var sizer := Size(w, k, v);
    var packer := PackWith(w, k, v, sizer);
    msg, aside := packer.buffer, packer.deferred;
    assert msg[..] == msg[..packer.current];
  }
}
