/** Reading any bytes at all, printed ones or not: when it succeeds, what has been built before is untouched, no
    number stands for two objects, and values have the shape that their types say. */
module AnyText {
  import opened Common
  import opened Graph
  import opened Parsing

  // ---------------------------------------------------------------- known objects stay

  // What was known is known, and holds what it held; what was waited for is waited for.
  ghost predicate Extends(a: Store, b: Store) {
    && a.instances <= b.instances && a.deferred <= b.deferred
    && forall id {:trigger id in a.instances} :: id in a.instances ==>
         (id in a.heap <==> id in b.heap) && (id in a.heap ==> b.heap[id] == a.heap[id])
  }

  lemma ExtendsOn(a: Store, b: Store, c: Store)
    requires Extends(a, b) && Extends(b, c)
    ensures Extends(a, c)
  {
  }

  // A new object is known from the start if it is polymorphic, and from its end if it is not.
  lemma NewObject(k: Kind, id: nat, ty: nat, st: Store, p: Parsed)
    requires id !in st.instances && Extends(if k == PolyPtr then Known(st, id) else st, p.store)
    requires k != PolyPtr ==> id !in p.store.instances
    ensures Extends(st, Filled(Known(p.store, id), id, Obj(ty, p.value)))
  {
  }

  /** Objects that are known are never read again: a text in which an instance has the number of a known object
      is refused, and no other text can change that object. */
  lemma {:induction false} KnownStay(types: map<nat, Type>, k: Kind, s: seq<byte>, st: Store, moved: bool)
    ensures Parse(types, k, s, st, moved).Some? ==> Extends(st, Parse(types, k, s, st, moved).value.store)
    decreases |s|, Core(k), Count(k), 1
  {
    match k
    case Raw(_) =>
    case Nothing =>
    case Both(a, b) => FirstThenSecond(types, k, a, b, s, st, moved);
    case Chain(e, n) =>
      if n > 0 {
        FirstThenSecond(types, k, e, Chain(e, n - 1), s, st, moved);
      }
    case ListOf(e) =>
      if |s| >= WORD {
        KnownStay(types, Chain(e, Number(s[..WORD])), s[WORD..], st, true);
      }
    case _ =>
      var got := GetRecord(s);
      if got.Some? {
        PointerKeeps(types, k, got.value.record, got.value.rest, st, moved);
      }
  }

  lemma {:induction false} FirstThenSecond(types: map<nat, Type>, k: Kind, a: Kind, b: Kind, s: seq<byte>, st: Store,
                                           moved: bool)
    requires k == Both(a, b) || (k.Chain? && k.n > 0 && a == k.elem && b == Chain(k.elem, k.n - 1))
    ensures Parse(types, k, s, st, moved).Some? ==> Extends(st, Parse(types, k, s, st, moved).value.store)
    decreases |s|, Core(k), Count(k), 0
  {
    KnownStay(types, a, s, st, moved);
    var x := Parse(types, a, s, st, moved);
    if x.Some? {
      KnownStay(types, b, x.value.rest, x.value.store, moved);
      var y := Parse(types, b, x.value.rest, x.value.store, moved);
      if y.Some? {
        ExtendsOn(st, x.value.store, y.value.store);
      }
    }
  }

  lemma {:induction false} PointerKeeps(types: map<nat, Type>, k: Kind, record: Record, rest: seq<byte>, st: Store,
                                        moved: bool)
    ensures var r := ParsePointer(types, k, record, rest, st, moved); r.Some? ==> Extends(st, r.value.store)
    decreases |rest| + 1, 0, 0, 0
  {
    if record.Instance? {
      var id, ty := record.id, Target(k, record.ty);
      if ty in types {
        var inner := if k == PolyPtr then Known(st, id) else st;
        KnownStay(types, types[ty].layout, rest, inner, false);
        var x := Parse(types, types[ty].layout, rest, inner, false);
        if ParsePointer(types, k, record, rest, st, moved).Some? {
          NewObject(k, id, ty, st, x.value);
        }
      }
    }
  }

  // ---------------------------------------------------------------- shapes

  // A pointer waits for a block only where its type says that it is one.
  predicate Shaped(types: map<nat, Type>, k: Kind, v: Value)
    decreases v
  {
    match v
    case Data(b) => k == Raw(|b|)
    case Unit => k == Nothing || (k.Chain? && k.n == 0)
    case Pair(a, b) =>
      (k.Both? && Shaped(types, k.fst, a) && Shaped(types, k.snd, b)) ||
      (k.Chain? && k.n > 0 && Shaped(types, k.elem, a) && Shaped(types, Chain(k.elem, k.n - 1), b))
    case List(items) => k.ListOf? && Shaped(types, Chain(k.elem, Length(items)), items)
    case Null => IsPointer(k)
    case To(_) => IsPointer(k)
    case _ => IsBlock(types, k)
  }

  // Each object has a known type, and the shape of its layout.
  ghost predicate AllShaped(types: map<nat, Type>, st: Store) {
    forall id {:trigger st.heap[id]} :: id in st.heap ==>
      st.heap[id].ty in types && Shaped(types, types[st.heap[id].ty].layout, st.heap[id].body)
  }

  ghost predicate WellRead(types: map<nat, Type>, k: Kind, r: Option<Parsed>) {
    r.Some? ==> Shaped(types, k, r.value.value) && AllShaped(types, r.value.store)
  }

  // A chain of so many items.
  lemma {:induction false} ChainLength(types: map<nat, Type>, e: Kind, n: nat, v: Value)
    requires Shaped(types, Chain(e, n), v)
    ensures Length(v) == n
    decreases v
  {
    if v.Pair? {
      ChainLength(types, e, n - 1, v.snd);
    }
  }

  /** Whatever is read, values and objects have the shape that their types say. */
  lemma {:induction false} ReadsShapes(types: map<nat, Type>, k: Kind, s: seq<byte>, st: Store, moved: bool)
    requires AllShaped(types, st)
    ensures WellRead(types, k, Parse(types, k, s, st, moved))
    decreases |s|, Core(k), Count(k), 1
  {
    match k
    case Raw(_) =>
    case Nothing =>
    case Both(a, b) => PairShaped(types, k, a, b, s, st, moved);
    case Chain(e, n) =>
      if n > 0 {
        PairShaped(types, k, e, Chain(e, n - 1), s, st, moved);
      }
    case ListOf(e) =>
      if |s| >= WORD {
        var n := Number(s[..WORD]);
        ReadsShapes(types, Chain(e, n), s[WORD..], st, true);
        var x := Parse(types, Chain(e, n), s[WORD..], st, true);
        if x.Some? {
          ChainLength(types, e, n, x.value.value);
        }
      }
    case _ =>
      var got := GetRecord(s);
      if got.Some? {
        PointerShaped(types, k, got.value.record, got.value.rest, st, moved);
      }
  }

  lemma {:induction false} PairShaped(types: map<nat, Type>, k: Kind, a: Kind, b: Kind, s: seq<byte>, st: Store,
                                      moved: bool)
    requires AllShaped(types, st)
    requires k == Both(a, b) || (k.Chain? && k.n > 0 && a == k.elem && b == Chain(k.elem, k.n - 1))
    ensures WellRead(types, k, Parse(types, k, s, st, moved))
    decreases |s|, Core(k), Count(k), 0
  {
    ReadsShapes(types, a, s, st, moved);
    var x := Parse(types, a, s, st, moved);
    if x.Some? {
      ReadsShapes(types, b, x.value.rest, x.value.store, moved);
    }
  }

  lemma {:induction false} PointerShaped(types: map<nat, Type>, k: Kind, record: Record, rest: seq<byte>, st: Store,
                                         moved: bool)
    requires IsPointer(k) && AllShaped(types, st)
    ensures WellRead(types, k, ParsePointer(types, k, record, rest, st, moved))
    decreases |rest| + 1, 0, 0, 0
  {
    if record.Instance? {
      var id, ty := record.id, Target(k, record.ty);
      if ty in types {
        ReadsShapes(types, types[ty].layout, rest, if k == PolyPtr then Known(st, id) else st, false);
      }
    }
  }
}
