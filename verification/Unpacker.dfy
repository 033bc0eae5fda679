/** The reader, with its cursor and its table of instances. */
module Unpacker {
  import opened Common
  import opened Graph
  import opened Parsing

  class Reader {
    const types: map<nat, Type>
    const data: seq<byte>
    var current: nat
    var heap: map<nat, Obj>
    var instances: set<nat>
    var deferred: set<nat>

    constructor (types: map<nat, Type>, data: seq<byte>)
      ensures this.types == types && this.data == data && Valid()
      ensures Rest() == data && Contents() == EMPTY_STORE
    {
      this.types, this.data := types, data;
      current, heap, instances, deferred := 0, map[], {}, {};
    }

    predicate Valid()
      reads this
    {
      current <= |data|
    }

    function Rest(): seq<byte>
      requires Valid()
      reads this
    {
      data[current..]
    }

    function Contents(): Store
      reads this
    {
      Store(heap, instances, deferred)
    }

    // This reader has got v, and stands where r says.
    predicate Stands(r: Option<Parsed>, v: Option<Value>)
      reads this
    {
      Valid() && (v.Some? <==> r.Some?)
        && (r.Some? ==> v.value == r.value.value && Contents() == r.value.store && Rest() == r.value.rest)
    }

    method Copy(n: nat) returns (bytes: Option<seq<byte>>)
      requires Valid()
      modifies this`current
      ensures Valid()
      ensures |old(Rest())| < n ==> bytes == None && current == old(current)
      ensures |old(Rest())| >= n ==> bytes == Some(old(Rest())[..n]) && Rest() == old(Rest())[n..]
    {
      if |data| - current < n {
        return None;
      }
      bytes := Some(data[current..current + n]);
      assert data[current..current + n] == Rest()[..n];
      current := current + n;
    }

    method CopyRecord() returns (r: Option<Record>)
      requires Valid()
      modifies this`current
      ensures Valid() && current >= old(current)
      ensures var got := GetRecord(old(Rest()));
        && (r.Some? <==> got.Some?)
        && (got.Some? ==> r.value == got.value.record && Rest() == got.value.rest && current > old(current))
    {
      r := None;
      var tag := Copy(1);
      if tag == None {
        return;
      } else if tag.value[0] == IGNORED {
        return Some(Ignored);
      }
      var id := Copy(WORD);
      if id == None {
        return;
      } else if tag.value[0] == REFERENCE {
        return Some(Reference(Number(id.value)));
      }
      var more := Copy(WORD);
      if more == None {
        return;
      } else if tag.value[0] == DEFERRED {
        return Some(Deferral(Number(id.value), Number(more.value)));
      } else if tag.value[0] == INSTANCE {
        return Some(Instance(Number(id.value), Number(more.value)));
      }
    }

    method Pup(k: Kind, moved: bool) returns (v: Option<Value>)
      requires Valid()
      modifies this
      ensures Stands(Parse(types, k, old(Rest()), old(Contents()), moved), v)
      decreases |data| - current, Core(k), Count(k), 1
    {
      v := None;
      match k {
        case Raw(n) =>
          var bytes := Copy(n);
          if bytes.Some? {
            v := Some(Data(bytes.value));
          }
        case Nothing => v := Some(Unit);
        case Both(a, b) => v := PupPair(k, a, b, moved);
        case Chain(e, n) =>
          if n == 0 {
            v := Some(Unit);
          } else {
            v := PupPair(k, e, Chain(e, n - 1), moved);
          }
        case ListOf(e) =>
          var size := Copy(WORD);
          if size.Some? {
            var items := Pup(Chain(e, Number(size.value)), true);
            if items.Some? {
              v := Some(List(items.value));
            }
          }
        case _ =>
          var r := CopyRecord();
          if r.Some? {
            v := PupPointer(k, r.value, moved);
          }
      }
    }

    method PupPair(ghost k: Kind, a: Kind, b: Kind, moved: bool) returns (v: Option<Value>)
      requires Valid() && (k == Both(a, b) || (k.Chain? && k.n > 0 && a == k.elem && b == Chain(a, k.n - 1)))
      modifies this
      ensures Stands(match Parse(types, a, old(Rest()), old(Contents()), moved)
                     case None => None
                     case Some(x) => Paired(x.value, Parse(types, b, x.rest, x.store, moved)), v)
      decreases |data| - current, Core(k), Count(k), 0
    {
      v := None;
      var x := Pup(a, moved);
      if x.Some? {
        var y := Pup(b, moved);
        if y.Some? {
          v := Some(Pair(x.value, y.value));
        }
      }
    }

    method PupPointer(k: Kind, r: Record, moved: bool) returns (v: Option<Value>)
      requires Valid()
      modifies this
      ensures Stands(ParsePointer(types, k, r, old(Rest()), old(Contents()), moved), v)
      decreases |data| - current + 1, 0, 0, 0
    {
      match r {
        case Ignored => v := Some(Null);
        case Reference(id) => v := Some(if id in instances then To(id) else Null);
        case Deferral(id, _) =>
          if !IsBlock(types, k) {
            return None;
          }
          deferred := deferred + {id};
          v := Some(if moved then Lost else Slot(id));
        case Instance(id, tag) =>
          var ty := Target(k, tag);
          if ty !in types || (k == PolyPtr && id in instances) {
            return None;
          }
          if k == PolyPtr {
            instances := instances + {id};
          }
          var body := Pup(types[ty].layout, false);
          if body == None || (k != PolyPtr && id in instances) {
            return None;
          }
          heap := heap[id := Obj(ty, body.value)];
          instances := instances + {id};
          v := Some(To(id));
      }
    }
  }
}
