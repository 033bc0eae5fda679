/** The tree builder of one node as the mutable object it is, proved against the handler
    functions of TreeBuilder. `sent` collects the remote calls it makes. */
module TreeNode {
  import opened Common
  import opened BinaryTree
  import opened TreeBuilder
  import opened Splicing

  class Builder {
    const me: nat
    const numNodes: nat
    var count: int
    var endpoint: Option<nat>
    var elements: map<nat, Assoc>
    var sent: seq<Message>
    // What dying elements send to their parents, and the forwarding records they ask for.
    var splices: seq<(nat, Edit)>
    var forwards: seq<(nat, nat)>

    constructor (me: nat, numNodes: nat)
      ensures this.me == me && this.numNodes == numNodes
      ensures State() == Local(0, None, map[]) && sent == [] && splices == [] && forwards == []
    {
      this.me, this.numNodes := me, numNodes;
      count, endpoint, elements, sent, splices, forwards := 0, None, map[], [], [], [];
    }

    function State(): Local
      reads this
    {
      Local(count, endpoint, elements)
    }

    // What the source asserts when a second element would become the endpoint.
    predicate MayRegister()
      reads this
    {
      me == 0 && elements == map[] ==> endpoint == None
    }

    // The state and the calls after a handler that was started in state l with `before` sent.
    predicate Did(l: Local, out: seq<Message>, before: seq<Message>)
      reads this
    {
      State() == l && sent == before + out
    }

    // A local element with the fewest children, in whatever order the hash map lists them.
    method FindTarget() returns (t: Option<nat>)
      ensures t == None <==> elements == map[]
      ensures t.Some? ==> Fewest(elements, t.value)
    {
      t := None;
      var rest := elements.Keys;
      while rest != {}
        invariant rest <= elements.Keys
        invariant t == None <==> rest == elements.Keys
        invariant t.Some? ==> t.value in elements
        invariant t.Some? ==> forall e :: e in elements && e !in rest ==> |elements[t.value].down| <= |elements[e].down|
        decreases rest
      {
        var e :| e in rest;
        if t == None || |elements[e].down| < |elements[t.value].down| {
          t := Some(e);
        }
        rest := rest - {e};
      }
    }

    // A local element without a settled parent, if there is one.
    method FindUnplaced() returns (t: Option<nat>)
      ensures t == None <==> forall e :: !Unplaced(elements, e)
      ensures t.Some? ==> Unplaced(elements, t.value)
    {
      var rest := elements.Keys;
      while rest != {}
        invariant rest <= elements.Keys
        invariant forall e :: e in elements && e !in rest ==> elements[e].valid
        decreases rest
      {
        var e :| e in rest;
        if !elements[e].valid {
          assert Unplaced(elements, e);
          return Some(e);
        }
        rest := rest - {e};
      }
      t := None;
    }

    // Record the endpoint, mark it if it is in the registry, tell the child nodes.
    method Register(idx: nat) returns (local: bool)
      requires endpoint == None
      modifies this`count, this`endpoint, this`elements, this`sent
      ensures Did(RegEndpoint(me, numNodes, old(State()), idx).0, RegEndpoint(me, numNodes, old(State()), idx).1,
        old(sent))
      ensures local == (idx in old(elements))
    {
      endpoint := Some(idx);
      local := idx in elements;
      if local {
        elements := elements[idx := SetEndpoint(elements[idx])];
      }
      var leaves := ComputeLeaves(me, numNodes);
      var i := 0;
      ghost var before := sent;
      while i < |leaves|
        invariant 0 <= i <= |leaves|
        invariant sent == before + Announce(leaves, idx)[..i]
        invariant endpoint == Some(idx) && count == old(count)
        invariant elements == RegEndpoint(me, numNodes, old(State()), idx).0.elements
      {
        sent := sent + [Endpoint(leaves[i], idx)];
        i := i + 1;
      }
      count := count + |leaves| - 1;
    }

    method Ask(src: nat, idx: nat)
      requires me == 0 ==> endpoint == None
      modifies this`count, this`endpoint, this`elements, this`sent
      ensures Did(SendUpstream(me, numNodes, old(State()), src, idx).0,
        SendUpstream(me, numNodes, old(State()), src, idx).1, old(sent))
    {
      var parent := Parent(me);
      if parent >= 0 {
        sent := sent + [Downstream(parent, src, idx)];
      } else {
        var _ := Register(idx);
      }
      count := count + 1;
    }

    // Adopt idx locally, or ask upstream; the adopting element is returned.
    method RegDownstream(src: nat, idx: nat) returns (target: Option<nat>)
      requires MayRegister()
      modifies this`count, this`endpoint, this`elements, this`sent
      ensures target == None <==> old(elements) == map[]
      ensures target.Some? ==> Fewest(old(elements), target.value) && count == old(count) && endpoint == old(endpoint)
                               && elements == PutDownstream(old(elements), target.value, idx) && sent == old(sent)
      ensures target == None ==>
                Did(SendUpstream(me, numNodes, old(State()), src, idx).0,
                  SendUpstream(me, numNodes, old(State()), src, idx).1, old(sent))
    {
      target := FindTarget();
      match target
      case None => Ask(src, idx);
      case Some(t) => elements := PutDownstream(elements, t, idx);
    }

    // A new element appears here; the choice of its local parent is returned for the contract.
    method AssociateElement(idx: nat) returns (ghost t: nat)
      requires idx !in elements && MayRegister()
      modifies this`count, this`endpoint, this`elements, this`sent
      ensures old(elements) != map[] ==> Fewest(old(elements), t)
      ensures Did(Associate(me, numNodes, old(State()), idx, t).0, Associate(me, numNodes, old(State()), idx, t).1,
        old(sent))
    {
      var target := RegDownstream(me, idx);
      var assoc := FRESH;
      match target {
        case None =>
          t := 0;
          // node 0 has made the element the endpoint while registering it
          if me == 0 {
            assoc := SetEndpoint(assoc);
          }
        case Some(parent) =>
          t := parent;
          assoc := PutUpstream(assoc, parent);
      }
      elements := elements[idx := assoc];
    }

    method ReceiveRequest(src: nat, idx: nat) returns (ghost t: nat)
      requires MayRegister()
      modifies this`count, this`endpoint, this`elements, this`sent
      ensures old(elements) != map[] ==> Fewest(old(elements), t)
      ensures Did(ReceiveDownstream(me, numNodes, old(State()), src, idx, t).0,
                  ReceiveDownstream(me, numNodes, old(State()), src, idx, t).1, old(sent))
    {
      var target := RegDownstream(src, idx);
      match target {
        case None =>
          t := 0;
          count := count - 1;
        case Some(parent) =>
          t := parent;
          sent := sent + [Upstream(src, me, parent, idx)];
      }
    }

    // Fails where the source has nobody to give the parent to.
    method ReceiveReply(parent: nat) returns (ok: bool, ghost t: nat)
      modifies this`count, this`endpoint, this`elements, this`sent
      ensures ok <==> exists e :: Unplaced(old(elements), e)
      ensures ok ==> Unplaced(old(elements), t) && Did(ReceiveUpstream(old(State()), parent, t), [], old(sent))
      ensures !ok ==> Did(old(State()), [], old(sent))
    {
      var target := FindUnplaced();
      match target {
        case None =>
          ok, t := false, 0;
        case Some(e) =>
          ok, t := true, e;
          elements := elements[e := PutUpstream(elements[e], parent)];
          count := count - 1;
      }
    }

    // An element that is not the root dies: its parent is to put its children in its place, and
    // messages for it are to be forwarded to the parent if it had children.
    method Disassociate(idx: nat)
      requires idx in elements && elements[idx].valid && elements[idx].up != []
      modifies this`elements, this`splices, this`forwards
      ensures elements == old(elements) - {idx}
      ensures var elt := old(elements)[idx];
        && splices == old(splices) + [(elt.up[0], Edit(idx, elt.down))]
        && forwards == old(forwards) + if elt.down == [] then [] else [(idx, elt.up[0])]
    {
      var elt := elements[idx];
      elements := elements - {idx};
      var parent := elt.up[0];
      splices := splices + [(parent, Edit(idx, elt.down))];
      if elt.down != [] {
        forwards := forwards + [(idx, parent)];
      }
    }
  }
}
