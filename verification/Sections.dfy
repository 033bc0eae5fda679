/** Sections: a list of members, whose spanning tree is given by their positions in the list, and
    the identity of one member, with its place in the tree and its counters. */
module Sections {
  import opened Common
  import opened BinaryTree

  type Index = nat

  // A member's ordinal is its position in the list; -1 if it is not a member.
  function OrdinalFor(members: seq<Index>, idx: Index): (r: int)
    ensures -1 <= r < |members|
    ensures if r == -1 then idx !in members else members[r] == idx && idx !in members[..r]
  {
    if idx in members then FirstOf(members, idx) else -1
  }

  function FirstOf(members: seq<Index>, idx: Index): (r: nat)
    requires idx in members
    ensures r < |members| && members[r] == idx && idx !in members[..r]
  {
    if members[0] == idx then 0
    else
      var r := FirstOf(members[1..], idx);
      assert members[..r + 1] == [members[0]] + members[1..][..r];
      r + 1
  }

  predicate IsValidOrdinal(members: seq<Index>, ord: int) {
    0 <= ord < |members|
  }

  function IndicesAt(members: seq<Index>, ords: seq<nat>): seq<Index>
    requires forall i :: 0 <= i < |ords| ==> ords[i] < |members|
  {
    seq(|ords|, i requires 0 <= i < |ords| => members[ords[i]])
  }

  // The members that send to this one when a value is combined, and get what it broadcasts. None
  // stands for the assertion that the index is a member.
  function Upstream(members: seq<Index>, mine: Index): Option<seq<Index>> {
    var ord := OrdinalFor(members, mine);
    if ord == -1 then None else Some(IndicesAt(members, Leaves(ord, |members|)))
  }

  function Downstream(members: seq<Index>, mine: Index): Option<seq<Index>> {
    var ord := OrdinalFor(members, mine);
    if ord == -1 then None
    else if IsValidOrdinal(members, Parent(ord)) then Some([members[Parent(ord)]]) else Some([])
  }

  lemma OrdinalAt(members: seq<Index>, i: nat)
    requires Distinct(members) && i < |members|
    ensures OrdinalFor(members, members[i]) == i
  {
    assert members[i] in members;
    var r := OrdinalFor(members, members[i]);
    assert members[r] == members[i];
  }

  // A member is listed among others as often as its ordinal among theirs.
  lemma {:induction false} ListedAs(members: seq<Index>, ords: seq<nat>, b: Index)
    requires Distinct(members) && b in members && forall i :: 0 <= i < |ords| ==> ords[i] < |members|
    ensures multiset(IndicesAt(members, ords))[b] == multiset(ords)[OrdinalFor(members, b)]
    decreases |ords|
  {
    if ords != [] {
      var n := |ords| - 1;
      ListedAs(members, ords[..n], b);
      OrdinalAt(members, ords[n]);
      assert ords == ords[..n] + [ords[n]];
      assert IndicesAt(members, ords) == IndicesAt(members, ords[..n]) + [members[ords[n]]];
    }
  }

  lemma OnlyBelow(members: seq<Index>, a: Index, b: Index)
    requires Distinct(members) && a in members && b in members
    ensures Downstream(members, b) == Some([a])
      <==> (OrdinalFor(members, b) > 0 && Parent(OrdinalFor(members, b)) == OrdinalFor(members, a))
    ensures Downstream(members, b) == Some([]) <==> b == members[0]
  {
    var k := OrdinalFor(members, b);
    OrdinalAt(members, 0);
    if k > 0 {
      OrdinalAt(members, Parent(k));
    }
  }

  /** The links of a section fit together: b is among the members above a exactly when a is the one
      member below b, and then it is there once; only the first member has none below it. */
  lemma LinksFit(members: seq<Index>, a: Index, b: Index)
    requires Distinct(members) && a in members && b in members
    ensures Upstream(members, a).Some? && Downstream(members, b).Some?
    ensures multiset(Upstream(members, a).value)[b] == if Downstream(members, b) == Some([a]) then 1 else 0
    ensures Downstream(members, b) == Some([]) <==> b == members[0]
  {
    var i, k := OrdinalFor(members, a), OrdinalFor(members, b);
    ListedAs(members, Leaves(i, |members|), b);
    ChildIffParent(i, k, |members|);
    OnlyBelow(members, a, b);
    assert k in Leaves(i, |members|) <==> multiset(Leaves(i, |members|))[k] > 0;
  }

  // The place of one member in a section, and its counters.
  class Identity {
    const members: seq<Index>
    const mine: Index
    var reductions: nat
    var broadcasts: nat

    constructor (seed: nat, members: seq<Index>, mine: Index)
      ensures this.members == members && this.mine == mine && reductions == seed && broadcasts == 0
    {
      this.members, this.mine, reductions, broadcasts := members, mine, seed, 0;
    }

    // Reductions are numbered from the seed on, without gaps.
    method NextReduction() returns (r: nat)
      modifies this`reductions
      ensures r == old(reductions) && reductions == r + 1
    {
      r := reductions;
      reductions := reductions + 1;
    }

    function NextBroadcast(): nat
      reads this
    {
      broadcasts + 1
    }

    // A broadcast is accepted if it is later than all that were accepted before.
    method AcceptBroadcast(bcast: nat) returns (ok: bool)
      modifies this`broadcasts
      ensures ok <==> old(broadcasts) < bcast
      ensures broadcasts == if ok then bcast else old(broadcasts)
    {
      if broadcasts >= bcast {
        return false;
      }
      broadcasts := bcast;
      return true;
    }

    method FindUpstream() returns (rval: Option<seq<Index>>)
      ensures rval == Upstream(members, mine)
    {
      var ord := OrdinalFor(members, mine);
      if !IsValidOrdinal(members, ord) {
        return None;
      }
      var left, right := LeftChild(ord), RightChild(ord);
      var found: seq<Index> := [];
      if IsValidOrdinal(members, left) {
        found := found + [members[left]];
      }
      if IsValidOrdinal(members, right) {
        found := found + [members[right]];
      }
      assert found == IndicesAt(members, Leaves(ord, |members|));
      return Some(found);
    }

    method FindDownstream() returns (rval: Option<seq<Index>>)
      ensures rval == Downstream(members, mine)
    {
      var ord := OrdinalFor(members, mine);
      if !IsValidOrdinal(members, ord) {
        return None;
      }
      var found: seq<Index> := [];
      if IsValidOrdinal(members, Parent(ord)) {
        found := [members[Parent(ord)]];
      }
      return Some(found);
    }
  }
}
