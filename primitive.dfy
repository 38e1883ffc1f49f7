/** The generic multi-party-computation engine the voting layer drives (the
    `tinynmc` library). Its cryptography is not part of this model: a
    sub-instance is an object holding an uninterpreted state of type `S`, and
    each engine operation is a function the caller passes in. What is modelled
    is which sub-instance receives which data, and in which order. */
module Primitive {

  /** A coordinate of the engine's sum-of-products computation; a voter's
      request names the single coordinate `(0, identifier)`. */
  type Coordinate = (int, int)

  /** The masks one sub-instance issues for one request: a dictionary from
      coordinates to masking material, kept in insertion order (as Python
      dictionaries are), so that its first key is well defined. */
  datatype Mask<M> = Mask(entries: seq<(Coordinate, M)>)
  {
    predicate HasKey()
    {
      |entries| > 0
    }

    /** `list(mask.keys())[0]`. */
    function FirstKey(): Coordinate
      requires HasKey()
    {
      entries[0].0
    }
  }

  /** One engine sub-instance (a `tinynmc.node`): it is changed in place only by
      the joint preprocessing step. */
  class MpcNode<S> {
    var state: S
    /** The position of the owning node and the choice slot this sub-instance
        was created for; proof bookkeeping that tells sub-instances apart. */
    ghost const owner: nat
    ghost const slot: nat

    constructor (init: S, ghost owner: nat, ghost slot: nat)
      ensures state == init && this.owner == owner && this.slot == slot
    {
      state := init;
      this.owner := owner;
      this.slot := slot;
    }
  }

  /** The states of `column`, in order. */
  function States<S>(column: seq<MpcNode<S>>): (r: seq<S>)
    reads set x | x in column
    ensures |r| == |column|
    ensures forall j :: 0 <= j < |column| ==> r[j] == column[j].state
  {
    seq(|column|, j requires 0 <= j < |column| reads set x | x in column => column[j].state)
  }

  /** No sub-instance appears twice in `column`. */
  predicate Distinct<S>(column: seq<MpcNode<S>>)
  {
    forall a, b :: 0 <= a < |column| && 0 <= b < |column| && a != b ==> column[a] != column[b]
  }

  /** `tinynmc.preprocess(signature, column)`: one joint step over the aligned
      sub-instances of all nodes for one slot. The step draws fresh
      randomness on every call; `coin` stands for what this call drew. It
      leaves every member `j` in the state `step(signature, states before,
      coin, j)`, which may depend on the states of all members, and touches
      nothing else. */
  method JointPreprocess<S, R>(signature: seq<int>, column: seq<MpcNode<S>>, coin: R,
                               step: (seq<int>, seq<S>, R, nat) -> S)
    requires Distinct(column)
    modifies set x | x in column
    ensures forall j :: 0 <= j < |column| ==>
      column[j].state == step(signature, old(States(column)), coin, j)
  {
    var before := States(column);
    var j := 0;
    while j < |column|
      invariant 0 <= j <= |column|
      invariant forall k :: 0 <= k < j ==> column[k].state == step(signature, before, coin, k)
      invariant forall k :: j <= k < |column| ==> column[k].state == before[k]
    {
      column[j].state := step(signature, before, coin, j);
      j := j + 1;
    }
  }
}
