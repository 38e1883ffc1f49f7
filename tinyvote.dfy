/** The voting layer proper: requests, ballots, tally nodes and their
    preprocessing, each driving the engine of module `Primitive` once per
    choice slot. */
module TinyVote {
  import opened Common
  import opened Primitive
  import Tally

  /** A voter's request for masks: the list of coordinates it asks for. */
  type Request = seq<Coordinate>

  /** `request(identifier)`: the one-coordinate request `[(0, identifier)]`. */
  function NewRequest(identifier: int): (r: Request)
    ensures RequestIdentifier(r) == Some(identifier)
  {
    [(0, identifier)]
  }

  /** The voter a request names, when it has the shape of one. */
  function RequestIdentifier(r: Request): Option<int>
  {
    if |r| == 1 && r[0].0 == 0 then Some(r[0].1) else None
  }

  /** Requests and voter identifiers correspond one to one. */
  lemma RequestIdentifierInverse(r: Request, identifier: int)
    ensures RequestIdentifier(r) == Some(identifier) <==> r == NewRequest(identifier)
  {
  }

  /** The cleartext factor of slot `i` on a ballot for `choice`. */
  function Factor(i: int, choice: int): nat
  {
    if i == choice then 2 else 1
  }

  /** The cleartext factors of a ballot over `n` slots, in slot order. */
  function Factors(n: nat, choice: int): (f: seq<int>)
    ensures |f| == n
  {
    seq(n, i => Factor(i, choice))
  }

  /** A ballot carries the factor 2 in exactly one slot when `choice` is a
      valid slot and in none otherwise; every other slot carries 1. */
  lemma {:induction false} FactorsMarkOneSlot(n: nat, choice: int)
    ensures multiset(Factors(n, choice))[2] == if 0 <= choice < n then 1 else 0
    ensures multiset(Factors(n, choice))[1] == n - multiset(Factors(n, choice))[2]
  {
    if n > 0 {
      FactorsMarkOneSlot(n - 1, choice);
      assert Factors(n, choice) == Factors(n - 1, choice) + [Factor(n - 1, choice)];
    } else {
      assert Factors(n, choice) == [];
    }
  }

  /** The product, over a batch of ballots given by their choices, of their
      slot-`i` factors: the value the engine reconstructs for slot `i`. */
  function FactorProduct(ballots: seq<int>, i: int): nat
  {
    if ballots == [] then 1
    else FactorProduct(ballots[..|ballots| - 1], i) * Factor(i, ballots[|ballots| - 1])
  }

  /** The factors of a batch multiply to `2^c`, where `c` is the number of
      ballots that chose slot `i`: the encoding `reveal` decodes. */
  lemma {:induction false} FactorProductCounts(ballots: seq<int>, i: int)
    ensures FactorProduct(ballots, i) == Tally.Pow2(multiset(ballots)[i])
  {
    if ballots != [] {
      var init, last := ballots[..|ballots| - 1], ballots[|ballots| - 1];
      assert ballots == init + [last];
      FactorProductCounts(init, i);
      assert multiset(ballots) == multiset(init) + multiset{last};
    }
  }

  /** Conditional round trip of the whole protocol: if, for every slot, the
      nodes' shares add up in the field to the product of the batch's
      factors reduced modulo `p` (what the engine is meant to reconstruct),
      and that product `2^c` is still below `p`, `reveal` returns, for every
      slot, the number `c` of ballots that chose it. */
  lemma RevealRecoversCounts(p: Tally.Modulus, shares: seq<seq<int>>, ballots: seq<int>)
    requires Covers(shares)
    requires forall i :: 0 <= i < |shares[0]| ==>
      HasColumn(shares, i) && Tally.FieldSum(p, Column(shares, i)) == FactorProduct(ballots, i) % p
    requires forall i :: 0 <= i < |shares[0]| ==> Tally.Pow2(multiset(ballots)[i]) < p
    ensures Tally.Reveal(p, shares) == Success(seq(|shares[0]|, i => multiset(ballots)[i]))
  {
    var counts := seq(|shares[0]|, i => multiset(ballots)[i]);
    forall i | 0 <= i < |shares[0]|
      ensures Tally.Reveal(p, shares).value[i] == counts[i]
    {
      var c := multiset(ballots)[i];
      FactorProductCounts(ballots, i);
      Tally.ModUnique(Tally.Pow2(c), 0, Tally.Pow2(c), p);
      Tally.RevealPowerOfTwo(p, shares, i, c);
    }
    assert Tally.Reveal(p, shares).value == counts;
  }

  /** The round trip within the encoding's capacity: a batch of `n` ballots
      is counted exactly whenever `2^n < p`, whatever the choices. */
  lemma RevealWithinCapacity(p: Tally.Modulus, shares: seq<seq<int>>, ballots: seq<int>)
    requires Covers(shares)
    requires forall i :: 0 <= i < |shares[0]| ==>
      HasColumn(shares, i) && Tally.FieldSum(p, Column(shares, i)) == FactorProduct(ballots, i) % p
    requires Tally.Pow2(|ballots|) < p
    ensures Tally.Reveal(p, shares) == Success(seq(|shares[0]|, i => multiset(ballots)[i]))
  {
    forall i | 0 <= i < |shares[0]|
      ensures Tally.Pow2(multiset(ballots)[i]) < p
    {
      Tally.Pow2Monotone(multiset(ballots)[i], |ballots|);
    }
    RevealRecoversCounts(p, shares, ballots);
  }

  /** A batch of `n` ballots that all chose slot 0. */
  lemma {:induction false} UnanimousCount(n: nat)
    ensures multiset(seq(n, _ => 0))[0] == n
  {
    if n > 0 {
      assert seq(n, _ => 0) == seq(n - 1, _ => 0) + [0];
      UnanimousCount(n - 1);
    }
  }

  /** Beyond the capacity the count wraps around: with the modulus
      4215209819, 32 ballots for slot 0 multiply to `2^32`, which the field
      reduces to 79757477, and `reveal` reports 26 votes instead of 32. */
  lemma RevealWrapsAround(shares: seq<seq<int>>)
    requires Covers(shares) && 0 < |shares[0]| && HasColumn(shares, 0)
    requires Tally.FieldSum(4215209819, Column(shares, 0)) ==
      FactorProduct(seq(32, _ => 0), 0) % 4215209819
    ensures multiset(seq(32, _ => 0))[0] == 32
    ensures Tally.Reveal(4215209819, shares).Success?
    ensures Tally.Reveal(4215209819, shares).value[0] == 26
  {
    UnanimousCount(32);
    FactorProductCounts(seq(32, _ => 0), 0);
    assert Tally.Pow2(8) == 256;
    Tally.Pow2Add(8, 8);
    Tally.Pow2Add(16, 16);
    assert Tally.Pow2(32) == 4294967296;
    assert Tally.FieldSum(4215209819, Column(shares, 0)) == 79757477;
    Tally.Pow2Add(16, 8);
    Tally.Pow2Add(24, 2);
    Tally.Pow2Add(26, 1);
    assert Tally.Pow2(26) == 67108864;
    var r := Tally.Reveal(4215209819, shares).value[0];
    assert Tally.Pow2(r) <= 79757477 < Tally.Pow2(r + 1);
    Tally.FloorLog2Unique(79757477, r, 26);
  }

  /** Slot `i` of a ballot can be built: every node supplied a mask for it,
      and the first node's mask names a coordinate. */
  predicate SlotReady<M>(masks: seq<seq<Mask<M>>>, i: nat)
  {
    HasColumn(masks, i) && |masks| > 0 && masks[0][i].HasKey()
  }

  /** Every slot of a ballot over `masks` can be built. */
  predicate MasksReady<M>(masks: seq<seq<Mask<M>>>)
  {
    |masks| > 0 && forall i :: 0 <= i < |masks[0]| ==> SlotReady(masks, i)
  }

  /** `vote(masks, choice)`: one masked factor per slot of the first node's
      masks. Slot `i` combines the one-key dictionary mapping the first key
      of the first node's slot-`i` mask to the slot's factor with the slot-`i`
      masks of every node, in node order. Building it raises `IndexError`
      when `masks` is empty, a node has too few masks, or a mask is empty. */
  method NewVote<M, V>(masks: seq<seq<Mask<M>>>, choice: int,
                       maskedFactors: (map<Coordinate, int>, seq<Mask<M>>) -> V)
    returns (r: Result<seq<V>>)
    ensures r.Success? <==> MasksReady(masks)
    ensures r.Failure? ==> r.error == IndexError
    ensures r.Success? ==> |r.value| == |masks[0]|
    ensures r.Success? ==> forall i :: 0 <= i < |r.value| ==>
      SlotReady(masks, i) &&
      r.value[i] == maskedFactors(map[masks[0][i].FirstKey() := Factors(|masks[0]|, choice)[i]], Column(masks, i))
  {
    if |masks| == 0 {
      return Failure(IndexError);
    }
    var choices := |masks[0]|;
    var entries: seq<V> := [];
    var i := 0;
    while i < choices
      invariant 0 <= i <= choices
      invariant |entries| == i
      invariant forall k :: 0 <= k < i ==>
        SlotReady(masks, k) &&
        entries[k] == maskedFactors(map[masks[0][k].FirstKey() := Factors(choices, choice)[k]], Column(masks, k))
    {
      if !HasColumn(masks, i) {
        assert !SlotReady(masks, i);
        return Failure(IndexError);
      }
      var masksI := Column(masks, i);
      if !masksI[0].HasKey() {
        assert !SlotReady(masks, i);
        return Failure(IndexError);
      }
      var key := masksI[0].FirstKey();
      var coordinateToValue := map[key := if i == choice then 2 else 1];
      entries := entries + [maskedFactors(coordinateToValue, masksI)];
      i := i + 1;
    }
    return Success(entries);
  }

  /** The number of sub-instances `range(choices)` yields. */
  function Slots(choices: int): nat
  {
    if choices < 0 then 0 else choices
  }

  /** A tally node: the signature and number of choices it was preprocessed
      with, and one engine sub-instance per choice slot. All three are `None`
      until `Preprocess` sets them. */
  class Node<S> {
    var signature: Option<seq<int>>
    var choices: Option<int>
    var subnodes: Option<seq<MpcNode<S>>>

    ghost predicate Valid()
      reads this
    {
      (signature.Some? <==> subnodes.Some?) &&
      (choices.Some? <==> subnodes.Some?) &&
      (subnodes.Some? ==> |subnodes.value| == Slots(choices.value))
    }

    constructor ()
      ensures Valid()
      ensures signature == None && choices == None && subnodes == None
    {
      signature := None;
      choices := None;
      subnodes := None;
    }

    /** The sub-instances, none before preprocessing. */
    function Subnodes(): seq<MpcNode<S>>
      reads this
    {
      if subnodes.Some? then subnodes.value else []
    }

    /** `node.masks(request)`: slot `i`'s entry is the mask sub-instance `i`
        issues for `request`. An unpreprocessed node raises `TypeError`. */
    function Masks<M>(request: Request, masksOf: (S, Request) -> Mask<M>): (r: Result<seq<Mask<M>>>)
      requires Valid()
      reads this, set x | x in Subnodes()
      ensures r.Success? <==> choices.Some?
      ensures r.Failure? ==> r.error == TypeError
      ensures r.Success? ==> |r.value| == Slots(choices.value) == |subnodes.value|
      ensures r.Success? ==> forall i :: 0 <= i < |r.value| ==>
        r.value[i] == masksOf(subnodes.value[i].state, request)
    {
      if choices.None? then Failure(TypeError)
      else
        var subs := subnodes.value;
        Success(seq(|subs|, i requires 0 <= i < |subs| reads set x | x in subs => masksOf(subs[i].state, request)))
    }

    /** `node.outcome(votes)`: one share per slot of the first vote. Slot
        `i`'s share is what sub-instance `i` computes from the signature and
        the slot-`i` entries of all votes, in vote order. An empty batch, a
        vote shorter than the first or more slots than sub-instances raise
        `IndexError`; an unpreprocessed node raises `TypeError` unless the
        first vote is empty. */
    function Outcome<V>(votes: seq<seq<V>>, compute: (S, seq<int>, seq<V>) -> int): (r: Result<seq<int>>)
      requires Valid()
      reads this, set x | x in Subnodes()
      ensures |votes| == 0 ==> r == Failure(IndexError)
      ensures |votes| > 0 && |votes[0]| > 0 && subnodes.None? ==> r == Failure(TypeError)
      ensures r.Failure? ==>
        r.error == (if |votes| > 0 && |votes[0]| > 0 && subnodes.None? then TypeError else IndexError)
      ensures r.Success? <==>
        |votes| > 0 && (|votes[0]| == 0 || (subnodes.Some? && |votes[0]| <= |subnodes.value| && Covers(votes)))
      ensures r.Success? ==> |r.value| == |votes[0]|
      ensures r.Success? ==> forall i :: 0 <= i < |r.value| ==>
        subnodes.Some? && i < |subnodes.value| && HasColumn(votes, i) &&
        r.value[i] == compute(subnodes.value[i].state, signature.value, Column(votes, i))
    {
      if |votes| == 0 then Failure(IndexError)
      else if |votes[0]| == 0 then Success([])
      else if subnodes.None? then Failure(TypeError)
      else if |votes[0]| > |subnodes.value| || !Covers(votes) then Failure(IndexError)
      else
        var subs, sig, n := subnodes.value, signature.value, |votes[0]|;
        Success(seq(n, i requires 0 <= i < n reads set x | x in subs =>
          compute(subs[i].state, sig, Column(votes, i))))
    }
  }

  /** `[tinynmc.node() for _ in range(choices)]`, each sub-instance labelled
      with the owning node's position and its slot. */
  method NewSubnodes<S>(choices: int, init: S, ghost owner: nat) returns (subs: seq<MpcNode<S>>)
    ensures |subs| == Slots(choices)
    ensures forall i :: 0 <= i < |subs| ==>
      fresh(subs[i]) && subs[i].state == init && subs[i].owner == owner && subs[i].slot == i
  {
    subs := [];
    var i := 0;
    while i < choices
      invariant 0 <= i <= Slots(choices)
      invariant |subs| == i
      invariant forall t :: 0 <= t < i ==>
        fresh(subs[t]) && subs[t].state == init && subs[t].owner == owner && subs[t].slot == t
    {
      var sub := new MpcNode(init, owner, i);
      subs := subs + [sub];
      i := i + 1;
    }
  }

  /** The first `upTo` nodes hold `signature`, `choices` and one sub-instance
      per slot, created for their own position and slot. */
  ghost predicate Placed<S>(nodes: seq<Node<S>>, upTo: nat, signature: seq<int>, choices: int)
    reads set n | n in nodes
  {
    forall k :: 0 <= k < upTo && k < |nodes| ==>
      nodes[k].Valid() && nodes[k].signature == Some(signature) && nodes[k].choices == Some(choices) &&
      nodes[k].subnodes.Some? &&
      forall i :: 0 <= i < |nodes[k].subnodes.value| ==>
        nodes[k].subnodes.value[i].owner == k && nodes[k].subnodes.value[i].slot == i
  }

  /** `[node_._nodes[i] for node_ in nodes]`: slot `i`'s sub-instance of every
      node, in node order. */
  function SlotColumn<S>(nodes: seq<Node<S>>, i: nat): (c: seq<MpcNode<S>>)
    requires forall k :: 0 <= k < |nodes| ==> nodes[k].subnodes.Some? && i < |nodes[k].subnodes.value|
    reads set n | n in nodes
    ensures |c| == |nodes|
    ensures forall k :: 0 <= k < |nodes| ==> c[k] == nodes[k].subnodes.value[i]
  {
    seq(|nodes|, k requires 0 <= k < |nodes| && nodes[k].subnodes.Some? && i < |nodes[k].subnodes.value|
                   reads set n | n in nodes => nodes[k].subnodes.value[i])
  }

  /** No node appears twice in `nodes`. */
  predicate DistinctNodes<S>(nodes: seq<Node<S>>)
  {
    forall a, b :: 0 <= a < |nodes| && 0 <= b < |nodes| && a != b ==> nodes[a] != nodes[b]
  }

  /** The first loop of `preprocess`: every node gets `signature`, `choices`
      and `choices` fresh sub-instances in their initial state. */
  method PlaceNodes<S>(nodes: seq<Node<S>>, signature: seq<int>, choices: int, init: S)
    requires DistinctNodes(nodes)
    modifies set n | n in nodes
    ensures Placed(nodes, |nodes|, signature, choices)
    ensures forall k, i :: 0 <= k < |nodes| && 0 <= i < Slots(choices) ==>
      fresh(nodes[k].subnodes.value[i]) && nodes[k].subnodes.value[i].state == init
  {
    var j := 0;
    while j < |nodes|
      invariant 0 <= j <= |nodes|
      invariant Placed(nodes, j, signature, choices)
      invariant forall k, i :: 0 <= k < j && 0 <= i < Slots(choices) ==>
        fresh(nodes[k].subnodes.value[i]) && nodes[k].subnodes.value[i].state == init
    {
      var node := nodes[j];
      node.signature := Some(signature);
      node.choices := Some(choices);
      var subs := NewSubnodes(choices, init, j);
      node.subnodes := Some(subs);
      j := j + 1;
    }
  }

  /** One turn of the second loop of `preprocess`: the joint engine step on
      slot `i`'s sub-instance of every node, in node order, with the
      randomness `coin` this call draws. Sub-instances of the other slots
      keep their state. */
  method PreprocessSlot<S, R>(nodes: seq<Node<S>>, signature: seq<int>, choices: int, i: nat,
                              coin: R, step: (seq<int>, seq<S>, R, nat) -> S)
    returns (column: seq<MpcNode<S>>)
    requires i < Slots(choices)
    requires Placed(nodes, |nodes|, signature, choices)
    modifies set x | x in SlotColumn(nodes, i)
    ensures |column| == |nodes|
    ensures forall k :: 0 <= k < |nodes| ==>
      column[k] == nodes[k].subnodes.value[i] &&
      column[k].state == step(signature, old(States(SlotColumn(nodes, i))), coin, k)
    ensures forall k, t :: 0 <= k < |nodes| && 0 <= t < Slots(choices) && t != i ==>
      nodes[k].subnodes.value[t].state == old(nodes[k].subnodes.value[t].state)
  {
    column := SlotColumn(nodes, i);
    JointPreprocess(signature, column, coin, step);
  }

  /** Every sub-instance of the first `|nodes|` nodes. */
  ghost function Subinstances<S>(nodes: seq<Node<S>>): set<MpcNode<S>>
    reads set n | n in nodes
  {
    set k, t | 0 <= k < |nodes| && nodes[k].subnodes.Some? && 0 <= t < |nodes[k].subnodes.value| ::
      nodes[k].subnodes.value[t]
  }

  /** The second loop of `preprocess`: for each slot `i` in order, the joint
      engine step on slot `i`'s sub-instance of every node, in node order,
      with its own randomness `coins[i]`. The nodes' own fields are not
      touched. */
  method PreprocessSlots<S, R>(nodes: seq<Node<S>>, signature: seq<int>, choices: int,
                               init: S, coins: seq<R>, step: (seq<int>, seq<S>, R, nat) -> S)
    requires Placed(nodes, |nodes|, signature, choices)
    requires forall k, t :: 0 <= k < |nodes| && 0 <= t < Slots(choices) ==>
      nodes[k].subnodes.value[t].state == init
    requires |coins| == Slots(choices)
    modifies Subinstances(nodes)
    ensures forall k, t :: 0 <= k < |nodes| && 0 <= t < Slots(choices) ==>
      nodes[k].subnodes.value[t].state == step(signature, seq(|nodes|, _ => init), coins[t], k)
  {
    ghost var inits := seq(|nodes|, _ => init);
    var i := 0;
    while i < choices
      invariant 0 <= i <= Slots(choices)
      invariant Placed(nodes, |nodes|, signature, choices)
      invariant forall k, t {:trigger nodes[k].subnodes.value[t]} :: 0 <= k < |nodes| && 0 <= t < Slots(choices) ==>
        nodes[k].subnodes.value[t].state == if t < i then step(signature, inits, coins[t], k) else init
    {
      ghost var column := SlotColumn(nodes, i);
      assert States(column) == inits;
      var _ := PreprocessSlot(nodes, signature, choices, i, coins[i], step);
      i := i + 1;
    }
  }

  /** `preprocess(nodes, votes, choices)`: every node gets the signature
      `[votes]`, `choices` and `choices` fresh sub-instances; then the joint
      engine step runs once per slot `i`, on slot `i`'s sub-instance of every
      node in node order. `init` is the state of a fresh sub-instance, `step`
      the joint step's effect and `coins[i]` the randomness the call for slot
      `i` draws, so that different slots end in independent states. */
  method Preprocess<S, R>(nodes: seq<Node<S>>, votes: int, choices: int,
                          init: S, coins: seq<R>, step: (seq<int>, seq<S>, R, nat) -> S)
    requires DistinctNodes(nodes)
    requires |coins| == Slots(choices)
    modifies set n | n in nodes
    ensures forall j :: 0 <= j < |nodes| ==>
      nodes[j].Valid() && nodes[j].signature == Some([votes]) && nodes[j].choices == Some(choices) &&
      nodes[j].subnodes.Some? && |nodes[j].subnodes.value| == Slots(choices)
    ensures forall j, i :: 0 <= j < |nodes| && 0 <= i < Slots(choices) ==>
      fresh(nodes[j].subnodes.value[i]) &&
      nodes[j].subnodes.value[i].state == step([votes], seq(|nodes|, _ => init), coins[i], j)
    ensures forall j, i, k, t ::
      (0 <= j < |nodes| && 0 <= k < |nodes| && 0 <= i < Slots(choices) && 0 <= t < Slots(choices) &&
       (j, i) != (k, t)) ==>
      nodes[j].subnodes.value[i] != nodes[k].subnodes.value[t]
  {
    var signature := [votes];
    PlaceNodes(nodes, signature, choices, init);
    PreprocessSlots(nodes, signature, choices, init, coins, step);
  }
}
