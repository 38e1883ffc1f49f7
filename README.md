# tinyvote in Dafny

A model of `tinyvote`, a small library that runs an encrypted vote on top of
the `tinynmc` secure multi-party computation engine. Tally nodes are
preprocessed together; a voter asks every node for masks with a one-coordinate
request, turns the masks and a choice into a ballot with one masked factor per
choice slot (2 for the chosen slot, 1 elsewhere), and broadcasts it; every node
turns the batch of ballots into one share per slot; `reveal` adds the shares
of each slot in the prime field and decodes the sum as `bit_length() - 1`.

The engine itself is not modelled. A `tinynmc` sub-instance is an object
(`Primitive.MpcNode`) with an uninterpreted state, and the engine's operations
(`masks`, `masked_factors`, `compute`, the joint `preprocess` step and the
initial state of a fresh sub-instance) are parameters of the operations that
call them. What the model states is which sub-instance receives which data,
in which order, and what the voting layer computes around those calls.

Files:

- `common.dfy` (module `Common`): `Option`, `Result`, the Python exceptions
  the layer raises (`IndexError`, `TypeError`) and `Column`, the list
  comprehension `[row[i] for row in rows]`.
- `primitive.dfy` (module `Primitive`): coordinates, masks (an insertion-ordered
  dictionary), the sub-instance class and the joint preprocessing step.
- `tally.dfy` (module `Tally`): `bit_length`, the field sum and `reveal`.
- `tinyvote.dfy` (module `TinyVote`): `request`, `vote`, the `node` class,
  `preprocess`, and the lemma that ties the ballot encoding to `reveal`.

Python exceptions are modelled as `Failure` results rather than excluded by
preconditions. `range(choices)` with a negative `choices` yields nothing, so
the number of sub-instances is `Slots(choices)`, 0 for a negative count.

A slot whose combined value is 0 (which an honest run never produces, since
`2^c mod p` is never 0 for an odd prime `p`) could be expected to read as 0 votes. The
code does not special-case it: `bit_length(0) - 1` is -1, and the model
follows the code (`Tally.Reveal`).

The encoding has a capacity. A slot chosen by `c` ballots combines to `2^c`,
but the shares live in the field modulo `p`, so what `reveal` decodes is
`2^c mod p`. The count comes out right only while `2^c < p`, that is, for
fewer ballots per slot than the bit length of `p`. Nothing in the code checks
this bound. With the documented modulus 4215209819, 32 ballots for the same
slot reduce to 79757477 and are reported as 26 votes
(`TinyVote.RevealWrapsAround`); the round trip is proved within the bound
(`TinyVote.RevealRecoversCounts`, `TinyVote.RevealWithinCapacity`).

The engine's joint `preprocess` draws fresh randomness on every call. The
model passes that randomness in as one coin per slot (`coins[i]` for slot
`i`), so the sub-instances of different slots of one node end in states that
the model does not identify with each other.

## Model

| member | source | states |
|---|---|---|
| `Tally.BitLength` | src/tinyvote/tinyvote.py:152 | `int.bit_length` of a non-negative integer is 0 exactly for 0, and otherwise the `r` with `2^(r-1) <= n < 2^r` |
| `Tally.FieldSum` | src/tinyvote/tinyvote.py:152 | `sum` of field elements (left fold from 0, reducing each addition) is below the modulus and equals the plain integer sum modulo `p` |
| `Tally.Reveal` | src/tinyvote/tinyvote.py:150-154 | succeeds exactly when `shares` is non-empty and no share is shorter than the first, else `IndexError`; one count per slot of the first share; each count is -1 exactly when the slot's field sum is 0 and otherwise the `c` with `2^c <= sum < 2^(c+1)` (the decoding `bit_length() - 1` is the helper `Tally.SlotCount`) |
| `Tally.FloorLog2Unique` | src/tinyvote/tinyvote.py:152 | the count satisfying `2^c <= s < 2^(c+1)` is unique |
| `Tally.BitLengthOfPow2` | src/tinyvote/tinyvote.py:152 | a combined value of exactly `2^k` decodes to `k` |
| `Tally.RevealPowerOfTwo` | src/tinyvote/tinyvote.py:150-154 | if slot `i`'s shares add up to `2^k`, `reveal` reports `k` for slot `i` |
| `Tally.RevealExample` | src/tinyvote/tinyvote.py:135-148 | the documented shares modulo 4215209819 reveal `[3, 2, 4]` |
| `Common.Column` | src/tinyvote/tinyvote.py:152 | `[row[i] for row in rows]` (also at lines 43 and 92) has one entry per row, entry `j` being row `j`'s `i`-th entry |
| `TinyVote.SlotColumn` | src/tinyvote/tinyvote.py:123 | `[node_._nodes[i] for node_ in nodes]` has one entry per node, entry `k` being node `k`'s slot-`i` sub-instance |
| `Primitive.MpcNode.constructor` | src/tinyvote/tinyvote.py:120 | a fresh engine sub-instance starts in the engine's initial state |
| `Primitive.JointPreprocess` | src/tinyvote/tinyvote.py:123 | the joint engine step, drawing the randomness `coin`, leaves member `j` of the slot's column in `step(signature, states before, coin, j)` and changes no other object |
| `TinyVote.NewRequest` | src/tinyvote/tinyvote.py:47-62 | `request(identifier)` is a request naming exactly the voter `identifier` |
| `TinyVote.RequestIdentifierInverse` | src/tinyvote/tinyvote.py:56-62 | a request names voter `identifier` exactly when it equals `request(identifier)`, i.e. `[(0, identifier)]` |
| `TinyVote.FactorsMarkOneSlot` | src/tinyvote/tinyvote.py:93-95 | a ballot's factors hold exactly one 2 when `0 <= choice < choices` and none otherwise; every other factor is 1 |
| `TinyVote.NewVote` | src/tinyvote/tinyvote.py:86-96 | `vote(masks, choice)` fails with `IndexError` exactly when `masks` is empty, a node has fewer masks than the first, or a first-node mask has no key; otherwise it has one entry per first-node mask, and entry `i` is `masked_factors` of the one-key map from the first key (`Primitive.Mask.FirstKey`, `list(mask.keys())[0]`) of the first node's slot-`i` mask to the slot's factor (2 iff `i == choice`, else 1) and of the slot-`i` masks of all nodes in node order |
| `TinyVote.FactorProductCounts` | src/tinyvote/tinyvote.py:93-95 | the slot-`i` factors of a batch of ballots multiply to `2^c`, `c` the number of ballots that chose `i` |
| `TinyVote.RevealRecoversCounts` | src/tinyvote/tinyvote.py:125-154 | if every slot's shares add up in the field to the product of the batch's factors for that slot, reduced modulo `p`, and each slot's `2^count` is below `p`, `reveal` returns the number of ballots that chose each slot |
| `TinyVote.RevealWithinCapacity` | src/tinyvote/tinyvote.py:125-154 | under the same reconstruction assumption, a batch of `n` ballots with `2^n < p` is counted exactly, whatever the choices |
| `TinyVote.RevealWrapsAround` | src/tinyvote/tinyvote.py:136-152 | with the modulus 4215209819, shares that reconstruct the product of 32 ballots for slot 0 (`2^32` reduced modulo `p`) make `reveal` report 26 for that slot, not 32 |
| `TinyVote.Node.constructor` | src/tinyvote/tinyvote.py:16-22 | a new node has no signature, no choice count and no sub-instances |
| `TinyVote.Node.Masks` | src/tinyvote/tinyvote.py:24-33 | an unpreprocessed node raises `TypeError`; otherwise one mask per slot (`TinyVote.Slots(choices)`, the length of `range(choices)`, 0 when negative), entry `i` issued by sub-instance `i` for the request |
| `TinyVote.Node.Outcome` | src/tinyvote/tinyvote.py:35-45 | an empty batch raises `IndexError`; an empty first vote gives `[]`; an unpreprocessed node otherwise raises `TypeError`; a batch with more slots than sub-instances or a vote shorter than the first raises `IndexError`; otherwise one share per slot of the first vote, entry `i` computed by sub-instance `i` from the signature and the slot-`i` entries of the votes in vote order |
| `TinyVote.NewSubnodes` | src/tinyvote/tinyvote.py:120 | `[tinynmc.node() for _ in range(choices)]` is `max(choices, 0)` fresh sub-instances in the initial state |
| `TinyVote.PlaceNodes` | src/tinyvote/tinyvote.py:115-120 | every node gets the one signature `[votes]`, `choices` and its own fresh sub-instances, one per slot, all in the initial state |
| `TinyVote.PreprocessSlot` | src/tinyvote/tinyvote.py:122-123 | the joint step for slot `i`, with that call's randomness `coin`, runs on slot `i`'s sub-instance of every node in node order, leaving node `k`'s in `step(signature, states before, coin, k)`, and leaves the other slots' sub-instances as they were |
| `TinyVote.PreprocessSlots` | src/tinyvote/tinyvote.py:122-123 | the joint step runs once per slot, each call with its own randomness `coins[i]`, on that slot's sub-instance of every node in node order; starting from initial states it leaves node `j`'s sub-instance of slot `i` in state `step(signature, initial states, coins[i], j)` |
| `TinyVote.Preprocess` | src/tinyvote/tinyvote.py:98-123 | every node holds the signature `[votes]`, `choices` and `max(choices, 0)` fresh sub-instances, pairwise distinct objects across all nodes and slots; the joint step ran once per slot, each call with its own randomness `coins[i]`, on that slot's sub-instance of every node in node order, and left node `j`'s sub-instance of slot `i` in state `step([votes], initial states, coins[i], j)` |

## Left out

- The internals of `tinynmc` (`node`, `masks`, `masked_factors`, `compute`, `preprocess`): they are parameters, and nothing about their cryptography (privacy of shares, correctness of reconstruction) is claimed.
- The field arithmetic of the `modulo` library: a field element is an integer read modulo one fixed modulus `p`; shares under different moduli (which the library rejects) are not modelled.
- Whether `tinynmc`'s `compute` or `masks` change the sub-instance: both are modelled as reading its state only.
- Failures raised inside `tinynmc` (for instance a batch whose size differs from the signature): the engine operations are total functions here.
- TinyVote.Preprocess: requires the node list to hold distinct nodes; with a node listed twice the source would give it two rounds of sub-instances and pass one sub-instance twice to the joint step, which is not modelled.
- The signature list that all nodes share by reference is modelled as a value; no code mutates it, so the sharing cannot be observed.
- TinyVote.RevealRecoversCounts: the end-to-end round trip is stated only under the assumption that the engine reconstructs the product of the factors modulo `p`, since that depends on `tinynmc`, and only for counts with `2^count < p`, since beyond that the field wraps around (`TinyVote.RevealWrapsAround`).
- The randomness the engine draws in `preprocess` is a parameter (one coin per call); how it is drawn is not modelled.
- Arguments of the wrong Python type (a non-integer `votes` or `choices`, a share that is not a field element) are excluded by the Dafny types.
- The doctest harness at the end of the module.
