/** The tally reconstructor (`reveal`): adds up, slot by slot, the shares
    returned by every node in the prime field, and decodes each combined
    value as `bit_length() - 1`, the position of its highest set bit. */
module Tally {
  import opened Common

  /** The modulus of the field the shares live in (the library's `modulo`). */
  type Modulus = p: int | p > 1 witness 2

  function Pow2(k: nat): (r: nat)
    ensures r >= 1
  {
    if k == 0 then 1 else 2 * Pow2(k - 1)
  }

  /** Python's `int.bit_length` on a non-negative integer: the number of
      binary digits, 0 for 0. */
  function BitLength(n: nat): (r: nat)
    ensures n == 0 <==> r == 0
    ensures n > 0 ==> Pow2(r - 1) <= n < Pow2(r)
  {
    if n == 0 then 0 else 1 + BitLength(n / 2)
  }

  /** The plain integer sum, the reference for the field sum. */
  function Sum(xs: seq<int>): int
  {
    if xs == [] then 0 else Sum(xs[..|xs| - 1]) + xs[|xs| - 1]
  }

  /** Euclidean division is unique: a representation `x == q * p + m` with
      `0 <= m < p` fixes the remainder. */
  lemma ModUnique(x: int, q: int, m: int, p: Modulus)
    requires 0 <= m < p && x == q * p + m
    ensures x % p == m
  {
    var q', m' := x / p, x % p;
    assert (q - q') * p == m' - m;
    if q - q' >= 1 {
      assert false;
    } else if q - q' <= -1 {
      assert false;
    }
  }

  lemma ModAddLeft(a: int, b: int, p: Modulus)
    ensures (a % p + b) % p == (a + b) % p
  {
    var u, v := a / p, (a % p + b) / p;
    assert a == u * p + a % p;
    assert a % p + b == v * p + (a % p + b) % p;
    assert u * p + v * p == (u + v) * p;
    ModUnique(a + b, u + v, (a % p + b) % p, p);
  }

  /** `sum(xs)` over field elements: Python's `sum` folds from the left,
      starting at the integer 0, and every addition reduces modulo `p`.
      `int(...)` of the result is its canonical representative. */
  function FieldSum(p: Modulus, xs: seq<int>): (r: nat)
    ensures r < p
    ensures r == Sum(xs) % p
  {
    if xs == [] then 0
    else
      var acc := FieldSum(p, xs[..|xs| - 1]);
      ModAddLeft(Sum(xs[..|xs| - 1]), xs[|xs| - 1], p);
      (acc + xs[|xs| - 1]) % p
  }

  /** The count decoded from one slot's combined value. */
  function SlotCount(s: nat): int
  {
    BitLength(s) - 1
  }

  /** `reveal(shares)`: one count per slot of the first share; the count is
      the floor of the base-2 logarithm of the slot's field sum, and -1 when
      that sum is 0. An empty `shares` or a share shorter than the first
      raises `IndexError`. */
  function Reveal(p: Modulus, shares: seq<seq<int>>): (r: Result<seq<int>>)
    ensures r.Success? <==> Covers(shares)
    ensures r.Failure? ==> r.error == IndexError
    ensures r.Success? ==> |r.value| == |shares[0]|
    ensures r.Success? ==> forall i :: 0 <= i < |r.value| ==>
      HasColumn(shares, i) &&
      var s := FieldSum(p, Column(shares, i));
      (s == 0 <==> r.value[i] == -1) &&
      (s > 0 ==> r.value[i] >= 0 && Pow2(r.value[i]) <= s < Pow2(r.value[i] + 1))
  {
    if !Covers(shares) then Failure(IndexError)
    else
      Success(seq(|shares[0]|, i requires 0 <= i < |shares[0]| =>
        SlotCount(FieldSum(p, Column(shares, i)))))
  }

  lemma {:induction false} Pow2Monotone(a: nat, b: nat)
    requires a <= b
    ensures Pow2(a) <= Pow2(b)
  {
    if a < b {
      Pow2Monotone(a, b - 1);
    }
  }

  lemma {:induction false} Pow2Add(a: nat, b: nat)
    ensures Pow2(a + b) == Pow2(a) * Pow2(b)
  {
    if b > 0 {
      Pow2Add(a, b - 1);
    }
  }

  /** The count that satisfies `2^c <= s < 2^(c+1)` is unique: it is the
      floor of the base-2 logarithm. */
  lemma FloorLog2Unique(s: nat, c: nat, d: nat)
    requires Pow2(c) <= s < Pow2(c + 1)
    requires Pow2(d) <= s < Pow2(d + 1)
    ensures c == d
  {
    if c < d {
      Pow2Monotone(c + 1, d);
    } else if d < c {
      Pow2Monotone(d + 1, c);
    }
  }

  /** A combined value of exactly `2^k` decodes to `k`. */
  lemma {:induction false} BitLengthOfPow2(k: nat)
    ensures SlotCount(Pow2(k)) == k
  {
    if k > 0 {
      BitLengthOfPow2(k - 1);
      assert Pow2(k) / 2 == Pow2(k - 1);
    }
  }

  /** If the shares of slot `i` combine to `2^k` (the product of the vote
      factors when `k` ballots chose that slot), `reveal` reports `k`. */
  lemma RevealPowerOfTwo(p: Modulus, shares: seq<seq<int>>, i: nat, k: nat)
    requires Covers(shares) && i < |shares[0]|
    requires FieldSum(p, Column(shares, i)) == Pow2(k)
    ensures Reveal(p, shares).Success? && Reveal(p, shares).value[i] == k
  {
    BitLengthOfPow2(k);
  }

  lemma {:induction false} FieldSumOfThree(p: Modulus, a: nat, b: nat, c: nat)
    requires a + b + c < p
    ensures FieldSum(p, [a, b, c]) == a + b + c
  {
    assert [a, b, c][..2] == [a, b];
    assert [a, b][..1] == [a];
    assert [a][..0] == [];
    ModUnique(a, 0, a, p);
    assert FieldSum(p, [a]) == a;
    ModUnique(a + b, 0, a + b, p);
    assert FieldSum(p, [a, b]) == a + b;
    ModUnique(a + b + c, 0, a + b + c, p);
  }

  /** The worked example of `reveal`'s documentation. */
  lemma RevealExample()
    ensures Reveal(4215209819, [[3, 5, 4], [1, 2, 9], [8, 0, 8]]) == Success([3, 2, 4])
  {
    var p: Modulus := 4215209819;
    var shares := [[3, 5, 4], [1, 2, 9], [8, 0, 8]];
    assert Covers(shares);
    var sums := [12, 7, 21];
    forall i | 0 <= i < 3
      ensures FieldSum(p, Column(shares, i)) == sums[i]
    {
      var col := Column(shares, i);
      assert col == [shares[0][i], shares[1][i], shares[2][i]];
      FieldSumOfThree(p, shares[0][i], shares[1][i], shares[2][i]);
    }
    assert SlotCount(12) == 3 && SlotCount(7) == 2 && SlotCount(21) == 4;
    var counts := seq(3, i requires 0 <= i < 3 => SlotCount(FieldSum(p, Column(shares, i))));
    assert counts == [3, 2, 4];
  }
}
