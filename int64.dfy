/** Go's `int64`: the signed 64-bit range and its two's-complement wrap-around. */
module Int64 {

  const Min: int := -0x8000_0000_0000_0000
  const Max: int := 0x7fff_ffff_ffff_ffff
  /** 2^64, the number of distinct int64 values. */
  const Modulus: int := 0x1_0000_0000_0000_0000

  predicate IsInt64(x: int) {
    Min <= x <= Max
  }

  type int64 = x: int | IsInt64(x)

  /**
   * The int64 that Go's arithmetic yields for the mathematical result `x`:
   * the unique value of the signed range congruent to `x` modulo 2^64.
   */
  function Wrap(x: int): (r: int64)
    ensures (x - r) % Modulus == 0
    ensures IsInt64(x) ==> r == x
  {
    var m := x % Modulus;
    if m <= Max then m else m - Modulus
  }

  /** No two distinct int64 values are congruent modulo 2^64, so `Wrap` is the only such function. */
  lemma WrapUnique(x: int, r: int64)
    requires (x - r) % Modulus == 0
    ensures r == Wrap(x)
  {
    var w := Wrap(x);
    assert (r - w) % Modulus == 0 by {
      assert r - w == (x - w) - (x - r);
    }
    assert IsInt64(r) && IsInt64(w);
    assert -Modulus < r - w < Modulus;
  }
}
