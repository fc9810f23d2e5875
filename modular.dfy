/** Facts about remainders used by the wrapping counters of the model. */
module Modular {

  /** The remainder is determined by any quotient-remainder decomposition. */
  lemma ModUnique(a: nat, len: nat, q: nat, r: nat)
    requires r < len && a == q * len + r
    ensures a % len == r
  {
    var q', r' := a / len, a % len;
    assert (q - q') * len == r' - r;
    if q > q' {
      assert (q - q') * len >= len by { MulAtLeast(q - q', len); }
    } else if q < q' {
      assert (q' - q) * len >= len by { MulAtLeast(q' - q, len); }
    }
  }

  lemma MulAtLeast(x: int, len: nat)
    requires x >= 1
    ensures x * len >= len
  {
  }

  /** Below twice the modulus, the remainder is at most one subtraction away. */
  lemma ModOnce(a: nat, len: nat)
    requires a < 2 * len
    ensures a % len == if a >= len then a - len else a
  {
    if a >= len {
      ModUnique(a, len, 1, a - len);
    } else {
      ModUnique(a, len, 0, a);
    }
  }

  lemma ModSucc(a: nat, len: nat)
    requires len > 0
    ensures (a % len + 1) % len == (a + 1) % len
  {
    var q, r := a / len, a % len;
    if r + 1 < len {
      ModUnique(a + 1, len, q, r + 1);
      ModUnique(r + 1, len, 0, r + 1);
    } else {
      assert a + 1 == (q + 1) * len;
      ModUnique(a + 1, len, q + 1, 0);
      ModUnique(r + 1, len, 1, 0);
    }
  }
}
