/** Quotients and remainders are unique. */
module Arithmetic {

  lemma NotNegative(a: nat, b: nat)
    ensures a * b >= 0
  {
  }

  lemma Multiple(d: int, length: nat)
    ensures d > 0 ==> d * length >= length
    ensures d < 0 ==> d * length + length <= 0
  {
    if d > 0 {
      NotNegative(d - 1, length);
      assert d * length == (d - 1) * length + length;
    }
    if d < 0 {
      NotNegative(-d - 1, length);
      assert d * length + length == -((-d - 1) * length);
    }
  }

  lemma DivModUnique(x: nat, q: nat, r: nat, length: nat)
    requires length > 0 && x == q * length + r && r < length
    ensures x % length == r && x / length == q
  {
    assert (x / length - q) * length == r - x % length;
    Multiple(x / length - q, length);
  }
}
