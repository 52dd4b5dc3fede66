/** The exact integer meaning of Math.pow(2, k) and Math.ceil(Math.log2(n)). */
module Powers {

  function Pow2(k: nat): (p: nat)
    ensures p >= 1
  {
    if k == 0 then 1 else 2 * Pow2(k - 1)
  }

  /** The least r with n <= 2^r. */
  function CeilLog2(n: nat): (r: nat)
    requires n >= 1
    ensures n <= Pow2(r)
    ensures r > 0 ==> Pow2(r - 1) < n
  {
    if n == 1 then 0 else 1 + CeilLog2((n + 1) / 2)
  }

  lemma {:induction false} Pow2Monotone(a: nat, b: nat)
    requires a <= b
    ensures Pow2(a) <= Pow2(b)
    decreases b
  {
    if a < b {
      Pow2Monotone(a, b - 1);
    }
  }
}
