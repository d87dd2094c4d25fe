/**
  The pseudo-random source the generator draws from, as an oracle.

  A deterministic stream of draws: the value of the n-th draw depends only on
  the seed (folded into the oracle), on `n`, and on the bounds asked for. The
  state of the source is the number of draws made so far.
 */
module RandomSource {

  /** `oracle(n, lo, hi)` is the value of draw number `n` when asked for a value in `[lo, hi)`. */
  type Oracle = (nat, int, int) -> int

  /** The range contract of the source: a non-empty half-open range yields a value inside it. */
  ghost predicate WellBehaved(oracle: Oracle) {
    forall n: nat, lo: int, hi: int :: lo < hi ==> lo <= oracle(n, lo, hi) < hi
  }

  /** One draw: a value in `[lo, hi)`, and the source advances by one draw. */
  function NextInRange(oracle: Oracle, draws: nat, lo: int, hi: int): (r: (int, nat))
    requires WellBehaved(oracle)
    requires lo < hi
    ensures lo <= r.0 < hi
    ensures r.1 == draws + 1
  {
    (oracle(draws, lo, hi), draws + 1)
  }

  /** The single-bound form of the source, `Next(n)`, is the draw from `[0, n)`. */
  function Next(oracle: Oracle, draws: nat, n: int): (r: (int, nat))
    requires WellBehaved(oracle)
    requires 0 < n
    ensures 0 <= r.0 < n
    ensures r.1 == draws + 1
  {
    NextInRange(oracle, draws, 0, n)
  }
}
