/**
 * `Math.random()` as a stream of draws: the k-th call returns `rand(k)`, a number in
 * [0, 1). The games take the stream and the position of their first draw as inputs.
 */
module Draws {
  /** The successive results of `Math.random()`. */
  type Rand = nat -> real

  ghost predicate Uniform(rand: Rand) {
    forall k :: 0.0 <= rand(k) < 1.0
  }

  /** `Math.floor(r * len)`: a draw in [0, 1) picks a position below len. */
  function Index(r: real, len: nat): (i: nat)
    requires 0.0 <= r < 1.0 && len > 0
    ensures i < len
  {
    assert r * len as real < len as real by {
      assert (1.0 - r) * len as real > 0.0;
    }
    (r * len as real).Floor
  }
}
