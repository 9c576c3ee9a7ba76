/** Times as the controller's tables hold them (`rfc3339` in internal/agentcontroller/store.go). */
module Timestamps {
  const SECOND := 1_000_000_000

  /** Stored times keep whole seconds; all others are nanoseconds. */
  function Stored(t: int): (r: int)
    ensures r <= t < r + SECOND && r % SECOND == 0
  {
    t - t % SECOND
  }

  /** Comparing two stored times is comparing the later one, uncut, with the cut of the earlier one. */
  lemma {:induction false} StoredOrder(a: int, b: int)
    ensures Stored(a) <= Stored(b) <==> Stored(a) <= b
  {
    assert Stored(a) == a / SECOND * SECOND && Stored(b) == b / SECOND * SECOND;
  }
}
