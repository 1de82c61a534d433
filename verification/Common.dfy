/** Small shared vocabulary: optional results and the 64-bit range of the server's integers. */
module Common {

  /** 2^64, one past the largest value of an unsigned 64-bit integer. */
  const TWO_64: int := 0x1_0000_0000_0000_0000

  /** 2^32, one past the largest value of an unsigned 32-bit integer. */
  const TWO_32: int := 0x1_0000_0000

  type uint64 = x: int | 0 <= x < TWO_64

  /** A block or transaction hash. */
  type Hash = nat

  datatype Option<+T> = None | Some(value: T)

  function Min(a: int, b: int): int {
    if a <= b then a else b
  }

  /** The positions `at`, each once and in ascending order, are exactly those of the set. */
  ghost predicate Visits(at: seq<nat>, positions: set<nat>) {
    && (forall i, j | 0 <= i < j < |at| :: at[i] < at[j])
    && (forall p: nat :: p in positions <==> p in at)
  }

  lemma VisitsMore(at: seq<nat>, positions: set<nat>, n: nat)
    requires Visits(at, positions) && forall p | p in positions :: p < n
    ensures Visits(at + [n], positions + {n})
  {
    assert forall i | 0 <= i < |at| :: at[i] in positions;
  }
}
