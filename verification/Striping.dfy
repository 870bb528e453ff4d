/** How a probe walks the lock-striped shards: all of them, from anywhere, wrapping round. */
module Striping {
  const SHARDS: nat := 16

  /** The shard probed k-th from a random start. */
  function ShardAt(start: nat, k: nat): nat { (start + k) % SHARDS }

  /** When a probe from start comes to shard j. */
  function Turn(j: nat, start: nat): nat { (j + SHARDS - start % SHARDS) % SHARDS }

  /** Every shard has its turn, and only one. */
  lemma TurnIsProbed(start: nat, j: nat, k: nat)
    requires j < SHARDS && k < SHARDS
    ensures Turn(j, start) < SHARDS && (Turn(j, start) == k <==> j == ShardAt(start, k))
  {
  }
}
