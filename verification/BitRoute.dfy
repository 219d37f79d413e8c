/**
 * A 32-bit id as its chunk's key, the upper half, and its place in the chunk, the lower half. An unsigned shift by 16
 * is a division by 65,536, and a mask of 16 bits its remainder.
 */
module BitRoute {

  const CHUNK: nat := 0x1_0000
  type Id = n: nat | n < 0x1_0000_0000

  function ChunkKey(id: Id): (key: nat)
    ensures key < CHUNK
  {
    id / CHUNK
  }

  function Remainder(id: Id): (remainder: nat)
    ensures remainder < CHUNK
  {
    id % CHUNK
  }

  /** Each part is masked to 16 bits. */
  function Join(key: nat, remainder: nat): Id {
    (key % CHUNK) * CHUNK + remainder % CHUNK
  }

  /** Splitting and joining undo each other: every id, and every pair of 16-bit halves. */
  lemma SplitsAndJoins(id: Id, key: nat, remainder: nat)
    ensures Join(ChunkKey(id), Remainder(id)) == id == ChunkKey(id) * 65_536 + Remainder(id)
    ensures key < CHUNK && remainder < CHUNK ==>
              ChunkKey(Join(key, remainder)) == key && Remainder(Join(key, remainder)) == remainder
  {
  }

  /** An id between two of one chunk is of that chunk. */
  lemma BetweenIsSame(a: Id, b: Id, c: Id)
    requires a <= b <= c && ChunkKey(a) == ChunkKey(c)
    ensures ChunkKey(b) == ChunkKey(c)
  {
  }
}
