/** The 64-bit FNV-1a hash that picks shards in the limiters and in the metrics collector. */
module Hash {

  /** Go strings are byte sequences. */
  type Key = seq<bv8>

  const OFFSET64: bv64 := 14695981039346656037
  const PRIME64: bv64 := 1099511628211

  function Mix(h: bv64, b: bv8): bv64 {
    (h ^ (b as bv64)) * PRIME64
  }

  function Fnv1a(s: Key): bv64 {
    if s == [] then OFFSET64 else Mix(Fnv1a(s[..|s| - 1]), s[|s| - 1])
  }

  lemma HashAppends(s: Key, b: bv8)
    ensures Fnv1a(s + [b]) == Mix(Fnv1a(s), b)
  {
    assert (s + [b])[..|s|] == s;
  }

  /** The published hashes of the empty string and of "a". */
  lemma KnownHashes()
    ensures Fnv1a([]) == 0xcbf29ce484222325
    ensures Fnv1a([0x61]) == 0xaf63dc4c8601ec8c
  {
    FirstStep();
    HashAppends([], 0x61);
    assert [] + [0x61 as bv8] == [0x61 as bv8];
  }

  lemma FirstStep()
    ensures Mix(0xcbf29ce484222325, 0x61) == 0xaf63dc4c8601ec8c
  {
  }

  /** The shard a key belongs to. */
  function ShardIndex(key: Key, shards: nat): (i: nat)
    requires shards > 0
    ensures i < shards
  {
    (Fnv1a(key) as nat) % shards
  }

  /** The accumulator loop computes the recursive hash. */
  method ComputeFnv1a(s: Key) returns (h: bv64)
    ensures h == Fnv1a(s)
  {
    h := OFFSET64;
    for i := 0 to |s|
      invariant h == Fnv1a(s[..i])
    {
      assert s[..i + 1][..i] == s[..i];
      h := Mix(h, s[i]);
    }
    assert s[..|s|] == s;
  }
}
