/** Digests and the byte strings they are taken over. The hash is a parameter: soundness is
    stated as a claim or two different inputs with one digest. */
module Hashing {
  import opened Field
  import opened Wrappers

  type Bytes = seq<Byte>

  type Digest = s: Bytes | |s| == 32 witness seq(32, i => 0)

  type Hash = Bytes -> Digest

  ghost predicate Collision(h: Hash, a: Bytes, b: Bytes) {
    a != b && h(a) == h(b)
  }

  /** The low `n` bytes of `x`, lowest first. */
  function LittleEndian(x: nat, n: nat): (s: Bytes)
    ensures |s| == n
  {
    if n == 0 then [] else [x % 256] + LittleEndian(x / 256, n - 1)
  }

  function Power256(n: nat): (p: nat)
    ensures p > 0
  {
    if n == 0 then 1 else 256 * Power256(n - 1)
  }

  function LeU64(x: U64): (s: Bytes)
    ensures |s| == 8
  {
    LittleEndian(x, 8)
  }
}
