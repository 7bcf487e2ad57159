/** The Merkle tree of RFC 9162 as mathematics: the tree hash of section 2.1.1
    and the consistency prover of section 2.1.4.1, over any hash functions. */
module Rfc9162 {

  /** One entry of the log: the stored message text, never parsed here. */
  type Bytes = string

  /** A 32-byte value. The constructors name where a value may come from, so that
      collision-free hashing (`FreeHasher`) exists; nothing inspects them. */
  datatype Digest =
    | Zero
    | OfEmpty
    | OfLeaf(entry: Bytes)
    | OfNode(left: Digest, right: Digest)
    | OfLink(previous: Digest, entry: Bytes)

  /** The hash functions of the log. `link` extends the hash chain by one message. */
  datatype Hasher = Hasher(
    emptyRoot: Digest,
    leaf: Bytes -> Digest,
    node: (Digest, Digest) -> Digest,
    link: (Digest, Bytes) -> Digest)

  const FreeHasher := Hasher(OfEmpty, b => OfLeaf(b), (l, r) => OfNode(l, r), (c, b) => OfLink(c, b))

  /** Two different pairs of children never share a parent hash. */
  ghost predicate NodeInjective(h: Hasher) {
    forall a, b, c, d :: h.node(a, b) == h.node(c, d) ==> a == c && b == d
  }

  /** Two different messages never share a leaf hash. */
  ghost predicate LeafInjective(h: Hasher) {
    forall a, b :: h.leaf(a) == h.leaf(b) ==> a == b
  }

  /** Two different (chain, message) pairs never extend to the same chain value. */
  ghost predicate LinkInjective(h: Hasher) {
    forall a, b, c, d :: h.link(a, b) == h.link(c, d) ==> a == c && b == d
  }

  /** The collision hypotheses can be met. */
  lemma CollisionFreeHashingExists()
    ensures NodeInjective(FreeHasher) && LeafInjective(FreeHasher) && LinkInjective(FreeHasher)
  {
    forall a, b | FreeHasher.leaf(a) == FreeHasher.leaf(b)
      ensures a == b
    {
      assert OfLeaf(a) == OfLeaf(b);
    }
    forall a, b, c, d | FreeHasher.node(a, b) == FreeHasher.node(c, d)
      ensures a == c && b == d
    {
      assert OfNode(a, b) == OfNode(c, d);
    }
    forall a, b, c, d | FreeHasher.link(a, b) == FreeHasher.link(c, d)
      ensures a == c && b == d
    {
      assert OfLink(a, b) == OfLink(c, d);
    }
  }

  function Pow2(t: nat): (p: nat)
    ensures p >= 1
  {
    if t == 0 then 1 else 2 * Pow2(t - 1)
  }

  /** The exponent of the largest power of two that is smaller than `n`. */
  function SplitLevel(n: nat): (t: nat)
    requires n >= 2
    ensures Pow2(t) < n <= 2 * Pow2(t)
  {
    if n == 2 then 0 else
    var t := SplitLevel((n + 1) / 2) + 1;
    assert Pow2(t) == 2 * Pow2(t - 1);
    t
  }

  /** The `k` of section 2.1.1. */
  function Split(n: nat): (k: nat)
    requires n >= 2
    ensures k < n <= 2 * k
  {
    Pow2(SplitLevel(n))
  }

  lemma {:induction false} Pow2Monotone(s: nat, t: nat)
    requires s < t
    ensures 2 * Pow2(s) <= Pow2(t)
  {
    if s + 1 < t { Pow2Monotone(s, t - 1); }
  }

  /** The split level is the only one that brackets `n`. */
  lemma SplitLevelUnique(n: nat, t: nat)
    requires n >= 2 && Pow2(t) < n <= 2 * Pow2(t)
    ensures SplitLevel(n) == t
  {
    var s := SplitLevel(n);
    if s < t { Pow2Monotone(s, t); } else if t < s { Pow2Monotone(t, s); }
  }

  predicate IsPow2(n: nat) {
    n == 1 || (n >= 2 && n % 2 == 0 && IsPow2(n / 2))
  }

  lemma {:induction false} Pow2IsPow2(t: nat)
    ensures IsPow2(Pow2(t))
  {
    if t > 0 { Pow2IsPow2(t - 1); }
  }

  /** `MTH`, section 2.1.1. */
  function Mth(h: Hasher, d: seq<Bytes>): Digest
    decreases |d|
  {
    if |d| == 0 then h.emptyRoot
    else if |d| == 1 then h.leaf(d[0])
    else
      var k := Split(|d|);
      h.node(Mth(h, d[..k]), Mth(h, d[k..]))
  }

  lemma MthSplits(h: Hasher, d: seq<Bytes>)
    requires |d| >= 2
    ensures Mth(h, d) == h.node(Mth(h, d[..Split(|d|)]), Mth(h, d[Split(|d|)..]))
  {}

  /** `SUBPROOF`, section 2.1.4.1: `complete` while `d[..m]` is a subtree whose
      hash the verifier already holds. */
  function SubProof(h: Hasher, m: nat, d: seq<Bytes>, complete: bool): seq<Digest>
    requires 0 < m <= |d|
    decreases |d|
  {
    if m == |d| then
      if complete then [] else [Mth(h, d)]
    else
      var k := Split(|d|);
      if m <= k then
        SubProof(h, m, d[..k], complete) + [Mth(h, d[k..])]
      else
        SubProof(h, m - k, d[k..], false) + [Mth(h, d[..k])]
  }

  /** `PROOF`, with the two sizes outside the RFC that the log answers with an
      empty proof. */
  function Proof(h: Hasher, m: nat, d: seq<Bytes>): seq<Digest>
    requires m <= |d|
  {
    if m == 0 || m == |d| then [] else SubProof(h, m, d, true)
  }
}
