/** The consistency verifier of RFC 9162 section 2.1.4.2, as the loops the anchor
    sender and the auditor run, and what accepting a path proves. */
module Consistency {
  import opened Common
  import opened Rfc9162

  // ---------------------------------------------------------------------------
  // The two readings of a path
  // ---------------------------------------------------------------------------

  /** Steps 6 and 7, one path element at a time: the roots rebuilt from the two
      node indices, or None where the path is too long or too short. */
  function Climb(h: Hasher, fnode: nat, snode: nat, fr: Digest, sr: Digest, cs: seq<Digest>)
    : Option<(Digest, Digest)>
    decreases |cs|, fnode
  {
    if cs == [] then
      if snode == 0 then Some((fr, sr)) else None
    else if snode == 0 then
      None
    else if fnode % 2 == 1 then
      Climb(h, fnode / 2, snode / 2, h.node(cs[0], fr), h.node(cs[0], sr), cs[1..])
    else if fnode == snode then
      Climb(h, fnode / 2, snode / 2, fr, sr, cs)
    else
      Climb(h, fnode / 2, snode / 2, fr, h.node(sr, cs[0]), cs[1..])
  }

  /** Step 4 and then the climb: leave the first tree's own right edge first. */
  function ClimbFrom(h: Hasher, fnode: nat, snode: nat, full: seq<Digest>): Option<(Digest, Digest)>
    requires full != []
    decreases fnode
  {
    if fnode % 2 == 1 then ClimbFrom(h, fnode / 2, snode / 2, full)
    else Climb(h, fnode, snode, full[0], full[0], full[1..])
  }

  /** The same path read from the root down, along the splits of section 2.1.1:
      what the path says the two roots are, with no node indices. */
  function Rebuild(h: Hasher, m: nat, n: nat, full: seq<Digest>): Option<(Digest, Digest)>
    requires 0 < m <= n
    decreases n
  {
    if full == [] then None
    else if m == n then
      if |full| == 1 then Some((full[0], full[0])) else None
    else
      var k, last, rest := Split(n), full[|full| - 1], full[..|full| - 1];
      if m <= k then
        match Rebuild(h, m, k, rest)
        case None => None
        case Some((f, s)) => Some((f, h.node(s, last)))
      else
        match Rebuild(h, m - k, n - k, rest)
        case None => None
        case Some((f, s)) => Some((h.node(last, f), h.node(last, s)))
  }

  // ---------------------------------------------------------------------------
  // The loops compute the top-down reading
  // ---------------------------------------------------------------------------

  function AddRight(h: Hasher, below: Option<(Digest, Digest)>, last: Digest): Option<(Digest, Digest)> {
    match below
    case None => None
    case Some((f, s)) => Some((f, h.node(s, last)))
  }

  function AddLeft(h: Hasher, below: Option<(Digest, Digest)>, last: Digest): Option<(Digest, Digest)> {
    match below
    case None => None
    case Some((f, s)) => Some((h.node(last, f), h.node(last, s)))
  }

  /** The two roots after one step that consumes a path element. */
  function Step(h: Hasher, fnode: nat, fr: Digest, sr: Digest, c: Digest): (Digest, Digest) {
    if fnode % 2 == 1 then (h.node(c, fr), h.node(c, sr)) else (fr, h.node(sr, c))
  }

  lemma ClimbStep(h: Hasher, fnode: nat, snode: nat, fr: Digest, sr: Digest, cs: seq<Digest>)
    requires cs != [] && snode != 0 && (fnode % 2 == 1 || fnode != snode)
    ensures var (fr', sr') := Step(h, fnode, fr, sr, cs[0]);
            Climb(h, fnode, snode, fr, sr, cs) == Climb(h, fnode / 2, snode / 2, fr', sr', cs[1..])
  {}

  lemma ClimbHalve(h: Hasher, node: nat, fr: Digest, sr: Digest, cs: seq<Digest>)
    requires node % 2 == 0
    ensures Climb(h, node, node, fr, sr, cs) == Climb(h, node / 2, node / 2, fr, sr, cs)
  {}

  lemma ClimbEnds(h: Hasher, fnode: nat, snode: nat, fr: Digest, sr: Digest)
    ensures Climb(h, fnode, snode, fr, sr, []) == if snode == 0 then Some((fr, sr)) else None
  {}

  /** The first tree ends left of the split: the last element is the right sibling
      of a whole subtree of `2^t` leaves. */
  lemma {:induction false} ClimbPeelsRight(h: Hasher, t: nat, fnode: nat, snode: nat,
                                           fr: Digest, sr: Digest, cs: seq<Digest>)
    requires fnode < Pow2(t) <= snode < 2 * Pow2(t) && cs != []
    ensures Climb(h, fnode, snode, fr, sr, cs)
            == AddRight(h, Climb(h, fnode, Pow2(t) - 1, fr, sr, cs[..|cs| - 1]), cs[|cs| - 1])
    decreases t
  {
    ClimbStep(h, fnode, snode, fr, sr, cs);
    if t > 0 && |cs| > 1 {
      var (fr', sr') := Step(h, fnode, fr, sr, cs[0]);
      ClimbPeelsRight(h, t - 1, fnode / 2, snode / 2, fr', sr', cs[1..]);
      ClimbStep(h, fnode, Pow2(t) - 1, fr, sr, cs[..|cs| - 1]);
      assert cs[..|cs| - 1][1..] == cs[1..][..|cs| - 2];
    }
  }

  /** The first tree ends right of the split: the last element is the whole left
      subtree of both trees. `p` is the weight of the bit the two indices share. */
  lemma {:induction false} ClimbPeelsLeft(h: Hasher, t: nat, p: nat, f: nat, s: nat,
                                          fr: Digest, sr: Digest, cs: seq<Digest>)
    requires p == Pow2(t) && f <= s < p && cs != []
    ensures Climb(h, f + p, s + p, fr, sr, cs)
            == AddLeft(h, Climb(h, f, s, fr, sr, cs[..|cs| - 1]), cs[|cs| - 1])
    decreases t
  {
    if t == 0 {
      ClimbStep(h, f + p, s + p, fr, sr, cs);
    } else {
      var q := Pow2(t - 1);
      assert (f + p) / 2 == f / 2 + q && (s + p) / 2 == s / 2 + q && (f + p) % 2 == f % 2;
      if f % 2 == 0 && f == s {
        ClimbPeelsLeft(h, t - 1, q, f / 2, s / 2, fr, sr, cs);
        ClimbHalve(h, f + p, fr, sr, cs);
        ClimbHalve(h, f, fr, sr, cs[..|cs| - 1]);
      } else {
        ClimbPeelsLeftByStep(h, t, p, q, f, s, fr, sr, cs);
      }
    }
  }

  lemma {:induction false} ClimbPeelsLeftByStep(h: Hasher, t: nat, p: nat, q: nat, f: nat, s: nat,
                                                fr: Digest, sr: Digest, cs: seq<Digest>)
    requires t > 0 && p == Pow2(t) == 2 * q && q == Pow2(t - 1)
    requires f <= s < p && cs != [] && (f % 2 == 1 || f != s)
    requires (f + p) / 2 == f / 2 + q && (s + p) / 2 == s / 2 + q && (f + p) % 2 == f % 2
    ensures Climb(h, f + p, s + p, fr, sr, cs)
            == AddLeft(h, Climb(h, f, s, fr, sr, cs[..|cs| - 1]), cs[|cs| - 1])
    decreases t, 0
  {
    hide Climb, Pow2;
    ClimbStep(h, f + p, s + p, fr, sr, cs);
    var (fr', sr') := Step(h, f, fr, sr, cs[0]);
    if |cs| == 1 {
      assert cs[1..] == [] == cs[..|cs| - 1];
      ClimbEnds(h, (f + p) / 2, (s + p) / 2, fr', sr');
      ClimbEnds(h, f, s, fr, sr);
    } else {
      ClimbPeelsLeft(h, t - 1, q, f / 2, s / 2, fr', sr', cs[1..]);
      ClimbStep(h, f, s, fr, sr, cs[..|cs| - 1]);
      assert cs[..|cs| - 1][1..] == cs[1..][..|cs| - 2];
    }
  }

  lemma {:induction false} ClimbFromPeelsRight(h: Hasher, t: nat, fnode: nat, snode: nat, full: seq<Digest>)
    requires fnode < Pow2(t) <= snode < 2 * Pow2(t) && full != []
    ensures ClimbFrom(h, fnode, snode, full)
            == if |full| == 1 then None
               else AddRight(h, ClimbFrom(h, fnode, Pow2(t) - 1, full[..|full| - 1]), full[|full| - 1])
    decreases t
  {
    if fnode % 2 == 1 {
      ClimbFromPeelsRight(h, t - 1, fnode / 2, snode / 2, full);
    } else if |full| > 1 {
      ClimbPeelsRight(h, t, fnode, snode, full[0], full[0], full[1..]);
      assert full[..|full| - 1][1..] == full[1..][..|full| - 2];
    }
  }

  lemma {:induction false} ClimbFromPeelsLeft(h: Hasher, t: nat, p: nat, f: nat, s: nat, full: seq<Digest>)
    requires p == Pow2(t) && f < s < p && full != []
    ensures ClimbFrom(h, f + p, s + p, full)
            == if |full| == 1 then None
               else AddLeft(h, ClimbFrom(h, f, s, full[..|full| - 1]), full[|full| - 1])
    decreases t
  {
    var q := Pow2(t - 1);
    assert (f + p) / 2 == f / 2 + q && (s + p) / 2 == s / 2 + q && (f + p) % 2 == f % 2;
    if f % 2 == 1 {
      ClimbFromPeelsLeft(h, t - 1, q, f / 2, s / 2, full);
    } else if |full| > 1 {
      ClimbPeelsLeft(h, t, p, f, s, full[0], full[0], full[1..]);
      assert full[..|full| - 1][1..] == full[1..][..|full| - 2];
    }
  }

  /** A perfect first tree is left at its own root, with nothing to consume. */
  lemma {:induction false} ClimbFromPerfect(h: Hasher, t: nat, full: seq<Digest>)
    requires full != []
    ensures ClimbFrom(h, Pow2(t) - 1, Pow2(t) - 1, full)
            == if |full| == 1 then Some((full[0], full[0])) else None
  {
    if t > 0 {
      assert (Pow2(t) - 1) / 2 == Pow2(t - 1) - 1;
      ClimbFromPerfect(h, t - 1, full);
    }
  }

  /** The index arithmetic of the loops reads every path exactly as the recursive
      splits do. */
  lemma {:induction false} ClimbIsRebuild(h: Hasher, m: nat, n: nat, full: seq<Digest>)
    requires 0 < m < n && full != []
    ensures ClimbFrom(h, m - 1, n - 1, full) == Rebuild(h, m, n, full)
    decreases n
  {
    hide Climb, ClimbFrom, Pow2, SplitLevel;
    var t, k, rest := SplitLevel(n), Split(n), full[..|full| - 1];
    if m <= k {
      ClimbFromPeelsRight(h, t, m - 1, n - 1, full);
      if rest != [] {
        if m == k { ClimbFromPerfect(h, t, rest); } else { ClimbIsRebuild(h, m, k, rest); }
      }
    } else {
      ClimbFromPeelsLeft(h, t, k, m - 1 - k, n - 1 - k, full);
      if rest != [] { ClimbIsRebuild(h, m - k, n - k, rest); }
    }
  }

  // ---------------------------------------------------------------------------
  // The verifier
  // ---------------------------------------------------------------------------

  /** Step 2: a perfect first tree is a node the log does not send. */
  function Full(m: nat, r1: Digest, path: seq<Digest>): seq<Digest> {
    if IsPow2(m) then [r1] + path else path
  }

  /** What an accepted path claims, over all sizes. */
  predicate Accepts(h: Hasher, m: nat, n: nat, r1: Digest, r2: Digest, path: seq<Digest>) {
    if m > n then false
    else if m == 0 then path == [] && r1 == h.emptyRoot
    else if m == n then path == [] && r1 == r2
    else path != [] && Rebuild(h, m, n, Full(m, r1, path)) == Some((r1, r2))
  }

  /** Steps 3 to 7 of `verifyConsistency`, loop for loop: the two roots the path
      rebuilds, or None where a step refuses it. `uint64` shifts are halvings. */
  method FoldPath(h: Hasher, first: nat, second: nat, full: seq<Digest>) returns (roots: Option<(Digest, Digest)>)
    requires 0 < first < second && full != []
    ensures roots == Rebuild(h, first, second, full)
  {
    ClimbIsRebuild(h, first, second, full);
    ghost var target := Rebuild(h, first, second, full);
    var fnode: nat, snode: nat := first - 1, second - 1;
    while fnode % 2 == 1
      invariant ClimbFrom(h, fnode, snode, full) == target
      decreases fnode
    {
      fnode, snode := fnode / 2, snode / 2;
    }
    var fr, sr := full[0], full[0];
    for i := 1 to |full|
      invariant Climb(h, fnode, snode, fr, sr, full[i..]) == target
    {
      var c := full[i];
      assert full[i..][1..] == full[i + 1..];
      if snode == 0 { return None; }
      if fnode % 2 == 1 || fnode == snode {
        ghost var fr0, sr0 := fr, sr;
        fr, sr := h.node(c, fr), h.node(c, sr);
        while fnode % 2 == 0 && fnode != 0
          invariant snode != 0 && (fnode % 2 == 1 || fnode == snode)
          invariant Climb(h, fnode, snode, fr0, sr0, full[i..]) == target
          decreases fnode
        {
          ClimbHalve(h, fnode, fr0, sr0, full[i..]);
          fnode, snode := fnode / 2, snode / 2;
        }
        ClimbStep(h, fnode, snode, fr0, sr0, full[i..]);
      } else {
        ClimbStep(h, fnode, snode, fr, sr, full[i..]);
        sr := h.node(sr, c);
      }
      fnode, snode := fnode / 2, snode / 2;
    }
    return if snode == 0 then Some((fr, sr)) else None;
  }

  /** `verifyConsistency`. */
  method VerifyConsistency(h: Hasher, first: nat, second: nat, firstHash: Digest, secondHash: Digest,
                           path: seq<Digest>) returns (ok: bool)
    ensures ok <==> Accepts(h, first, second, firstHash, secondHash, path)
    ensures first > second ==> !ok
    ensures first == second > 0 ==> (ok <==> path == [] && firstHash == secondHash)
  {
    if first > second { return false; }
    if first == 0 { return path == [] && firstHash == h.emptyRoot; }
    if first == second { return path == [] && firstHash == secondHash; }
    if path == [] { return false; }
    var full := [];
    if IsPow2(first) { full := full + [firstHash]; }
    full := full + path;
    assert full == Full(first, firstHash, path);
    var roots := FoldPath(h, first, second, full);
    ok := roots == Some((firstHash, secondHash));
  }

  // ---------------------------------------------------------------------------
  // Served paths
  // ---------------------------------------------------------------------------

  /** Every node of a served path is 32 hex bytes. */
  predicate Decoded(path: seq<Option<Digest>>) {
    forall i | 0 <= i < |path| :: path[i].Some?
  }

  function Values(path: seq<Option<Digest>>): (v: seq<Digest>)
    requires Decoded(path)
    ensures |v| == |path|
  {
    seq(|path|, i requires 0 <= i < |path| => path[i].value)
  }

  // ---------------------------------------------------------------------------
  // What an accepted path proves
  // ---------------------------------------------------------------------------

  lemma {:induction false} IsPow2Pow2(n: nat) returns (t: nat)
    requires IsPow2(n)
    ensures n == Pow2(t)
  {
    if n == 1 { return 0; }
    var s := IsPow2Pow2(n / 2);
    return s + 1;
  }

  lemma {:induction false} NoPow2Between(t: nat, n: nat)
    requires Pow2(t) < n < 2 * Pow2(t)
    ensures !IsPow2(n)
  {
    if IsPow2(n) {
      var s := IsPow2Pow2(n);
      if s < t { Pow2Monotone(s, t); } else if t < s { Pow2Monotone(t, s); }
    }
  }

  lemma SplitOfPrefix(n: nat, m: nat)
    requires 2 <= n && Split(n) < m <= n
    ensures m >= 2 && Split(m) == Split(n)
  {
    SplitLevelUnique(m, SplitLevel(n));
  }

  /** Past the split, the first tree splits where the second one does. */
  lemma MthOfPrefix(h: Hasher, d: seq<Bytes>, m: nat)
    requires 2 <= |d| && Split(|d|) < m <= |d|
    ensures Mth(h, d[..m]) == h.node(Mth(h, d[..Split(|d|)]), Mth(h, d[Split(|d|)..][..m - Split(|d|)]))
  {
    hide Mth, Split, SplitLevel, Pow2;
    var k := Split(|d|);
    SplitOfPrefix(|d|, m);
    MthSplits(h, d[..m]);
    assert d[..m][..k] == d[..k];
    assert d[..m][k..] == d[k..][..m - k];
  }

  /** The honest path with the node the log leaves out put back. */
  function HonestFull(h: Hasher, m: nat, d: seq<Bytes>): seq<Digest>
    requires 0 < m <= |d|
    decreases |d|
  {
    if m == |d| then [Mth(h, d)]
    else
      var k := Split(|d|);
      if m <= k then HonestFull(h, m, d[..k]) + [Mth(h, d[k..])]
      else HonestFull(h, m - k, d[k..]) + [Mth(h, d[..k])]
  }

  lemma HonestSplits(h: Hasher, m: nat, d: seq<Bytes>)
    requires 0 < m <= |d|
    ensures HonestFull(h, m, d)
            == if m == |d| then [Mth(h, d)]
               else if m <= Split(|d|) then HonestFull(h, m, d[..Split(|d|)]) + [Mth(h, d[Split(|d|)..])]
               else HonestFull(h, m - Split(|d|), d[Split(|d|)..]) + [Mth(h, d[..Split(|d|)])]
  {}

  lemma {:induction false} SubProofIsHonest(h: Hasher, m: nat, d: seq<Bytes>)
    requires 0 < m <= |d|
    ensures SubProof(h, m, d, false) == HonestFull(h, m, d)
    decreases |d|
  {
    if m < |d| {
      var k := Split(|d|);
      if m <= k { SubProofIsHonest(h, m, d[..k]); } else { SubProofIsHonest(h, m - k, d[k..]); }
    }
  }

  /** The prover leaves out exactly the node step 2 puts back. */
  lemma {:induction false} ProofIsHonest(h: Hasher, m: nat, d: seq<Bytes>)
    requires 0 < m < |d|
    ensures Full(m, Mth(h, d[..m]), Proof(h, m, d)) == HonestFull(h, m, d)
    ensures Proof(h, m, d) != []
    decreases |d|
  {
    var t, k := SplitLevel(|d|), Split(|d|);
    if m < k {
      assert d[..k][..m] == d[..m];
      ProofIsHonest(h, m, d[..k]);
      assert Proof(h, m, d) == Proof(h, m, d[..k]) + [Mth(h, d[k..])];
    } else if m == k {
      Pow2IsPow2(t);
      assert HonestFull(h, k, d[..k]) == [Mth(h, d[..k])] && SubProof(h, k, d[..k], true) == [];
    } else {
      NoPow2Between(t, m);
      SubProofIsHonest(h, m - k, d[k..]);
    }
  }

  lemma RebuildSnoc(h: Hasher, m: nat, n: nat, rest: seq<Digest>, last: Digest)
    requires 0 < m < n
    ensures var k := Split(n);
            Rebuild(h, m, n, rest + [last])
            == if m <= k then AddRight(h, Rebuild(h, m, k, rest), last)
               else AddLeft(h, Rebuild(h, m - k, n - k, rest), last)
  {
    assert (rest + [last])[..|rest|] == rest;
  }

  /** The honest path rebuilds both true roots, whatever the hash functions are. */
  lemma {:induction false} HonestRebuilds(h: Hasher, m: nat, d: seq<Bytes>)
    requires 0 < m <= |d|
    ensures Rebuild(h, m, |d|, HonestFull(h, m, d)) == Some((Mth(h, d[..m]), Mth(h, d)))
    decreases |d|
  {
    hide Mth, Split;
    if m == |d| {
      assert d[..m] == d;
    } else {
      var k := Split(|d|);
      MthSplits(h, d);
      if m <= k {
        RebuildSnoc(h, m, |d|, HonestFull(h, m, d[..k]), Mth(h, d[k..]));
        HonestRebuilds(h, m, d[..k]);
        assert d[..k][..m] == d[..m];
      } else {
        RebuildSnoc(h, m, |d|, HonestFull(h, m - k, d[k..]), Mth(h, d[..k]));
        HonestRebuilds(h, m - k, d[k..]);
        MthOfPrefix(h, d, m);
      }
    }
  }

  /** With collision-free nodes, only the honest path reaches the true second
      root, and then the first root it rebuilds is the true one. */
  lemma {:induction false} OnlyHonestRebuilds(h: Hasher, m: nat, d: seq<Bytes>, full: seq<Digest>, r1: Digest)
    requires NodeInjective(h) && 0 < m <= |d|
    requires Rebuild(h, m, |d|, full) == Some((r1, Mth(h, d)))
    ensures full == HonestFull(h, m, d) && r1 == Mth(h, d[..m])
    decreases |d|
  {
    hide Mth, Split, HonestFull;
    if m == |d| {
      assert d[..m] == d;
      assert HonestFull(h, m, d) == [Mth(h, d)] by { HonestSplits(h, m, d); }
    } else {
      MthSplits(h, d);
      HonestSplits(h, m, d);
      var k, rest, last := Split(|d|), full[..|full| - 1], full[|full| - 1];
      assert full == rest + [last];
      RebuildSnoc(h, m, |d|, rest, last);
      if m <= k {
        OnlyHonestRebuilds(h, m, d[..k], rest, r1);
        assert d[..k][..m] == d[..m];
      } else {
        var (f, s) := Rebuild(h, m - k, |d| - k, rest).value;
        OnlyHonestRebuilds(h, m - k, d[k..], rest, f);
        MthOfPrefix(h, d, m);
      }
    }
  }

  /** Completeness, for every hash function and every pair of sizes. */
  lemma Completeness(h: Hasher, m: nat, d: seq<Bytes>)
    requires m <= |d|
    ensures Accepts(h, m, |d|, Mth(h, d[..m]), Mth(h, d), Proof(h, m, d))
  {
    if m == |d| {
      assert d[..m] == d;
    } else if m > 0 {
      ProofIsHonest(h, m, d);
      HonestRebuilds(h, m, d);
    }
  }

  /** Soundness and the forced shape of a proof: against the true second root the
      verifier accepts one first root and one path, the honest ones, and no first size
      past the second. */
  lemma Soundness(h: Hasher, m: nat, d: seq<Bytes>, r1: Digest, path: seq<Digest>)
    requires NodeInjective(h)
    ensures Accepts(h, m, |d|, r1, Mth(h, d), path)
            <==> m <= |d| && r1 == Mth(h, d[..m]) && path == Proof(h, m, d)
  {
    if m <= |d| { Completeness(h, m, d); }
    if Accepts(h, m, |d|, r1, Mth(h, d), path) {
      if m == |d| {
        assert d[..m] == d;
      } else if m > 0 {
        ProofIsHonest(h, m, d);
        OnlyHonestRebuilds(h, m, d, Full(m, r1, path), r1);
        if IsPow2(m) {
          assert path == Full(m, r1, path)[1..];
          assert Proof(h, m, d) == Full(m, r1, Proof(h, m, d))[1..];
        }
      }
    }
  }

  /** The number of nodes on the climb, which the two sizes alone decide. */
  function Depth(m: nat, n: nat): nat
    requires 0 < m <= n
    decreases n
  {
    if m == n then 1
    else if m <= Split(n) then Depth(m, Split(n)) + 1
    else Depth(m - Split(n), n - Split(n)) + 1
  }

  function CeilLog2(n: nat): nat
    requires n >= 1
  {
    if n == 1 then 0 else SplitLevel(n) + 1
  }

  lemma {:induction false} DepthBound(m: nat, n: nat, t: nat)
    requires 0 < m <= n <= Pow2(t)
    ensures Depth(m, n) <= t + 1
    decreases n
  {
    if m < n {
      var s := SplitLevel(n);
      if t <= s {
        if t < s { Pow2Monotone(t, s); }
        assert false;
      }
      if m <= Split(n) { DepthBound(m, Split(n), s); } else { DepthBound(m - Split(n), n - Split(n), s); }
    }
  }

  lemma {:induction false} RebuildLength(h: Hasher, m: nat, n: nat, full: seq<Digest>)
    requires 0 < m <= n && Rebuild(h, m, n, full).Some?
    ensures |full| == Depth(m, n)
    decreases n
  {
    if m < n {
      var k, rest := Split(n), full[..|full| - 1];
      if m <= k { RebuildLength(h, m, k, rest); } else { RebuildLength(h, m - k, n - k, rest); }
    }
  }

  /** For any roots and any hash functions, an accepted path has the length the
      two sizes decide, at most `ceil(log2 n) + 1`. */
  lemma PathLength(h: Hasher, m: nat, n: nat, r1: Digest, r2: Digest, path: seq<Digest>)
    requires 0 < m < n && Accepts(h, m, n, r1, r2, path)
    ensures |path| == Depth(m, n) - (if IsPow2(m) then 1 else 0)
    ensures |path| <= CeilLog2(n) + 1
  {
    RebuildLength(h, m, n, Full(m, r1, path));
    DepthBound(m, n, CeilLog2(n));
  }
}
