/** The consistency proofs a feed serves out of its stored tree, and what a verifier
    makes of them when a node is wrong. */
module ServedProofs {
  import opened Common
  import opened Rfc9162
  import opened Consistency
  import opened NodeStore

  /** `walk_proof`: the proof of section 2.1.4.1 with its hashes read from the table.
      None where a node it needs is missing. */
  function WalkProof(h: Hasher, nodes: Nodes, m: nat, lo: nat, hi: nat, complete: bool): Option<seq<Digest>>
    requires 0 < m && lo + m <= hi
    decreases hi - lo
  {
    if m == hi - lo then
      if complete then Some([])
      else match SubtreeHash(h, nodes, lo, hi) case None => None case Some(hash) => Some([hash])
    else
      var k := Split(hi - lo);
      if m <= k then
        match (WalkProof(h, nodes, m, lo, lo + k, complete), SubtreeHash(h, nodes, lo + k, hi))
        case (Some(path), Some(hash)) => Some(path + [hash])
        case _ => None
      else
        match (WalkProof(h, nodes, m - k, lo + k, hi, false), SubtreeHash(h, nodes, lo, lo + k))
        case (Some(path), Some(hash)) => Some(path + [hash])
        case _ => None
  }

  /** `proof`, between two sizes the tree has reached. */
  function ServedPath(h: Hasher, nodes: Nodes, first: nat, second: nat): Option<seq<Digest>>
    requires first <= second
  {
    if first == 0 || first == second then Some([]) else WalkProof(h, nodes, first, 0, second, true)
  }

  /** The stored nodes a walk reads. */
  function WalkReads(m: nat, lo: nat, hi: nat, complete: bool): set<Position>
    requires 0 < m && lo + m <= hi
    decreases hi - lo
  {
    if m == hi - lo then
      if complete then {} else Reads(lo, hi)
    else
      var k := Split(hi - lo);
      if m <= k then WalkReads(m, lo, lo + k, complete) + Reads(lo + k, hi)
      else WalkReads(m - k, lo + k, hi, false) + Reads(lo, lo + k)
  }

  function PathReads(first: nat, second: nat): set<Position>
    requires first <= second
  {
    if first == 0 || first == second then {} else WalkReads(first, 0, second, true)
  }

  ghost predicate AllRight(h: Hasher, nodes: Nodes, log: seq<Bytes>, positions: set<Position>) {
    forall at | at in positions :: Right(h, nodes, log, at)
  }

  /** A subtree hash is the tree hash where every node it reads is right, and with
      collision-free nodes nowhere else. */
  lemma SubtreeIsMthIffRight(h: Hasher, nodes: Nodes, log: seq<Bytes>, lo: nat, hi: nat)
    requires lo < hi <= |log|
    ensures var same := SubtreeHash(h, nodes, lo, hi) == Some(Mth(h, log[lo..hi]));
            && (AllRight(h, nodes, log, Reads(lo, hi)) ==> same)
            && (NodeInjective(h) && same ==> AllRight(h, nodes, log, Reads(lo, hi)))
  {
    hide Mth, SubtreeHash, Reads, Right, NodeInjective;
    if NodeInjective(h) && SubtreeHash(h, nodes, lo, hi) == Some(Mth(h, log[lo..hi])) {
      TrueRootFixesReads(h, nodes, log, lo, hi);
    }
    if AllRight(h, nodes, log, Reads(lo, hi)) { RightNodesGiveMth(h, nodes, log, lo, hi); }
  }

  lemma AllRightJoin(h: Hasher, nodes: Nodes, log: seq<Bytes>, a: set<Position>, b: set<Position>)
    ensures AllRight(h, nodes, log, a + b) <==> AllRight(h, nodes, log, a) && AllRight(h, nodes, log, b)
  {}

  /** `SUBPROOF` of a range, along the range's own split. */
  lemma SubProofAcross(h: Hasher, log: seq<Bytes>, m: nat, lo: nat, hi: nat, complete: bool)
    requires 0 < m < hi - lo && hi <= |log|
    ensures var k := Split(hi - lo);
            SubProof(h, m, log[lo..hi], complete)
            == if m <= k then SubProof(h, m, log[lo..lo + k], complete) + [Mth(h, log[lo + k..hi])]
               else SubProof(h, m - k, log[lo + k..hi], false) + [Mth(h, log[lo..lo + k])]
  {
    hide Mth, SplitLevel, Pow2;
    var d, k := log[lo..hi], Split(hi - lo);
    assert d[..k] == log[lo..lo + k] && d[k..] == log[lo + k..hi];
  }

  lemma PushEqual<T>(a: seq<T>, x: T, b: seq<T>, y: T)
    ensures a + [x] == b + [y] <==> a == b && x == y
  {
    if a + [x] == b + [y] {
      assert (a + [x])[..|a|] == a && (b + [y])[..|b|] == b;
      assert (a + [x])[|a|] == x && (b + [y])[|b|] == y;
    }
  }

  lemma NothingIsRight(h: Hasher, nodes: Nodes, log: seq<Bytes>)
    ensures AllRight(h, nodes, log, {})
  {}

  /** Whether a path read from the table is the honest one, and its nodes. */
  ghost predicate Walked(h: Hasher, nodes: Nodes, log: seq<Bytes>, path: Option<seq<Digest>>, honest: seq<Digest>,
                         seen: set<Position>)
  {
    && (AllRight(h, nodes, log, seen) ==> path == Some(honest))
    && (NodeInjective(h) && path == Some(honest) ==> AllRight(h, nodes, log, seen))
  }

  function Pushed(path: Option<seq<Digest>>, hash: Option<Digest>): Option<seq<Digest>> {
    match (path, hash)
    case (Some(path), Some(hash)) => Some(path + [hash])
    case _ => None
  }

  /** One element more: the hash of the range `lo..hi`. */
  lemma WalkStep(h: Hasher, nodes: Nodes, log: seq<Bytes>, path: Option<seq<Digest>>, honest: seq<Digest>,
                 seen: set<Position>, lo: nat, hi: nat)
    requires lo < hi <= |log| && Walked(h, nodes, log, path, honest, seen)
    ensures Walked(h, nodes, log, Pushed(path, SubtreeHash(h, nodes, lo, hi)), honest + [Mth(h, log[lo..hi])],
                   seen + Reads(lo, hi))
  {
    hide Mth, SubtreeHash, Reads, AllRight, NodeInjective;
    SubtreeIsMthIffRight(h, nodes, log, lo, hi);
    AllRightJoin(h, nodes, log, seen, Reads(lo, hi));
    var hash := SubtreeHash(h, nodes, lo, hi);
    if path.Some? && hash.Some? { PushEqual(path.value, hash.value, honest, Mth(h, log[lo..hi])); }
  }

  lemma WalkAcross(h: Hasher, nodes: Nodes, m: nat, lo: nat, hi: nat, complete: bool)
    requires 0 < m < hi - lo && lo < hi
    ensures var k := Split(hi - lo);
            && WalkProof(h, nodes, m, lo, hi, complete)
               == (if m <= k then Pushed(WalkProof(h, nodes, m, lo, lo + k, complete), SubtreeHash(h, nodes, lo + k, hi))
                   else Pushed(WalkProof(h, nodes, m - k, lo + k, hi, false), SubtreeHash(h, nodes, lo, lo + k)))
            && WalkReads(m, lo, hi, complete)
               == (if m <= k then WalkReads(m, lo, lo + k, complete) + Reads(lo + k, hi)
                   else WalkReads(m - k, lo + k, hi, false) + Reads(lo, lo + k))
  {
    hide SubtreeHash, Reads, SplitLevel, Pow2;
  }

  /** Nothing left to split. */
  lemma WalkEnds(h: Hasher, nodes: Nodes, log: seq<Bytes>, lo: nat, hi: nat, complete: bool)
    requires lo < hi <= |log|
    ensures Walked(h, nodes, log, WalkProof(h, nodes, hi - lo, lo, hi, complete),
                   SubProof(h, hi - lo, log[lo..hi], complete), WalkReads(hi - lo, lo, hi, complete))
  {
    hide Mth, SubtreeHash, Reads, AllRight, NodeInjective;
    NothingIsRight(h, nodes, log);
    SubtreeIsMthIffRight(h, nodes, log, lo, hi);
  }

  /** What is read from the table is the RFC's proof where every node read is right,
      and with collision-free nodes nowhere else. */
  lemma {:induction false} WalkIsSubProofIffRight(h: Hasher, nodes: Nodes, log: seq<Bytes>, m: nat, lo: nat, hi: nat,
                                                  complete: bool)
    requires 0 < m && lo + m <= hi <= |log|
    ensures Walked(h, nodes, log, WalkProof(h, nodes, m, lo, hi, complete), SubProof(h, m, log[lo..hi], complete),
                   WalkReads(m, lo, hi, complete))
    decreases hi - lo
  {
    hide Mth, SubtreeHash, Reads, Walked, WalkProof, WalkReads, SubProof, SplitLevel, Pow2, Pushed;
    if m == hi - lo {
      WalkEnds(h, nodes, log, lo, hi, complete);
    } else {
      var k := Split(hi - lo);
      SubProofAcross(h, log, m, lo, hi, complete);
      WalkAcross(h, nodes, m, lo, hi, complete);
      if m <= k {
        WalkIsSubProofIffRight(h, nodes, log, m, lo, lo + k, complete);
        WalkStep(h, nodes, log, WalkProof(h, nodes, m, lo, lo + k, complete),
                 SubProof(h, m, log[lo..lo + k], complete), WalkReads(m, lo, lo + k, complete), lo + k, hi);
      } else {
        WalkIsSubProofIffRight(h, nodes, log, m - k, lo + k, hi, false);
        WalkStep(h, nodes, log, WalkProof(h, nodes, m - k, lo + k, hi, false),
                 SubProof(h, m - k, log[lo + k..hi], false), WalkReads(m - k, lo + k, hi, false), lo, lo + k);
      }
    }
  }

  /** Whether a verifier that holds the two true roots accepts the served proof. */
  predicate Serves(h: Hasher, nodes: Nodes, log: seq<Bytes>, first: nat, second: nat)
    requires first <= second <= |log|
  {
    var path := ServedPath(h, nodes, first, second);
    path.Some? && Accepts(h, first, second, Mth(h, log[..first]), Mth(h, log[..second]), path.value)
  }

  /** A proof read from right nodes is accepted, with any hash functions; with
      collision-free nodes no other served proof is. */
  lemma ServedProofVerdict(h: Hasher, nodes: Nodes, log: seq<Bytes>, first: nat, second: nat)
    requires first <= second <= |log|
    ensures AllRight(h, nodes, log, PathReads(first, second)) ==> Serves(h, nodes, log, first, second)
    ensures NodeInjective(h) && Serves(h, nodes, log, first, second) ==> AllRight(h, nodes, log, PathReads(first, second))
  {
    hide Mth, Accepts, AllRight, NodeInjective, SubtreeHash, Reads, SubProof, WalkProof, WalkReads;
    var d := log[..second];
    assert d[..first] == log[..first];
    NothingIsRight(h, nodes, log);
    Completeness(h, first, d);
    if 0 < first < second {
      assert log[0..second] == d;
      WalkIsSubProofIffRight(h, nodes, log, first, 0, second, true);
      var path := ServedPath(h, nodes, first, second);
      if path.Some? && NodeInjective(h) { Soundness(h, first, d, Mth(h, d[..first]), path.value); }
    }
  }

  lemma {:induction false} WalkReadsInside(h: Hasher, log: seq<Bytes>, m: nat, lo: nat, hi: nat, complete: bool,
                                           at: Position)
    requires 0 < m && lo + m <= hi <= |log| && at in WalkReads(m, lo, hi, complete)
    ensures at.1 < Halve(|log|, at.0)
    decreases hi - lo
  {
    hide Halve, Reads;
    if m == hi - lo {
      ReadsInside(h, log, lo, hi);
    } else {
      var k := Split(hi - lo);
      if m <= k {
        ReadsInside(h, log, lo + k, hi);
        if at in WalkReads(m, lo, lo + k, complete) { WalkReadsInside(h, log, m, lo, lo + k, complete, at); }
      } else {
        ReadsInside(h, log, lo, lo + k);
        if at in WalkReads(m - k, lo + k, hi, false) { WalkReadsInside(h, log, m - k, lo + k, hi, false, at); }
      }
    }
  }

  /** Out of a whole tree every served proof is accepted. */
  lemma WholeTreeServes(h: Hasher, nodes: Nodes, log: seq<Bytes>, first: nat, second: nat)
    requires Faithful(h, nodes, log) && first <= second <= |log|
    ensures Serves(h, nodes, log, first, second)
  {
    hide Serves, WalkReads, Halve, NodeAt;
    ServedProofVerdict(h, nodes, log, first, second);
    forall p | p in PathReads(first, second) ensures Right(h, nodes, log, p) {
      WalkReadsInside(h, log, first, 0, second, true, p);
      assert (p.0, p.1) == p;
    }
  }

  /** One rewritten node of a whole tree: a served proof is refused exactly where it
      reads that node. */
  lemma RewrittenNodeSpoilsProofs(h: Hasher, nodes: Nodes, log: seq<Bytes>, at: Position, x: Digest, first: nat,
                                  second: nat)
    requires NodeInjective(h) && Faithful(h, nodes, log) && at in nodes && x != nodes[at]
    requires first <= second <= |log|
    ensures Serves(h, nodes[at := x], log, first, second) <==> at !in PathReads(first, second)
  {
    hide NodeInjective, Serves, WalkReads, Halve, NodeAt;
    var wrong := nodes[at := x];
    ServedProofVerdict(h, wrong, log, first, second);
    assert (at.0, at.1) == at;
    assert !Right(h, wrong, log, at);
    forall p | p in PathReads(first, second) && p != at ensures Right(h, wrong, log, p) {
      WalkReadsInside(h, log, first, 0, second, true, p);
      assert (p.0, p.1) == p;
    }
  }
}
