/** The right edge of the stored tree. A root reads only the nodes on it, an
    append reads only the nodes on it, and so a table that is right there gives
    true roots for ever, whatever its other rows hold. */
module TreeEdge {
  import opened Common
  import opened Rfc9162
  import opened NodeStore

  /** The full subtrees on the right edge of `n` leaves: one per set bit of `n`. */
  predicate OnEdge(n: nat, at: Position) {
    Halve(n, at.0) % 2 == 1 && at.1 == Halve(n, at.0) - 1
  }

  /** Every node on the right edge of `log` is stored with its own hash. */
  ghost predicate EdgeRight(h: Hasher, nodes: Nodes, log: seq<Bytes>) {
    forall at: Position | OnEdge(|log|, at) :: Right(h, nodes, log, at)
  }

  lemma StoredIsRight(h: Hasher, nodes: Nodes, log: seq<Bytes>)
    requires Stored(h, nodes, log)
    ensures EdgeRight(h, nodes, log)
  {
    forall at: Position | OnEdge(|log|, at)
      ensures Right(h, nodes, log, at)
    {
      assert (at.0, at.1) == at;
      assert (at.0, at.1) in nodes;
    }
  }

  lemma {:induction false} EmptyHalves(level: nat)
    ensures Halve(0, level) == 0
  {
    if level > 0 { EmptyHalves(level - 1); }
  }

  lemma EmptyStored(h: Hasher)
    ensures Stored(h, map[], [])
  {
    forall l: nat ensures Halve(0, l) == 0 { EmptyHalves(l); }
  }

  lemma EmptyEdge(h: Hasher, nodes: Nodes)
    ensures EdgeRight(h, nodes, [])
  {
    forall l: nat ensures Halve(0, l) == 0 { EmptyHalves(l); }
  }

  // ---------------------------------------------------------------------------
  // A root reads the edge
  // ---------------------------------------------------------------------------

  lemma Scale(p: nat, a: nat, b: nat)
    requires a <= b
    ensures p * a <= p * b && a * p <= b * p
  {}

  lemma QuotientIs(n: nat, p: nat, q: nat)
    requires p * q <= n < p * q + p
    ensures n / p == q && n % p == n - p * q
  {
    var d := n / p;
    assert n == p * d + n % p;
    if d < q {
      Scale(p, d + 1, q);
    } else if d > q {
      Scale(p, q + 1, d);
    }
  }

  lemma QuotientTwice(n: nat, p: nat)
    requires p > 0
    ensures n / p / 2 == n / (2 * p)
  {
    var d := n / p;
    assert n == p * d + n % p;
    assert p * d == 2 * p * (d / 2) + p * (d % 2);
    QuotientIs(n, 2 * p, d / 2);
  }

  lemma {:induction false} HalveIsQuotient(n: nat, level: nat)
    ensures Halve(n, level) == n / Pow2(level)
  {
    if level > 0 {
      HalveIsQuotient(n, level - 1);
      QuotientTwice(n, Pow2(level - 1));
    }
  }

  /** A smaller power of two divides a larger one an even number of times. */
  lemma {:induction false} Pow2Divides(s: nat, t: nat) returns (e: nat)
    requires s < t
    ensures Pow2(t) == 2 * e * Pow2(s) && e > 0
  {
    if s + 1 == t {
      e := 1;
    } else {
      e := Pow2Divides(s, t - 1);
      assert 2 * (2 * e * Pow2(s)) == 2 * (2 * e) * Pow2(s);
      e := 2 * e;
    }
  }

  /** Halving a multiple of `2^s` stays even below level `s`. */
  lemma EvenBelow(n: nat, s: nat, q: nat, level: nat)
    requires n == q * Pow2(s) && level < s
    ensures Halve(n, level) % 2 == 0
    ensures n == Halve(n, level) * Pow2(level)
  {
    hide Pow2, Halve;
    var e := Pow2Divides(level, s);
    Regroup(q, e, Pow2(level));
    var m := 2 * (q * e);
    QuotientIs(n, Pow2(level), m);
    HalveIsQuotient(n, level);
  }

  lemma Regroup(q: nat, e: nat, p: nat)
    ensures q * (2 * e * p) == 2 * (q * e) * p
  {}

  lemma OddAt(n: nat, level: nat, q: nat)
    requires q * Pow2(level) <= n < q * Pow2(level) + Pow2(level)
    ensures Halve(n, level) == q
  {
    QuotientIs(n, Pow2(level), q);
    HalveIsQuotient(n, level);
  }

  lemma LevelIs(s: nat)
    ensures IsPow2(Pow2(s)) && Level(Pow2(s)) == s
  {
    Pow2IsPow2(s);
    var t := Level(Pow2(s));
    if s < t { Pow2Monotone(s, t); } else if t < s { Pow2Monotone(t, s); }
  }

  lemma ProductBelow(a: nat, b: nat, p: nat)
    requires a * p < b * p
    ensures a < b
  {
    if a >= b { Scale(p, b, a); }
  }

  /** The top node of the edge of `hi` from `lo` on, a multiple of `2^(s+1)` less
      than `2^(s+1)` below `hi`. */
  lemma EdgeTop(lo: nat, hi: nat, s: nat, q: nat)
    requires lo == 2 * q * Pow2(s) && lo + Pow2(s) <= hi < lo + 2 * Pow2(s)
    ensures OnEdge(hi, (s, 2 * q)) && Start(s, 2 * q) == lo
  {
    hide Halve, Start, Pow2;
    assert (2 * q + 1) * Pow2(s) == lo + Pow2(s);
    OddAt(hi, s, 2 * q + 1);
    StartIsProduct(s, 2 * q);
  }

  /** Below its top, the edge of `hi` starts past the middle. */
  lemma EdgeBelowTop(middle: nat, hi: nat, s: nat, q: nat, at: Position)
    requires middle == q * Pow2(s) && middle <= hi && at.0 < s
    requires OnEdge(hi, at)
    ensures Start(at.0, at.1) >= middle
  {
    var (level, index) := at;
    EvenBelow(middle, s, q, level);
    StartIsProduct(level, index);
    HalveMonotone(middle, hi, level);
    hide Halve, Start, Pow2;
    if index * Pow2(level) < middle {
      ProductBelow(index, Halve(middle, level), Pow2(level));
    }
  }

  lemma EdgeAtTop(lo: nat, hi: nat, s: nat, q: nat, at: Position)
    requires lo == 2 * q * Pow2(s) && lo + Pow2(s) <= hi < lo + 2 * Pow2(s)
    requires OnEdge(hi, at) && lo <= Start(at.0, at.1) < lo + Pow2(s)
    ensures at == (s, 2 * q)
  {
    hide Halve, Start, Pow2;
    var (level, index) := at;
    HalveBound(hi, level, index);
    if level > s {
      Pow2Monotone(s, level);
    } else if level < s {
      assert (2 * q + 1) * Pow2(s) == lo + Pow2(s);
      EdgeBelowTop(lo + Pow2(s), hi, s, 2 * q + 1, at);
    } else {
      EdgeTop(lo, hi, s, q);
    }
  }

  lemma {:induction false} HalveMonotone(m: nat, n: nat, level: nat)
    requires m <= n
    ensures Halve(m, level) <= Halve(n, level)
  {
    if level > 0 { HalveMonotone(m, n, level - 1); }
  }

  /** The multiple of `2^(s+1)` that a multiple of a larger power is. */
  lemma TopOf(lo: nat, t: nat, q: nat, s: nat) returns (q': nat)
    requires lo == q * Pow2(t) && Pow2(s) < Pow2(t)
    ensures s < t && lo == 2 * q' * Pow2(s)
  {
    hide Pow2;
    if t < s { Pow2Monotone(t, s); }
    var e := Pow2Divides(s, t);
    q' := q * e;
    assert q * (2 * e * Pow2(s)) == 2 * (q * e) * Pow2(s);
  }

  lemma PerfectRange(lo: nat, s: nat, q: nat)
    requires lo == q * Pow2(s)
    ensures Perfect(lo, lo + Pow2(s)) && PositionOf(lo, lo + Pow2(s)) == (s, q)
  {
    hide Pow2, IsPow2, Level;
    LevelIs(s);
    var p := Pow2(s);
    QuotientIs(lo, p, q);
    assert lo + p - lo == p;
  }

  lemma NotTwice(lo: nat, hi: nat, t: nat, q: nat, s: nat)
    requires lo == q * Pow2(t) && lo < hi < lo + Pow2(t)
    requires hi - lo <= 2 * Pow2(s) && !Perfect(lo, hi)
    ensures hi - lo < 2 * Pow2(s)
  {
    if hi - lo == 2 * Pow2(s) {
      assert Pow2(s + 1) == hi - lo;
      hide Pow2;
      var q' := TopOf(lo, t, q, s + 1);
      PerfectRange(lo, s + 1, 2 * q');
    }
  }

  /** The nodes a root over `lo..hi` reads are the right edge of `hi` from `lo` on. */
  lemma {:induction false} ReadsAreEdge(lo: nat, hi: nat, t: nat, q: nat, at: Position)
    requires lo == q * Pow2(t) && lo < hi < lo + Pow2(t)
    ensures at in Reads(lo, hi) <==> OnEdge(hi, at) && Start(at.0, at.1) >= lo
    decreases hi - lo
  {
    hide OnEdge, Halve, Start, Pow2, SplitLevel, Level;
    if Perfect(lo, hi) {
      var s := Level(hi - lo);
      var q' := TopOf(lo, t, q, s);
      PerfectRange(lo, s, 2 * q');
      EdgeTop(lo, hi, s, q');
      if OnEdge(hi, at) && Start(at.0, at.1) >= lo {
        EdgeEnds(hi, at);
        EdgeAtTop(lo, hi, s, q', at);
      }
    } else {
      var s := SplitLevel(hi - lo);
      var q' := TopOf(lo, t, q, s);
      NotTwice(lo, hi, t, q, s);
      PerfectRange(lo, s, 2 * q');
      EdgeTop(lo, hi, s, q');
      assert (2 * q' + 1) * Pow2(s) == lo + Pow2(s);
      ReadsAreEdge(lo + Pow2(s), hi, s, 2 * q' + 1, at);
      if OnEdge(hi, at) && lo <= Start(at.0, at.1) < lo + Pow2(s) {
        EdgeAtTop(lo, hi, s, q', at);
      }
    }
  }

  lemma EdgeEnds(n: nat, at: Position)
    requires OnEdge(n, at)
    ensures Start(at.0, at.1) < n
  {
    HalveBound(n, at.0, at.1);
  }

  lemma {:induction false} Pow2Above(n: nat) returns (t: nat)
    ensures n < Pow2(t)
  {
    if n == 0 { t := 0; } else {
      t := Pow2Above(n - 1);
      t := t + 1;
    }
  }

  lemma EdgeIsReads(n: nat, at: Position)
    requires n > 0
    ensures at in Reads(0, n) <==> OnEdge(n, at)
  {
    var t := Pow2Above(n);
    ReadsAreEdge(0, n, t, 0, at);
  }

  /** Over the messages of `log` the root is the true one exactly where the right
      edge is right. */
  lemma TrueRootIffEdgeRight(h: Hasher, nodes: Nodes, log: seq<Bytes>)
    requires NodeInjective(h) && log != []
    ensures Root(h, nodes, |log|) == Some(Mth(h, log)) <==> EdgeRight(h, nodes, log)
  {
    hide Root, Mth, OnEdge, Reads, Right;
    TrueRootIffRightEdge(h, nodes, log);
    forall at: Position ensures at in Reads(0, |log|) <==> OnEdge(|log|, at) {
      EdgeIsReads(|log|, at);
    }
  }

  lemma EdgeGivesRoot(h: Hasher, nodes: Nodes, log: seq<Bytes>)
    requires EdgeRight(h, nodes, log)
    ensures Root(h, nodes, |log|) == Some(Mth(h, log))
  {
    hide OnEdge, Reads, Right, SubtreeHash;
    if log != [] {
      forall at | at in Reads(0, |log|) ensures Right(h, nodes, log, at) {
        EdgeIsReads(|log|, at);
      }
      RightNodesGiveMth(h, nodes, log, 0, |log|);
      assert log[0..|log|] == log;
    }
  }

  // ---------------------------------------------------------------------------
  // An append keeps the edge
  // ---------------------------------------------------------------------------

  /** An append under way: the node just put at the end of `level` is right, and
      so are the nodes on the old edge from `level` up. */
  ghost predicate Carrying(h: Hasher, nodes: Nodes, next: seq<Bytes>, level: nat, count: nat) {
    && next != [] && count == Halve(|next|, level) == Halve(|next| - 1, level) + 1
    && Right(h, nodes, next, (level, count - 1))
    && (forall l: nat | l < level :: Halve(|next|, l) % 2 == 0)
    && (forall at: Position | at.0 >= level && OnEdge(|next| - 1, at) :: Right(h, nodes, next, at))
  }

  lemma CarryingStep(h: Hasher, nodes: Nodes, next: seq<Bytes>, level: nat, count: nat)
    requires Carrying(h, nodes, next, level, count) && count % 2 == 0
    ensures (level, count - 2) in nodes
    ensures var parent := h.node(nodes[(level, count - 2)], nodes[(level, count - 1)]);
            (level + 1, count / 2 - 1) !in nodes
            ==> Carrying(h, nodes[(level + 1, count / 2 - 1) := parent], next, level + 1, count / 2)
  {
    assert OnEdge(|next| - 1, (level, count - 2));
    assert Right(h, nodes, next, (level, count - 2));
  }

  lemma CarryingDone(h: Hasher, nodes: Nodes, next: seq<Bytes>, level: nat, count: nat)
    requires Carrying(h, nodes, next, level, count) && count % 2 == 1
    ensures EdgeRight(h, nodes, next)
  {
    forall at: Position | OnEdge(|next|, at)
      ensures Right(h, nodes, next, at)
    {
      if at.0 > level {
        HalveSettles(|next| - 1, level + 1, at.0);
        assert OnEdge(|next| - 1, at);
      } else {
        assert at == (level, count - 1);
      }
    }
  }

  lemma {:induction false} FillUpKeepsEdge(h: Hasher, nodes: Nodes, next: seq<Bytes>, level: nat, count: nat)
    requires Carrying(h, nodes, next, level, count) && count > 0 && (level, count - 1) in nodes
    ensures var grown := FillUp(h, nodes, level, count); grown.Some? ==> EdgeRight(h, grown.value, next)
    decreases count
  {
    hide Carrying, EdgeRight;
    if count % 2 == 1 {
      CarryingDone(h, nodes, next, level, count);
    } else {
      CarryingStep(h, nodes, next, level, count);
      if (level + 1, count / 2 - 1) !in nodes {
        var parent := h.node(nodes[(level, count - 2)], nodes[(level, count - 1)]);
        FillUpKeepsEdge(h, nodes[(level + 1, count / 2 - 1) := parent], next, level + 1, count / 2);
      }
    }
  }

  /** The start of an append: the leaf is in. */
  lemma LeafCarries(h: Hasher, nodes: Nodes, log: seq<Bytes>, entry: Bytes)
    requires EdgeRight(h, nodes, log) && (0, |log|) !in nodes
    ensures Carrying(h, nodes[(0, |log|) := h.leaf(entry)], log + [entry], 0, |log| + 1)
  {
    var put := nodes[(0, |log|) := h.leaf(entry)];
    forall at: Position | OnEdge(|log|, at)
      ensures Right(h, put, log + [entry], at)
    {
      assert Right(h, nodes, log, at);
      NodeAtGrows(h, log, [entry], at.0, at.1);
    }
  }

  /** An append over any table whose right edge is right either fails or leaves a
      table whose right edge is right. */
  lemma AppendKeepsEdge(h: Hasher, nodes: Nodes, log: seq<Bytes>, entry: Bytes)
    requires EdgeRight(h, nodes, log)
    ensures var grown := Append(h, nodes, |log|, h.leaf(entry));
            grown.Some? ==> EdgeRight(h, grown.value, log + [entry])
  {
    if (0, |log|) !in nodes {
      LeafCarries(h, nodes, log, entry);
      FillUpKeepsEdge(h, nodes[(0, |log|) := h.leaf(entry)], log + [entry], 0, |log| + 1);
    }
  }

  lemma {:induction false} GrowKeepsEdge(h: Hasher, nodes: Nodes, log: seq<Bytes>, entries: seq<Bytes>)
    requires EdgeRight(h, nodes, log)
    ensures var grown := Grow(h, nodes, |log|, entries);
            grown.Some? ==> EdgeRight(h, grown.value, log + entries)
    decreases |entries|
  {
    hide EdgeRight, Append;
    if entries == [] {
      assert log + entries == log;
    } else {
      AppendKeepsEdge(h, nodes, log, entries[0]);
      var next := Append(h, nodes, |log|, h.leaf(entries[0]));
      if next.Some? {
        GrowKeepsEdge(h, next.value, log + [entries[0]], entries[1..]);
        assert log + [entries[0]] + entries[1..] == log + entries;
      }
    }
  }

  // ---------------------------------------------------------------------------
  // The shape of a table
  // ---------------------------------------------------------------------------

  /** One past the highest index of a set. */
  ghost function Top(indices: set<nat>): (n: nat)
    ensures forall i | i in indices :: i < n
    ensures n > 0 ==> n - 1 in indices
  {
    if indices == {} then 0 else
    var i :| i in indices;
    var n := Top(indices - {i});
    assert forall j | j in indices :: j == i || j in indices - {i};
    if n > i then n else i + 1
  }

  lemma TopIs(indices: set<nat>, n: nat)
    requires (forall i | i in indices :: i < n) && (n > 0 ==> n - 1 in indices)
    ensures Top(indices) == n
  {}

  ghost function LeafIndices(nodes: Nodes): set<nat> {
    set at | at in nodes && at.0 == 0 :: at.1
  }

  /** `stored_leaves`: `MAX(idx)` at level 0, plus one. */
  ghost function StoredLeaves(nodes: Nodes): nat {
    Top(LeafIndices(nodes))
  }

  /** A table with the last leaf and the number of rows that a tree of `n` leaves has. */
  ghost predicate Shaped(nodes: Nodes, n: nat) {
    StoredLeaves(nodes) == n && |nodes| == NodesIn(n)
  }

  lemma StoredIsShaped(h: Hasher, nodes: Nodes, log: seq<Bytes>)
    requires Stored(h, nodes, log)
    ensures Shaped(nodes, |log|)
  {
    hide NodesIn;
    forall i | i in LeafIndices(nodes) ensures i < |log| {
      assert (0, i) in nodes && Halve(|log|, 0) == |log|;
    }
    if log != [] {
      assert (0, |log| - 1) in nodes;
      assert (0, |log| - 1).1 in LeafIndices(nodes);
    }
    TopIs(LeafIndices(nodes), |log|);
  }

  lemma {:induction false} FillUpShape(h: Hasher, nodes: Nodes, level: nat, count: nat, size: nat)
    requires Carry(size, level, count) && count > 0 && (level, count - 1) in nodes
    requires |nodes| == NodesIn(size) + level + 1 && FillUp(h, nodes, level, count).Some?
    ensures var grown := FillUp(h, nodes, level, count).value;
            |grown| == NodesIn(size + 1) && LeafIndices(grown) == LeafIndices(nodes)
    decreases count
  {
    hide Carry, NodesIn, LeafIndices;
    if count % 2 == 1 {
      CarryDone(size, level, count);
    } else {
      CarryStep(size, level, count);
      var parent := h.node(nodes[(level, count - 2)], nodes[(level, count - 1)]);
      var next: Nodes := nodes[(level + 1, count / 2 - 1) := parent];
      HigherIsNoLeaf(nodes, level + 1, count / 2 - 1, parent);
      FillUpShape(h, next, level + 1, count / 2, size);
    }
  }

  lemma HigherIsNoLeaf(nodes: Nodes, level: nat, index: nat, hash: Digest)
    requires level > 0
    ensures LeafIndices(nodes[(level, index) := hash]) == LeafIndices(nodes)
  {
    var next: Nodes := nodes[(level, index) := hash];
    forall i ensures i in LeafIndices(next) <==> i in LeafIndices(nodes) {
      if i in LeafIndices(next) {
        var at :| at in next && at.0 == 0 && at.1 == i;
        assert at in nodes;
      }
      if i in LeafIndices(nodes) {
        var at :| at in nodes && at.0 == 0 && at.1 == i;
        assert at in next;
      }
    }
  }

  lemma LeafPut(nodes: Nodes, n: nat, leaf: Digest)
    ensures LeafIndices(nodes[(0, n) := leaf]) == LeafIndices(nodes) + {n}
  {
    var put: Nodes := nodes[(0, n) := leaf];
    assert (0, n) in put && (0, n).1 == n;
    forall i | i in LeafIndices(nodes) ensures i in LeafIndices(put) {
      var at :| at in nodes && at.0 == 0 && at.1 == i;
      assert at in put;
    }
  }

  lemma CarryStart(n: nat)
    ensures Carry(n, 0, n + 1)
  {}

  /** An append that succeeds keeps the shape, whatever the rows hold. */
  lemma AppendKeepsShape(h: Hasher, nodes: Nodes, n: nat, leaf: Digest)
    requires Shaped(nodes, n) && Append(h, nodes, n, leaf).Some?
    ensures Shaped(Append(h, nodes, n, leaf).value, n + 1)
  {
    hide NodesIn, Carry, LeafIndices, FillUp, Top;
    var put: Nodes := nodes[(0, n) := leaf];
    CarryStart(n);
    FillUpShape(h, put, 0, n + 1, n);
    LeafPut(nodes, n, leaf);
    TopIs(LeafIndices(put), n + 1);
  }

  lemma {:induction false} GrowKeepsShape(h: Hasher, nodes: Nodes, n: nat, entries: seq<Bytes>)
    requires Shaped(nodes, n) && Grow(h, nodes, n, entries).Some?
    ensures Shaped(Grow(h, nodes, n, entries).value, n + |entries|)
    decreases |entries|
  {
    hide Shaped, Append;
    if entries != [] {
      AppendKeepsShape(h, nodes, n, h.leaf(entries[0]));
      GrowKeepsShape(h, Append(h, nodes, n, h.leaf(entries[0])).value, n + 1, entries[1..]);
    }
  }
}
