/** The stored tree: one node per perfect subtree, appended to and never
    rewritten, and the root read back over its right edge. */
module NodeStore {
  import opened Common
  import opened Rfc9162

  /** `(level, index)`: the subtree of `2^level` leaves that starts at leaf
      `index * 2^level`. */
  type Position = (nat, nat)

  type Nodes = map<Position, Digest>

  /** How many perfect subtrees of `2^level` leaves a tree of `n` leaves holds. */
  function Halve(n: nat, level: nat): nat {
    if level == 0 then n else Halve(n, level - 1) / 2
  }

  /** The hash that belongs at a position. */
  function NodeAt(h: Hasher, log: seq<Bytes>, level: nat, index: nat): Digest
    requires index < Halve(|log|, level)
  {
    if level == 0 then h.leaf(log[index])
    else h.node(NodeAt(h, log, level - 1, 2 * index), NodeAt(h, log, level - 1, 2 * index + 1))
  }

  /** The table holds exactly the perfect subtrees of `log`, each with its hash. */
  ghost predicate Faithful(h: Hasher, nodes: Nodes, log: seq<Bytes>) {
    && (forall l: nat, i: nat :: (l, i) in nodes <==> i < Halve(|log|, l))
    && (forall l: nat, i: nat | i < Halve(|log|, l) :: nodes[(l, i)] == NodeAt(h, log, l, i))
  }

  // ---------------------------------------------------------------------------
  // Positions and ranges
  // ---------------------------------------------------------------------------

  /** The first leaf under a position. */
  function Start(level: nat, index: nat): nat {
    if level == 0 then index else Start(level - 1, 2 * index)
  }

  lemma {:induction false} StartNext(level: nat, index: nat)
    ensures Start(level, index + 1) == Start(level, index) + Pow2(level)
  {
    if level > 0 {
      StartNext(level - 1, 2 * index);
      StartNext(level - 1, 2 * index + 1);
    }
  }

  lemma {:induction false} StartIsProduct(level: nat, index: nat)
    ensures Start(level, index) == index * Pow2(level)
  {
    if level > 0 { StartIsProduct(level - 1, 2 * index); }
  }

  /** A position is stored once its last leaf is there. */
  lemma {:induction false} HalveBound(n: nat, level: nat, index: nat)
    ensures index < Halve(n, level) <==> Start(level, index) + Pow2(level) <= n
    decreases level
  {
    if level > 0 {
      HalveBound(n, level - 1, 2 * index + 1);
      StartNext(level - 1, 2 * index);
    }
  }

  /** A range of `2^level` leaves splits in its middle. */
  lemma MthHalves(h: Hasher, d: seq<Bytes>, level: nat)
    requires level > 0 && |d| == Pow2(level)
    ensures var q := Pow2(level - 1);
            |d| == 2 * q && Mth(h, d) == h.node(Mth(h, d[..q]), Mth(h, d[q..]))
  {
    SplitLevelUnique(|d|, level - 1);
  }

  /** The leaves under a position. */
  function Under(log: seq<Bytes>, level: nat, index: nat): (d: seq<Bytes>)
    requires index < Halve(|log|, level)
    ensures |d| == Pow2(level)
  {
    HalveBound(|log|, level, index);
    log[Start(level, index)..Start(level, index) + Pow2(level)]
  }

  lemma UnderHalves(log: seq<Bytes>, level: nat, index: nat)
    requires level > 0 && index < Halve(|log|, level)
    ensures Under(log, level, index)[..Pow2(level - 1)] == Under(log, level - 1, 2 * index)
    ensures Under(log, level, index)[Pow2(level - 1)..] == Under(log, level - 1, 2 * index + 1)
  {
    StartNext(level - 1, 2 * index);
    HalveBound(|log|, level, index);
  }

  /** A stored node is the tree hash of its range. */
  lemma {:induction false} NodeAtIsMth(h: Hasher, log: seq<Bytes>, level: nat, index: nat)
    requires index < Halve(|log|, level)
    ensures NodeAt(h, log, level, index) == Mth(h, Under(log, level, index))
    decreases level
  {
    if level == 0 {
      assert Under(log, 0, index) == [log[index]];
    } else {
      NodeAtIsMth(h, log, level - 1, 2 * index);
      NodeAtIsMth(h, log, level - 1, 2 * index + 1);
      hide Mth;
      UnderHalves(log, level, index);
      MthHalves(h, Under(log, level, index), level);
    }
  }

  /** A node depends on nothing past its own range. */
  lemma {:induction false} NodeAtGrows(h: Hasher, log: seq<Bytes>, more: seq<Bytes>, level: nat, index: nat)
    requires index < Halve(|log|, level)
    ensures index < Halve(|log + more|, level)
    ensures NodeAt(h, log + more, level, index) == NodeAt(h, log, level, index)
    decreases level
  {
    if level > 0 {
      NodeAtGrows(h, log, more, level - 1, 2 * index);
      NodeAtGrows(h, log, more, level - 1, 2 * index + 1);
    }
  }

  // ---------------------------------------------------------------------------
  // The root, read back
  // ---------------------------------------------------------------------------

  function Level(size: nat): (t: nat)
    requires IsPow2(size)
    ensures Pow2(t) == size
  {
    if size == 1 then 0 else Level(size / 2) + 1
  }

  predicate Perfect(lo: nat, hi: nat)
    requires lo < hi
  {
    IsPow2(hi - lo) && lo % (hi - lo) == 0
  }

  function PositionOf(lo: nat, hi: nat): Position
    requires lo < hi && Perfect(lo, hi)
  {
    (Level(hi - lo), lo / (hi - lo))
  }

  /** `subtree_hash`: a perfect aligned range is one stored node, any other range
      splits. None where a node it needs is missing. */
  function SubtreeHash(h: Hasher, nodes: Nodes, lo: nat, hi: nat): Option<Digest>
    requires lo < hi
    decreases hi - lo
  {
    if Perfect(lo, hi) then
      if PositionOf(lo, hi) in nodes then Some(nodes[PositionOf(lo, hi)]) else None
    else
      var k := Split(hi - lo);
      match (SubtreeHash(h, nodes, lo, lo + k), SubtreeHash(h, nodes, lo + k, hi))
      case (Some(l), Some(r)) => Some(h.node(l, r))
      case _ => None
  }

  /** `mth` over the first `size` leaves. */
  function Root(h: Hasher, nodes: Nodes, size: nat): Option<Digest> {
    if size == 0 then Some(h.emptyRoot) else SubtreeHash(h, nodes, 0, size)
  }

  /** The stored nodes a root over `lo..hi` reads. */
  function Reads(lo: nat, hi: nat): set<Position>
    requires lo < hi
    decreases hi - lo
  {
    if Perfect(lo, hi) then {PositionOf(lo, hi)}
    else Reads(lo, lo + Split(hi - lo)) + Reads(lo + Split(hi - lo), hi)
  }

  /** A position of the table that holds its own hash. */
  predicate Right(h: Hasher, nodes: Nodes, log: seq<Bytes>, at: Position) {
    at in nodes && at.1 < Halve(|log|, at.0) && nodes[at] == NodeAt(h, log, at.0, at.1)
  }

  /** A perfect aligned range is the range under its position. */
  lemma PerfectIsUnder(h: Hasher, log: seq<Bytes>, lo: nat, hi: nat)
    requires lo < hi <= |log| && Perfect(lo, hi)
    ensures var (level, index) := PositionOf(lo, hi);
            index < Halve(|log|, level) && NodeAt(h, log, level, index) == Mth(h, log[lo..hi])
  {
    hide Mth, NodeAt, Start, Halve, Pow2;
    var (level, index) := PositionOf(lo, hi);
    assert index * (hi - lo) == lo;
    StartIsProduct(level, index);
    HalveBound(|log|, level, index);
    NodeAtIsMth(h, log, level, index);
  }

  lemma MthAcross(h: Hasher, log: seq<Bytes>, lo: nat, hi: nat)
    requires lo < hi <= |log| && hi - lo >= 2
    ensures var k := Split(hi - lo);
            Mth(h, log[lo..hi]) == h.node(Mth(h, log[lo..lo + k]), Mth(h, log[lo + k..hi]))
  {
    hide Split, SplitLevel;
    var d, k := log[lo..hi], Split(hi - lo);
    MthSplits(h, d);
    hide Mth;
    assert d[..k] == log[lo..lo + k] && d[k..] == log[lo + k..hi];
  }

  /** Right nodes give the true root, for every tree size they cover. */
  lemma {:induction false} RightNodesGiveMth(h: Hasher, nodes: Nodes, log: seq<Bytes>, lo: nat, hi: nat)
    requires lo < hi <= |log|
    requires forall at | at in Reads(lo, hi) :: Right(h, nodes, log, at)
    ensures SubtreeHash(h, nodes, lo, hi) == Some(Mth(h, log[lo..hi]))
    decreases hi - lo
  {
    hide Mth, Halve, NodeAt, SplitLevel, Level, Pow2;
    if Perfect(lo, hi) {
      PerfectIsUnder(h, log, lo, hi);
      assert Right(h, nodes, log, PositionOf(lo, hi));
    } else {
      var k := Split(hi - lo);
      RightNodesGiveMth(h, nodes, log, lo, lo + k);
      RightNodesGiveMth(h, nodes, log, lo + k, hi);
      MthAcross(h, log, lo, hi);
    }
  }

  /** With collision-free nodes the true root certifies every node it was read from. */
  lemma {:induction false} TrueRootFixesReads(h: Hasher, nodes: Nodes, log: seq<Bytes>, lo: nat, hi: nat)
    requires NodeInjective(h) && lo < hi <= |log|
    requires SubtreeHash(h, nodes, lo, hi) == Some(Mth(h, log[lo..hi]))
    ensures forall at | at in Reads(lo, hi) :: Right(h, nodes, log, at)
    decreases hi - lo
  {
    hide Mth, Halve, NodeAt, SplitLevel, Level, IsPow2, Pow2;
    if Perfect(lo, hi) {
      PerfectIsUnder(h, log, lo, hi);
    } else {
      var k := Split(hi - lo);
      MthAcross(h, log, lo, hi);
      TrueRootFixesReads(h, nodes, log, lo, lo + k);
      TrueRootFixesReads(h, nodes, log, lo + k, hi);
    }
  }

  /** A faithful table answers every earlier tree size. */
  lemma FaithfulRoot(h: Hasher, nodes: Nodes, log: seq<Bytes>, size: nat)
    requires Faithful(h, nodes, log) && size <= |log|
    ensures Root(h, nodes, size) == Some(Mth(h, log[..size]))
  {
    if size > 0 {
      assert log[0..size] == log[..size];
      ReadsInside(h, log, 0, size);
      RightNodesGiveMth(h, nodes, log, 0, size);
    }
  }

  /** What comparing the root with the true one checks: the right edge, no less
      and no more. */
  lemma TrueRootIffRightEdge(h: Hasher, nodes: Nodes, log: seq<Bytes>)
    requires NodeInjective(h) && log != []
    ensures Root(h, nodes, |log|) == Some(Mth(h, log))
            <==> forall at | at in Reads(0, |log|) :: Right(h, nodes, log, at)
  {
    assert log[0..|log|] == log;
    if Root(h, nodes, |log|) == Some(Mth(h, log)) {
      TrueRootFixesReads(h, nodes, log, 0, |log|);
    }
    if forall at | at in Reads(0, |log|) :: Right(h, nodes, log, at) {
      RightNodesGiveMth(h, nodes, log, 0, |log|);
    }
  }

  lemma {:induction false} ReadsInside(h: Hasher, log: seq<Bytes>, lo: nat, hi: nat)
    requires lo < hi <= |log|
    ensures forall at | at in Reads(lo, hi) :: at.1 < Halve(|log|, at.0)
    decreases hi - lo
  {
    if Perfect(lo, hi) {
      PerfectIsUnder(h, log, lo, hi);
    } else {
      ReadsInside(h, log, lo, lo + Split(hi - lo));
      ReadsInside(h, log, lo + Split(hi - lo), hi);
    }
  }

  // ---------------------------------------------------------------------------
  // Appending
  // ---------------------------------------------------------------------------

  function Ones(n: nat): nat {
    if n == 0 then 0 else n % 2 + Ones(n / 2)
  }

  lemma {:induction false} OnesAtMost(n: nat)
    ensures Ones(n) <= n
  {
    if n > 0 { OnesAtMost(n / 2); }
  }

  /** `nodes_in`. */
  function NodesIn(leaves: nat): nat {
    OnesAtMost(leaves);
    2 * leaves - Ones(leaves)
  }

  /** A faithful table with the number of rows a tree of its size has. */
  ghost predicate Stored(h: Hasher, nodes: Nodes, log: seq<Bytes>) {
    Faithful(h, nodes, log) && |nodes| == NodesIn(|log|)
  }

  /** Above the level where an append stops, nothing changes. */
  lemma {:induction false} HalveSettles(n: nat, from: nat, level: nat)
    requires from <= level && Halve(n + 1, from) == Halve(n, from)
    ensures Halve(n + 1, level) == Halve(n, level)
  {
    if from < level { HalveSettles(n, from, level - 1); }
  }

  /** A table for `next` up to `level`, and for one leaf less above it. */
  ghost predicate Growing(h: Hasher, nodes: Nodes, next: seq<Bytes>, level: nat)
    requires next != []
  {
    && (forall l: nat, i: nat :: (l, i) in nodes <==> i < Halve(if l <= level then |next| else |next| - 1, l))
    && (forall l: nat, i: nat | (l, i) in nodes :: i < Halve(|next|, l) && nodes[(l, i)] == NodeAt(h, next, l, i))
  }

  lemma GrowingLeaf(h: Hasher, nodes: Nodes, log: seq<Bytes>, entry: Bytes)
    requires Faithful(h, nodes, log)
    ensures (0, |log|) !in nodes
    ensures Growing(h, nodes[(0, |log|) := h.leaf(entry)], log + [entry], 0)
  {
    forall l: nat, i: nat | i < Halve(|log|, l)
      ensures i < Halve(|log| + 1, l) && NodeAt(h, log + [entry], l, i) == NodeAt(h, log, l, i)
    {
      NodeAtGrows(h, log, [entry], l, i);
    }
  }

  /** One more perfect subtree is full. */
  lemma GrowingStep(h: Hasher, nodes: Nodes, next: seq<Bytes>, level: nat, count: nat)
    requires next != [] && Growing(h, nodes, next, level)
    requires count % 2 == 0 && count == Halve(|next|, level) == Halve(|next| - 1, level) + 1
    ensures (level, count - 2) in nodes && (level, count - 1) in nodes
    ensures (level + 1, count / 2 - 1) !in nodes
    ensures Growing(h, nodes[(level + 1, count / 2 - 1) := h.node(nodes[(level, count - 2)], nodes[(level, count - 1)])],
                    next, level + 1)
  {
    var left, right := nodes[(level, count - 2)], nodes[(level, count - 1)];
    assert NodeAt(h, next, level + 1, count / 2 - 1) == h.node(left, right);
    hide NodeAt;
    var grown := nodes[(level + 1, count / 2 - 1) := h.node(left, right)];
    forall l: nat, i: nat
      ensures (l, i) in grown <==> i < Halve(if l <= level + 1 then |next| else |next| - 1, l)
    {
      if l == level + 1 {
        assert Halve(|next|, l) == count / 2 && Halve(|next| - 1, l) == count / 2 - 1;
      } else {
        hide Halve;
        assert (l, i) in grown <==> (l, i) in nodes;
      }
    }
  }

  lemma GrowingDone(h: Hasher, nodes: Nodes, next: seq<Bytes>, level: nat, count: nat)
    requires next != [] && Growing(h, nodes, next, level)
    requires count % 2 == 1 && count == Halve(|next|, level) == Halve(|next| - 1, level) + 1
    ensures Faithful(h, nodes, next)
  {
    forall l: nat
      ensures Halve(|next|, l) == Halve(if l <= level then |next| else |next| - 1, l)
    {
      if l > level { HalveSettles(|next| - 1, level + 1, l); }
    }
  }

  /** `count` subtrees stand at `level` once the leaf at `size` is in, and every
      bit of `size` below `level` is set. */
  ghost predicate Carry(size: nat, level: nat, count: nat) {
    && count == Halve(size + 1, level) == Halve(size, level) + 1
    && Ones(size) == Ones(count - 1) + level && Ones(size + 1) == Ones(count)
  }

  lemma CarryStep(size: nat, level: nat, count: nat)
    requires Carry(size, level, count) && count % 2 == 0
    ensures Carry(size, level + 1, count / 2)
  {}

  lemma CarryDone(size: nat, level: nat, count: nat)
    requires Carry(size, level, count) && count % 2 == 1
    ensures NodesIn(size + 1) == NodesIn(size) + level + 1
  {}

  /** The parents above the node just put at the end of `level`, while they are
      full. None where a sibling is missing or a position is already taken. */
  function FillUp(h: Hasher, nodes: Nodes, level: nat, count: nat): Option<Nodes>
    requires count > 0 && (level, count - 1) in nodes
    decreases count
  {
    if count % 2 == 1 then Some(nodes)
    else if (level, count - 2) !in nodes || (level + 1, count / 2 - 1) in nodes then None
    else
      var parent := h.node(nodes[(level, count - 2)], nodes[(level, count - 1)]);
      FillUp(h, nodes[(level + 1, count / 2 - 1) := parent], level + 1, count / 2)
  }

  /** One leaf more, over any table at all. */
  function Append(h: Hasher, nodes: Nodes, size: nat, leaf: Digest): Option<Nodes> {
    if (0, size) in nodes then None else FillUp(h, nodes[(0, size) := leaf], 0, size + 1)
  }

  /** The leaves of a group of messages, appended in order. */
  function Grow(h: Hasher, nodes: Nodes, size: nat, entries: seq<Bytes>): Option<Nodes>
    decreases |entries|
  {
    if entries == [] then Some(nodes) else
    match Append(h, nodes, size, h.leaf(entries[0]))
    case None => None
    case Some(next) => Grow(h, next, size + 1, entries[1..])
  }

  lemma {:induction false} FillUpStored(h: Hasher, nodes: Nodes, next: seq<Bytes>, level: nat, count: nat)
    requires next != [] && Carry(|next| - 1, level, count) && Growing(h, nodes, next, level)
    requires |nodes| == NodesIn(|next| - 1) + level + 1 && count > 0 && (level, count - 1) in nodes
    ensures FillUp(h, nodes, level, count).Some? && Stored(h, FillUp(h, nodes, level, count).value, next)
    decreases count
  {
    hide Growing, NodeAt, Halve, Ones, NodesIn;
    if count % 2 == 1 {
      CarryDone(|next| - 1, level, count);
      GrowingDone(h, nodes, next, level, count);
    } else {
      GrowingStep(h, nodes, next, level, count);
      CarryStep(|next| - 1, level, count);
      var parent := h.node(nodes[(level, count - 2)], nodes[(level, count - 1)]);
      FillUpStored(h, nodes[(level + 1, count / 2 - 1) := parent], next, level + 1, count / 2);
    }
  }

  /** On a table that holds the tree of `log`, an append succeeds and leaves the
      table that holds the tree of `log` and the new entry. */
  lemma AppendKeepsStored(h: Hasher, nodes: Nodes, log: seq<Bytes>, entry: Bytes)
    requires Stored(h, nodes, log)
    ensures var grown := Append(h, nodes, |log|, h.leaf(entry));
            grown.Some? && Stored(h, grown.value, log + [entry])
  {
    GrowingLeaf(h, nodes, log, entry);
    assert Carry(|log|, 0, |log| + 1);
    hide Growing, NodeAt, Halve, Ones, NodesIn, Carry, Stored;
    FillUpStored(h, nodes[(0, |log|) := h.leaf(entry)], log + [entry], 0, |log| + 1);
  }

  lemma {:induction false} GrowKeepsStored(h: Hasher, nodes: Nodes, log: seq<Bytes>, entries: seq<Bytes>)
    requires Stored(h, nodes, log)
    ensures var grown := Grow(h, nodes, |log|, entries);
            grown.Some? && Stored(h, grown.value, log + entries)
    decreases |entries|
  {
    hide Stored, Append;
    if entries == [] {
      assert log + entries == log;
    } else {
      AppendKeepsStored(h, nodes, log, entries[0]);
      GrowKeepsStored(h, Append(h, nodes, |log|, h.leaf(entries[0])).value, log + [entries[0]], entries[1..]);
      assert log + [entries[0]] + entries[1..] == log + entries;
    }
  }

  /** `append_nodes` and the inserts of `tree::append` for one leaf. */
  method AppendLeaf(h: Hasher, nodes: Nodes, size: nat, leaf: Digest) returns (r: Option<Nodes>)
    ensures r == Append(h, nodes, size, leaf)
  {
    if (0, size) in nodes { return None; }
    var grown: Nodes := nodes[(0, size) := leaf];
    var level: nat, count: nat := 0, size + 1;
    while count % 2 == 0
      invariant count > 0 && (level, count - 1) in grown
      invariant FillUp(h, grown, level, count) == Append(h, nodes, size, leaf)
      decreases count
    {
      if (level, count - 2) !in grown || (level + 1, count / 2 - 1) in grown { return None; }
      var parent := h.node(grown[(level, count - 2)], grown[(level, count - 1)]);
      level, count := level + 1, count / 2;
      grown := grown[(level, count - 1) := parent];
    }
    r := Some(grown);
  }

  /** `tree::append` over a group: every node of every leaf, or none of them. */
  method AppendLeaves(h: Hasher, nodes: Nodes, size: nat, entries: seq<Bytes>) returns (r: Option<Nodes>)
    ensures r == Grow(h, nodes, size, entries)
  {
    hide Append;
    var grown := nodes;
    for i := 0 to |entries|
      invariant Grow(h, grown, size + i, entries[i..]) == Grow(h, nodes, size, entries)
    {
      var next := AppendLeaf(h, grown, size + i, h.leaf(entries[i]));
      if next.None? { return None; }
      assert entries[i..][1..] == entries[i + 1..];
      grown := next.value;
    }
    r := Some(grown);
  }
}
