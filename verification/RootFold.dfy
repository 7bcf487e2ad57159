/** The auditor's tree: one pass over a history that keeps the right edge and the
    roots it was asked for, and nothing else. */
module RootFolding {
  import opened Common
  import opened Rfc9162
  import opened NodeStore
  import opened TreeEdge
  import opened Auditor

  /** Nothing but the right edge, all of it, each node with its own hash. */
  ghost predicate EdgeOnly(h: Hasher, edge: Nodes, log: seq<Bytes>) {
    (forall at: Position :: at in edge <==> OnEdge(|log|, at)) && EdgeRight(h, edge, log)
  }

  /** A push under way: `hash` is the node at the end of `level`, and every level
      below has gone into it. */
  ghost predicate Rising(h: Hasher, next: seq<Bytes>, level: nat, count: nat, hash: Digest) {
    && next != [] && count == Halve(|next|, level) == Halve(|next| - 1, level) + 1
    && hash == NodeAt(h, next, level, count - 1)
    && (forall l: nat | l < level :: Halve(|next|, l) % 2 == 0)
  }

  lemma RisingStep(h: Hasher, edge: Nodes, log: seq<Bytes>, entry: Bytes, level: nat, count: nat, hash: Digest)
    requires EdgeOnly(h, edge, log) && Rising(h, log + [entry], level, count, hash) && count % 2 == 0
    ensures (level, count - 2) in edge
    ensures Rising(h, log + [entry], level + 1, count / 2, h.node(edge[(level, count - 2)], hash))
  {
    assert OnEdge(|log|, (level, count - 2));
    assert Right(h, edge, log, (level, count - 2));
    NodeAtGrows(h, log, [entry], level, count - 2);
  }

  lemma RisingDone(h: Hasher, edge: Nodes, log: seq<Bytes>, entry: Bytes, level: nat, count: nat, hash: Digest,
                   after: Nodes)
    requires EdgeOnly(h, edge, log) && Rising(h, log + [entry], level, count, hash) && count % 2 == 1
    requires after == (map at | at in edge && at.0 > level :: edge[at])[(level, count - 1) := hash]
    ensures EdgeOnly(h, after, log + [entry])
  {
    var next := log + [entry];
    forall at: Position
      ensures at in after <==> OnEdge(|next|, at)
      ensures OnEdge(|next|, at) ==> Right(h, after, next, at)
    {
      if at.0 > level {
        HalveSettles(|log|, level + 1, at.0);
        assert OnEdge(|next|, at) <==> OnEdge(|log|, at);
        if OnEdge(|log|, at) {
          assert Right(h, edge, log, at);
          NodeAtGrows(h, log, [entry], at.0, at.1);
        }
      } else {
        assert OnEdge(|next|, at) <==> at == (level, count - 1);
      }
    }
  }

  // ---------------------------------------------------------------------------
  // How much it holds
  // ---------------------------------------------------------------------------

  ghost function Lift(s: set<Position>): set<Position> {
    set at | at in s :: (at.0 + 1, at.1)
  }

  lemma LiftTake(s: set<Position>, at: Position)
    requires at in s
    ensures (at.0 + 1, at.1) !in Lift(s - {at})
    ensures Lift(s) == Lift(s - {at}) + {(at.0 + 1, at.1)}
  {}

  lemma {:induction false} LiftSize(s: set<Position>)
    ensures |Lift(s)| == |s|
    decreases s
  {
    hide Lift;
    if s == {} {
      LiftNone();
    } else {
      var at :| at in s;
      LiftSize(s - {at});
      LiftTake(s, at);
    }
  }

  lemma LiftNone()
    ensures Lift({}) == {}
  {}

  lemma {:induction false} HalveUp(n: nat, level: nat)
    ensures Halve(n, level + 1) == Halve(n / 2, level)
  {
    if level > 0 { HalveUp(n, level - 1); }
  }

  ghost function EdgeSet(n: nat): set<Position> {
    if n == 0 then {} else Lift(EdgeSet(n / 2)) + if n % 2 == 1 then {(0, n - 1)} else {}
  }

  lemma {:induction false} EdgeSetSize(n: nat)
    ensures |EdgeSet(n)| == Ones(n)
  {
    if n > 0 {
      EdgeSetSize(n / 2);
      LiftSize(EdgeSet(n / 2));
      assert (0, n - 1) !in Lift(EdgeSet(n / 2));
    }
  }

  lemma {:induction false} EdgeSetIs(n: nat, at: Position)
    ensures at in EdgeSet(n) <==> OnEdge(n, at)
  {
    if n == 0 {
      EmptyHalves(at.0);
    } else if at.0 > 0 {
      var below: Position := (at.0 - 1, at.1);
      EdgeSetIs(n / 2, below);
      HalveUp(n, at.0 - 1);
      assert at in Lift(EdgeSet(n / 2)) <==> below in EdgeSet(n / 2) by {
        if below in EdgeSet(n / 2) { assert (below.0 + 1, below.1) == at; }
      }
    }
  }

  /** The edge holds one node for each set bit of the size. */
  lemma EdgeSize(n: nat, edge: set<Position>)
    requires forall at: Position :: at in edge <==> OnEdge(n, at)
    ensures |edge| == Ones(n)
  {
    hide OnEdge, EdgeSet, Ones;
    forall at: Position ensures at in edge <==> at in EdgeSet(n) { EdgeSetIs(n, at); }
    assert edge == EdgeSet(n);
    EdgeSetSize(n);
  }

  lemma {:induction false} OnesAtMostBits(n: nat, bits: nat)
    requires n < Pow2(bits)
    ensures Ones(n) <= bits
  {
    if bits > 0 && n > 0 { OnesAtMostBits(n / 2, bits - 1); }
  }

  // ---------------------------------------------------------------------------
  // The fold
  // ---------------------------------------------------------------------------

  class RootFold {
    const h: Hasher
    var edge: Nodes
    var leaves: nat
    const wanted: set<nat>
    var roots: map<nat, Digest>
    ghost var log: seq<Bytes>

    ghost predicate Valid()
      reads this
    {
      && leaves == |log| && EdgeOnly(h, edge, log)
      && (forall n: nat :: n in roots <==> n in wanted && n <= |log|)
      && (forall n: nat | n in roots :: n <= |log| && roots[n] == Mth(h, log[..n]))
    }

    constructor (h: Hasher, sizes: seq<nat>)
      ensures Valid() && log == [] && this.h == h && wanted == set n | n in sizes
    {
      this.h, edge, leaves, log := h, map[], 0, [];
      wanted := set n | n in sizes;
      roots := if 0 in sizes then map[0 := h.emptyRoot] else map[];
      new;
      EmptyEdge(h, edge);
      forall at: Position ensures !OnEdge(0, at) { EmptyHalves(at.0); }
      assert log[..0] == [];
    }

    /** `push_entry`: the new leaf climbs while it fills subtrees; what it filled
        leaves the edge and its top takes their place. */
    method PushEntry(entry: Bytes)
      requires Valid()
      modifies this
      ensures Valid() && log == old(log) + [entry]
    {
      hide EdgeOnly, Mth, Root, Halve, NodeAt;
      var level: nat, count: nat, hash := 0, leaves + 1, h.leaf(entry);
      ghost var next := log + [entry];
      assert Rising(h, next, level, count, hash) by { FirstRising(h, log, entry); }
      while count % 2 == 0
        modifies {}
        invariant Rising(h, next, level, count, hash)
        decreases count
      {
        RisingStep(h, edge, log, entry, level, count, hash);
        hash := h.node(edge[(level, count - 2)], hash);
        level, count := level + 1, count / 2;
      }
      var top: Position := (level, count - 1);
      var after: Nodes := (map at | at in edge && at.0 > level :: edge[at])[top := hash];
      RisingDone(h, edge, log, entry, level, count, hash, after);
      edge, leaves := after, leaves + 1;
      forall n: nat | n <= |log| ensures next[..n] == log[..n] {}
      log := next;
      assert EdgeRight(h, edge, log) by { EdgeOnlyIsRight(h, edge, log); }
      EdgeGivesRoot(h, edge, log);
      if leaves in wanted {
        assert log[..leaves] == log;
        var root := Root(h, edge, leaves);
        roots := roots[leaves := root.value];
      }
    }

    /** `root_at`. */
    method RootAt(size: nat) returns (r: Option<Digest>)
      requires Valid()
      ensures r == if size in wanted && size <= |log| then Some(Mth(h, log[..size])) else None
    {
      r := if size in roots then Some(roots[size]) else None;
    }

    /** At most one hash for each bit of the size. */
    lemma HoldsFewNodes(bits: nat)
      requires Valid() && leaves < Pow2(bits)
      ensures |edge| <= bits
    {
      hide Mth, EdgeRight, OnEdge;
      EdgeSize(|log|, edge.Keys);
      OnesAtMostBits(|log|, bits);
      assert |edge| == |edge.Keys|;
    }
  }

  lemma FirstRising(h: Hasher, log: seq<Bytes>, entry: Bytes)
    ensures Rising(h, log + [entry], 0, |log| + 1, h.leaf(entry))
  {}

  lemma EdgeOnlyIsRight(h: Hasher, edge: Nodes, log: seq<Bytes>)
    requires EdgeOnly(h, edge, log)
    ensures EdgeRight(h, edge, log)
  {}

  /** One pass over the served messages gives, at every size asked for, the root
      that the whole stored tree of those messages gives. */
  method FoldMessages(h: Hasher, d: seq<Bytes>, sizes: seq<nat>, size: nat, ghost nodes: Nodes) returns (r: FoldedRoot)
    requires size in sizes && Faithful(h, nodes, d)
    ensures r == Folded(h, nodes, |d|, size)
  {
    var fold := new RootFold(h, sizes);
    for i := 0 to |d|
      invariant fresh(fold) && fold.Valid() && fold.log == d[..i] && fold.h == h && size in fold.wanted
    {
      fold.PushEntry(d[i]);
    }
    assert d[..|d|] == d;
    var root := fold.RootAt(size);
    if size <= |d| { FaithfulRoot(h, nodes, d, size); }
    r := FoldedRoot(root, fold.leaves);
  }
}
