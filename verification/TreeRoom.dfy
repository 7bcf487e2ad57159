/** Where an append puts its nodes, and which tables have room for the next ones. */
module TreeRoom {
  import opened Common
  import opened Rfc9162
  import opened NodeStore
  import opened TreeEdge

  /** The positions the leaf at `leaf` fills: its own, and one for each perfect subtree
      it completes. */
  ghost predicate FilledBy(leaf: nat, at: Position) {
    at.1 + 1 == Halve(leaf + 1, at.0) && EvenUpTo(leaf + 1, at.0)
  }

  ghost predicate EvenUpTo(n: nat, level: nat) {
    forall l: nat | l < level :: Halve(n, l) % 2 == 0
  }

  /** `appended_at`, in the order the nodes are stored. */
  method AppendedAt(leaf: nat) returns (made: seq<Position>)
    ensures forall at :: at in made <==> FilledBy(leaf, at)
    ensures forall i | 0 <= i < |made| :: made[i].0 == i
  {
    made := [(0, leaf)];
    var level: nat, count: nat := 0, leaf + 1;
    while count % 2 == 0
      invariant count > 0 && count == Halve(leaf + 1, level) && |made| == level + 1
      invariant EvenUpTo(leaf + 1, level)
      invariant forall l: nat | l <= level :: made[l].0 == l && made[l].1 + 1 == Halve(leaf + 1, l)
      decreases count
    {
      made := made + [(level + 1, count / 2 - 1)];
      level, count := level + 1, count / 2;
    }
    forall at: Position | FilledBy(leaf, at) ensures at in made {
      assert at.0 <= level;
      assert made[at.0] == at;
    }
  }

  /** Nothing stands where the next `n` leaves would put a node. */
  ghost predicate Room(nodes: Nodes, from: nat, n: nat) {
    forall leaf: nat, at: Position | from <= leaf < from + n && FilledBy(leaf, at) :: at !in nodes
  }

  // ---------------------------------------------------------------------------
  // One append
  // ---------------------------------------------------------------------------

  /** What the rest of an append adds to the table. */
  lemma {:induction false} FillUpKeys(h: Hasher, nodes: Nodes, leaf: nat, level: nat, count: nat)
    requires count > 0 && (level, count - 1) in nodes && count == Halve(leaf + 1, level)
    requires EvenUpTo(leaf + 1, level)
    ensures var grown := FillUp(h, nodes, level, count);
            grown.Some? ==>
              forall at: Position :: at in grown.value <==> at in nodes || (FilledBy(leaf, at) && at.0 > level)
    decreases count
  {
    hide Halve;
    if count % 2 == 0 && (level, count - 2) in nodes && (level + 1, count / 2 - 1) !in nodes {
      assert Halve(leaf + 1, level + 1) == count / 2 by { HalveOnce(leaf + 1, level); }
      var parent := h.node(nodes[(level, count - 2)], nodes[(level, count - 1)]);
      var next: Nodes := nodes[(level + 1, count / 2 - 1) := parent];
      FillUpKeys(h, next, leaf, level + 1, count / 2);
      assert FilledBy(leaf, (level + 1, count / 2 - 1));
      forall at: Position | FilledBy(leaf, at) && at.0 == level + 1 ensures at == (level + 1, count / 2 - 1) {}
    } else if count % 2 == 1 {
      forall at: Position | at.0 > level ensures !FilledBy(leaf, at) {}
    }
  }

  lemma HalveOnce(n: nat, level: nat)
    ensures Halve(n, level + 1) == Halve(n, level) / 2
  {}

  lemma AppendKeys(h: Hasher, nodes: Nodes, leaf: nat, hash: Digest)
    ensures var grown := Append(h, nodes, leaf, hash);
            grown.Some? ==> forall at :: at in grown.value <==> at in nodes || FilledBy(leaf, at)
  {
    hide FillUp;
    if (0, leaf) !in nodes {
      FillUpKeys(h, nodes[(0, leaf) := hash], leaf, 0, leaf + 1);
      forall at: Position | at.0 == 0 ensures FilledBy(leaf, at) <==> at == (0, leaf) {}
    }
  }

  /** Over a right edge the siblings are there, so only a taken position stops an append. */
  lemma {:induction false} FillUpTakes(h: Hasher, nodes: Nodes, next: seq<Bytes>, level: nat, count: nat)
    requires Carrying(h, nodes, next, level, count) && count > 0 && (level, count - 1) in nodes
    ensures FillUp(h, nodes, level, count).Some?
            <==> forall at: Position | FilledBy(|next| - 1, at) && at.0 > level :: at !in nodes
    decreases count
  {
    hide Halve, Right;
    var leaf := |next| - 1;
    if count % 2 == 1 {
      forall at: Position | at.0 > level ensures !FilledBy(leaf, at) {}
    } else {
      assert Halve(leaf + 1, level + 1) == count / 2 by { HalveOnce(leaf + 1, level); }
      var up: Position := (level + 1, count / 2 - 1);
      assert FilledBy(leaf, up);
      CarryingStep(h, nodes, next, level, count);
      if up !in nodes {
        var parent := h.node(nodes[(level, count - 2)], nodes[(level, count - 1)]);
        FillUpTakes(h, nodes[up := parent], next, level + 1, count / 2);
        forall at: Position | FilledBy(leaf, at) && at.0 == level + 1 ensures at == up {}
      }
    }
  }

  /** Over any table whose right edge is right, an append succeeds exactly where none of
      the positions it fills is taken. */
  lemma AppendTakesIffRoom(h: Hasher, nodes: Nodes, log: seq<Bytes>, entry: Bytes)
    requires EdgeRight(h, nodes, log)
    ensures Append(h, nodes, |log|, h.leaf(entry)).Some? <==> Room(nodes, |log|, 1)
  {
    hide FillUp;
    var put, next := nodes[(0, |log|) := h.leaf(entry)], log + [entry];
    assert FilledBy(|log|, (0, |log|));
    if (0, |log|) !in nodes {
      LeafCarries(h, nodes, log, entry);
      FillUpTakes(h, put, next, 0, |log| + 1);
      forall at: Position | at.0 == 0 ensures FilledBy(|log|, at) <==> at == (0, |log|) {}
      forall leaf: nat, at: Position | |log| <= leaf < |log| + 1 && FilledBy(leaf, at) ensures leaf == |log| {}
    }
  }

  // ---------------------------------------------------------------------------
  // A group
  // ---------------------------------------------------------------------------

  lemma {:induction false} SameHalves(a: nat, b: nat, level: nat)
    requires Halve(a, level) == Halve(b, level)
    requires EvenUpTo(a, level) && EvenUpTo(b, level)
    ensures a == b
  {
    if level > 0 { SameHalves(a, b, level - 1); }
  }

  /** Two leaves never fill one position. */
  lemma FilledOnce(a: nat, b: nat, at: Position)
    requires FilledBy(a, at) && FilledBy(b, at)
    ensures a == b
  {
    SameHalves(a + 1, b + 1, at.0);
  }

  /** Over a right edge a group is appended exactly where none of the positions its
      leaves fill is taken. */
  lemma {:induction false} GrowTakesIffRoom(h: Hasher, nodes: Nodes, log: seq<Bytes>, entries: seq<Bytes>)
    requires EdgeRight(h, nodes, log)
    ensures Grow(h, nodes, |log|, entries).Some? <==> Room(nodes, |log|, |entries|)
    decreases |entries|
  {
    hide EdgeRight, Append, FilledBy;
    if entries != [] {
      var hash := h.leaf(entries[0]);
      AppendTakesIffRoom(h, nodes, log, entries[0]);
      AppendKeepsEdge(h, nodes, log, entries[0]);
      AppendKeys(h, nodes, |log|, hash);
      var grown := Append(h, nodes, |log|, hash);
      if grown.Some? {
        GrowTakesIffRoom(h, grown.value, log + [entries[0]], entries[1..]);
        forall leaf: nat, at: Position | FilledBy(|log|, at) && FilledBy(leaf, at) ensures leaf == |log| {
          FilledOnce(|log|, leaf, at);
        }
      }
    }
  }

  /** A whole tree has room for any group. */
  lemma StoredHasRoom(h: Hasher, nodes: Nodes, log: seq<Bytes>, n: nat)
    requires Stored(h, nodes, log)
    ensures Room(nodes, |log|, n)
  {
    forall leaf: nat, at: Position | |log| <= leaf < |log| + n && FilledBy(leaf, at) ensures at !in nodes {
      HalveMonotone(|log|, leaf, at.0);
      FilledOutside(leaf, at);
    }
  }

  lemma {:induction false} FilledOutside(leaf: nat, at: Position)
    requires FilledBy(leaf, at)
    ensures at.1 == Halve(leaf, at.0)
    decreases at.0
  {
    if at.0 > 0 {
      var below: Position := (at.0 - 1, 2 * at.1 + 1);
      assert Halve(leaf + 1, below.0) == below.1 + 1;
      FilledOutside(leaf, below);
    }
  }

  // ---------------------------------------------------------------------------
  // Every later group
  // ---------------------------------------------------------------------------

  /** Every position past a tree is filled by some later leaf. */
  lemma FilledLater(size: nat, at: Position) returns (leaf: nat)
    requires at.1 >= Halve(size, at.0)
    ensures size <= leaf && FilledBy(leaf, at)
  {
    var p, q := Pow2(at.0), at.1 + 1;
    leaf := q * p - 1;
    var n := q * p;
    forall l: nat | l < at.0 ensures Halve(n, l) % 2 == 0 { EvenBelow(n, at.0, q, l); }
    OddAt(q * p, at.0, q);
    if leaf < size { HalveMonotone(leaf + 1, size, at.0); }
  }

  /** A table right on its edge can take every later group if and only if it holds no
      row outside its own tree. */
  lemma AlwaysRoomIff(nodes: Nodes, n: nat)
    ensures (forall m: nat :: Room(nodes, n, m)) <==> forall at | at in nodes :: at.1 < Halve(n, at.0)
  {
    hide Halve;
    if at :| at in nodes && at.1 >= Halve(n, at.0) {
      var leaf := FilledLater(n, at);
      assert !Room(nodes, n, leaf - n + 1);
    } else {
      forall m: nat ensures Room(nodes, n, m) {
        forall leaf: nat, at: Position | n <= leaf < n + m && FilledBy(leaf, at) ensures at !in nodes {
          FilledOutside(leaf, at);
          HalveMonotone(n, leaf, at.0);
        }
      }
    }
  }
}
