/** What an accepted database proves, and that a feed's own database is accepted. */
module FeedRecovery {
  import opened Common
  import opened Rfc9162
  import opened NodeStore
  import opened TreeEdge
  import opened TreeRoom
  import opened FeedModel
  import opened FeedStartup

  /** A statement about a history this feed published: `published(s)` is every
      message published under session `s`. */
  ghost predicate True(c: Config, published: string -> seq<Bytes>, s: Statement) {
    match s
    case Head(session, n, chain) =>
      n <= |published(session)| && chain == ChainAfter(c.h, published(session), n)
    case Checkpoint(session, n, chain, root) =>
      && n <= |published(session)| && chain == ChainAfter(c.h, published(session), n)
      && root == Mth(c.h, published(session)[..n])
  }

  predicate HeldIn(seal: Seal, signature: Bytes) {
    seal.signature == Held(signature) || seal.rootSignature == Held(signature)
  }

  /** No signature in the file covers anything but a statement about published
      messages. The rest of the file may hold anything. */
  ghost predicate Unforged(c: Config, db: Db, published: string -> seq<Bytes>) {
    db.seal.Some? ==>
      forall s, signature | HeldIn(db.seal.value, signature) && c.k.verify(s, signature) :: True(c, published, s)
  }

  /** Rows with consecutive ids and right links are the rows of their own messages. */
  lemma RowsAreTheirOwn(h: Hasher, rows: seq<Row>)
    requires LinksRight(h, rows) && forall i | 0 <= i < |rows| :: rows[i].id == i + 1
    ensures rows == RowsOf(h, Texts(rows))
  {
    hide ChainAfter;
    forall i | 0 <= i < |rows| ensures rows[i] == RowsOf(h, Texts(rows))[i] {}
  }

  /** A table built from nothing is the whole tree. */
  lemma BuiltWhole(h: Hasher, log: seq<Bytes>)
    ensures var built := Grow(h, map[], 0, log); built.Some? && Stored(h, built.value, log)
  {
    EmptyStored(h);
    GrowKeepsStored(h, map[], [], log);
    assert [] + log == log;
  }

  /** Whether kept, extended or built again, an accepted tree is right on its edge. */
  lemma AcceptedTree(h: Hasher, nodes: Nodes, log: seq<Bytes>, signed: Option<Digest>)
    requires NodeInjective(h) && TreeAccepted(h, nodes, log, signed)
    requires signed.Some? ==> signed.value == Mth(h, log)
    ensures EdgeRight(h, Built(h, nodes, log, signed).value, log)
  {
    hide Mth, Root, EdgeRight, StoredLeaves, Stored, NodesIn, Grow, NodeInjective;
    if log == [] {
      EmptyEdge(h, Built(h, nodes, log, signed).value);
    } else if signed.Some? {
      TrueRootIffEdgeRight(h, Built(h, nodes, log, signed).value, log);
    } else {
      BuiltWhole(h, log);
      assert log[0..] == log;
      StoredIsRight(h, Built(h, nodes, log, signed).value, log);
    }
  }

  /** What an accepted table is left as: a second start would not touch it. */
  lemma AcceptedSettled(c: Config, db: Db, newName: string)
    requires Acceptable(c, db, newName)
    ensures var log := Texts(db.rows); Settled(c.h, log, db.seal, OpenedOf(c, db, newName).db.nodes)
  {
    hide ChainOf, Mth, Root, Shaped, StoredLeaves, Stored, NodesIn, Grow, History;
    var log := Texts(db.rows);
    var signed := CheckSeal(c, db.session, db.seal, |log|, ChainOf(c.h, log), newName).value.1;
    var nodes, stored := db.nodes, StoredLeaves(db.nodes);
    assert log[0..] == log;
    if db.seal.Some? && signed.Some? && log != [] {
      if Keeps(nodes, stored, |log|, signed) && stored > 0 {
        assert Shaped(nodes, stored) by { KeptIsShaped(nodes, |log|, signed); }
        if stored < |log| { GrowKeepsShape(c.h, nodes, stored, log[stored..]); }
      } else {
        BuiltWhole(c.h, log);
        StoredIsShaped(c.h, Grow(c.h, map[], 0, log).value, log);
      }
    }
  }

  lemma KeptIsShaped(nodes: Nodes, count: nat, signed: Option<Digest>)
    requires Keeps(nodes, StoredLeaves(nodes), count, signed)
    ensures Shaped(nodes, StoredLeaves(nodes))
  {}

  /** Every check of a start together: whatever else was written to the file, the
      messages are a prefix this feed published under that session, every link is
      the chain over them, and the root is their tree hash. */
  lemma AcceptedIsPublished(c: Config, db: Db, newName: string, published: string -> seq<Bytes>)
    requires Acceptable(c, db, newName) && Unforged(c, db, published)
    requires LinkInjective(c.h) && NodeInjective(c.h)
    ensures var o, log := OpenedOf(c, db, newName), Texts(db.rows);
            && (if db.seal.None? then log == [] && o.session == newName
                else log <= published(o.session) && db.session == Some(o.session))
            && OnDisk(c, o.session, log, db.inbox, o.db) && History(c, log)
            && Root(c.h, o.db.nodes, |log|) == Some(Mth(c.h, log))
  {
    var log := Texts(db.rows);
    var chain := ChainOf(c.h, log);
    var o := OpenedOf(c, db, newName);
    var named := CheckSeal(c, db.session, db.seal, |log|, chain, newName).value;
    assert RowsAreHistory(c, db.rows) && TreeAccepted(c.h, db.nodes, log, named.1);
    RowsAreTheirOwn(c.h, db.rows);
    if db.seal.Some? {
      SignedPrefix(c, db, newName, published);
      assert named.1.Some? ==> named.1.value == Mth(c.h, log);
      SealDecides(c, db.session, db.seal.value, log, newName);
    }
    AcceptedTree(c.h, db.nodes, log, named.1);
    AcceptedSettled(c, db, newName);
    EdgeGivesRoot(c.h, o.db.nodes, log);
  }

  lemma SignedPrefix(c: Config, db: Db, newName: string, published: string -> seq<Bytes>)
    requires LinkInjective(c.h) && Unforged(c, db, published) && db.seal.Some?
    requires var log := Texts(db.rows); CheckSeal(c, db.session, db.seal, |log|, ChainOf(c.h, log), newName).Ok?
    ensures var log := Texts(db.rows);
            var named := CheckSeal(c, db.session, db.seal, |log|, ChainOf(c.h, log), newName).value;
            && log <= published(named.0)
            && (named.1.Some? ==> named.1.value == Mth(c.h, log))
  {
    hide LinkInjective, ChainOf, Mth, Texts;
    var log, seal := Texts(db.rows), db.seal.value;
    var session, n := db.session.value, seal.lastId;
    assert HeldIn(seal, seal.signature.value);
    assert True(c, published, Head(session, n, seal.chain.value));
    ChainFixesLog(c.h, log, published(session)[..n]);
    if seal.root.Held? {
      assert HeldIn(seal, seal.rootSignature.value);
      assert True(c, published, Checkpoint(session, n, seal.chain.value, seal.root.value));
    }
  }

  // ---------------------------------------------------------------------------
  // A feed's own database
  // ---------------------------------------------------------------------------

  lemma RowsReadBack(c: Config, log: seq<Bytes>)
    requires History(c, log)
    ensures Texts(RowsOf(c.h, log)) == log
    ensures RowsAreHistory(c, RowsOf(c.h, log)) && LinksRight(c.h, RowsOf(c.h, log))
  {
    hide ChainAfter, Numbered;
    assert Texts(RowsOf(c.h, log)) == log;
  }

  /** A settled tree, right on its edge, is accepted and left as it is. */
  lemma OwnTree(c: Config, log: seq<Bytes>, seal: Option<Seal>, nodes: Nodes, signed: Option<Digest>)
    requires Settled(c.h, log, seal, nodes) && EdgeRight(c.h, nodes, log)
    requires log != [] ==> seal.Some? && (signed.None? <==> seal.value.root.Absent?)
    requires signed.Some? ==> signed.value == Mth(c.h, log)
    ensures TreeAccepted(c.h, nodes, log, signed) && Built(c.h, nodes, log, signed) == Some(nodes)
  {
    hide Mth, Root, EdgeRight, StoredLeaves, NodesIn, Stored, Grow;
    EdgeGivesRoot(c.h, nodes, log);
    assert log[0..] == log;
  }

  /** A feed's own database opens again, after any crash, to the history it holds and
      under its session once anything was signed there, and the start changes nothing
      in it. */
  lemma OwnDatabaseReopens(c: Config, session: string, log: seq<Bytes>, inbox: map<InboxKey, nat>, db: Db,
                           newName: string)
    requires OnDisk(c, session, log, inbox, db) && History(c, log)
    requires Positive(c.limits) && |inbox| <= c.limits.maxInbox
    requires AllReadable(db.pins) && |db.pins| <= c.limits.maxAccounts
    ensures Acceptable(c, db, newName) && Texts(db.rows) == log
    ensures var o := OpenedOf(c, db, newName);
            && o.session == (if db.seal.None? then newName else session)
            && OnDisk(c, o.session, log, inbox, o.db) && o.db == db
  {
    RowsReadBack(c, log);
    hide ChainOf, ChainAfter, Mth, RowsAreHistory, LinksRight, EdgeRight, Settled, TreeAccepted, Built, Texts, RowsOf;
    if db.seal.Some? {
      SealDecides(c, db.session, db.seal.value, log, newName);
    }
    var signed := CheckSeal(c, db.session, db.seal, |log|, ChainOf(c.h, log), newName).value.1;
    OwnTree(c, log, db.seal, db.nodes, signed);
  }

  // ---------------------------------------------------------------------------
  // What the root check of a start sees
  // ---------------------------------------------------------------------------

  /** For a table of the right size the start refuses exactly a wrong right edge. */
  lemma KeptTreeDecided(h: Hasher, nodes: Nodes, log: seq<Bytes>)
    requires NodeInjective(h) && log != []
    requires StoredLeaves(nodes) == |log| && |nodes| == NodesIn(|log|)
    ensures TreeAccepted(h, nodes, log, Some(Mth(h, log))) <==> EdgeRight(h, nodes, log)
  {
    hide Mth, Root, EdgeRight, StoredLeaves, NodesIn, NodeInjective;
    TrueRootIffEdgeRight(h, nodes, log);
  }

  /** One rewritten node of a whole tree is seen by the next start exactly where it
      stands on the right edge. */
  lemma RewrittenNodeDecided(h: Hasher, nodes: Nodes, log: seq<Bytes>, at: Position, x: Digest)
    requires NodeInjective(h) && Stored(h, nodes, log) && log != [] && at in nodes
    ensures TreeAccepted(h, nodes[at := x], log, Some(Mth(h, log))) <==> !OnEdge(|log|, at) || x == nodes[at]
  {
    hide Mth, Root, StoredLeaves, NodesIn, NodeInjective, OnEdge, TreeAccepted, Stored;
    var wrong := nodes[at := x];
    StoredIsShaped(h, nodes, log);
    StoredIsRight(h, nodes, log);
    assert wrong.Keys == nodes.Keys;
    assert |wrong| == |nodes| by { assert |wrong.Keys| == |wrong| && |nodes.Keys| == |nodes|; }
    assert StoredLeaves(wrong) == |log| by { SameLeaves(wrong, nodes); }
    KeptTreeDecided(h, wrong, log);
    assert OnEdge(|log|, at) ==> Right(h, nodes, log, at);
    assert OnEdge(|log|, at) && Right(h, wrong, log, at) ==> x == nodes[at];
  }

  lemma SameLeaves(a: Nodes, b: Nodes)
    requires a.Keys == b.Keys
    ensures StoredLeaves(a) == StoredLeaves(b)
  {
    assert LeafIndices(a) == LeafIndices(b);
  }

  /** An accepted file can take every later group if and only if its table holds no row
      outside the tree of its messages, which the start does not check. */
  lemma GoesOnIffNoRowOutside(c: Config, db: Db, newName: string, published: string -> seq<Bytes>)
    requires Acceptable(c, db, newName) && Unforged(c, db, published)
    requires LinkInjective(c.h) && NodeInjective(c.h) && db.rows != []
    ensures var log, nodes := Texts(db.rows), OpenedOf(c, db, newName).db.nodes;
            (forall entries :: Grow(c.h, nodes, |log|, entries).Some?)
            <==> forall at | at in nodes :: at.1 < Halve(|log|, at.0)
  {
    var log, nodes := Texts(db.rows), OpenedOf(c, db, newName).db.nodes;
    AcceptedIsPublished(c, db, newName, published);
    hide Acceptable, OpenedOf, Unforged, OnDisk, Grow, Halve, Texts, Room;
    EveryGroupIffEveryRoom(c.h, nodes, log);
    AlwaysRoomIff(nodes, |log|);
  }

  lemma EveryGroupIffEveryRoom(h: Hasher, nodes: Nodes, log: seq<Bytes>)
    requires EdgeRight(h, nodes, log)
    ensures (forall entries :: Grow(h, nodes, |log|, entries).Some?) <==> forall n: nat :: Room(nodes, |log|, n)
  {
    hide Grow, EdgeRight, Room;
    if forall n: nat :: Room(nodes, |log|, n) {
      forall entries ensures Grow(h, nodes, |log|, entries).Some? {
        GrowTakesIffRoom(h, nodes, log, entries);
      }
    }
    if n: nat :| !Room(nodes, |log|, n) {
      var entries: seq<Bytes> := seq(n, _ => "");
      GrowTakesIffRoom(h, nodes, log, entries);
      assert Grow(h, nodes, |log|, entries).None?;
    }
  }

  /** A table that is accepted and cannot be gone on from, over any two messages: one
      leaf is missing, and a row stands where the fourth message puts a node. */
  lemma AcceptedTableStops(h: Hasher, log: seq<Bytes>, d: Digest, entries: seq<Bytes>)
    requires |log| == 2 && |entries| >= 2
    ensures var table: Nodes := map[(0, 1) := h.leaf(log[1]), (1, 0) := Mth(h, log), (1, 1) := d];
            && TreeAccepted(h, table, log, Some(Mth(h, log)))
            && Built(h, table, log, Some(Mth(h, log))) == Some(table)
            && Grow(h, table, 2, entries) == None
  {
    var table: Nodes := map[(0, 1) := h.leaf(log[1]), (1, 0) := Mth(h, log), (1, 1) := d];
    StopShape(table);
    StopEdge(h, table, log);
    hide Grow, EdgeRight, Mth, Root, NodesIn, StoredLeaves;
    EdgeGivesRoot(h, table, log);
    GrowTakesIffRoom(h, table, log, entries);
    assert FilledBy(3, (1, 1)) by { FourFills(); }
  }

  lemma FourFills()
    ensures FilledBy(3, (1, 1))
  {
    assert Halve(4, 0) == 4;
  }

  lemma StopShape(table: Nodes)
    requires table.Keys == {(0, 1), (1, 0), (1, 1)}
    ensures StoredLeaves(table) == 2 && |table| == NodesIn(2)
  {
    assert |table| == |table.Keys| == 3;
    assert (0, 1).1 in LeafIndices(table);
    TopIs(LeafIndices(table), 2);
    assert Ones(2) == Ones(1) == 1;
  }

  lemma StopEdge(h: Hasher, table: Nodes, log: seq<Bytes>)
    requires |log| == 2 && (1, 0) in table && table[(1, 0)] == Mth(h, log)
    ensures EdgeRight(h, table, log)
  {
    hide Mth, NodeAt, Halve, Start, Pow2;
    TwoHalves(1);
    NodeAtIsMth(h, log, 1, 0);
    assert Under(log, 1, 0) == log by { TwoUnder(log); }
    forall at: Position | OnEdge(2, at) ensures Right(h, table, log, at) {
      TwoHalves(at.0);
      assert at == (1, 0);
    }
  }

  lemma TwoUnder(log: seq<Bytes>)
    requires |log| == 2 && 0 < Halve(|log|, 1)
    ensures Under(log, 1, 0) == log
  {
    assert Pow2(0) == 1 && Pow2(1) == 2 && Start(0, 0) == 0;
  }

  lemma {:induction false} TwoHalves(level: nat)
    ensures Halve(2, level) == if level == 0 then 2 else if level == 1 then 1 else 0
  {
    if level > 0 { TwoHalves(level - 1); }
  }

  // ---------------------------------------------------------------------------
  // What no signature covers
  // ---------------------------------------------------------------------------

  /** The pairings and the pinned keys are taken as they stand: any others of the same
      kind are accepted in their place. */
  lemma PairingsAndPinsAreUnsigned(c: Config, db: Db, newName: string, inbox: map<InboxKey, nat>, pins: Pins)
    requires Acceptable(c, db, newName)
    ensures var other := db.(inbox := inbox, pins := pins);
            && (Acceptable(c, other, newName)
                <==> |inbox| <= c.limits.maxInbox && |pins| <= c.limits.maxAccounts && AllReadable(pins))
            && (Acceptable(c, other, newName) ==>
                  OpenedOf(c, other, newName) == OpenedOf(c, db, newName).(
                    inbox := inbox, keys := KeysOf(pins),
                    db := OpenedOf(c, db, newName).db.(inbox := inbox, pins := pins)))
  {}
}
