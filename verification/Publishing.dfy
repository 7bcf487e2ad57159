/** The steps of publishing a group: the bytes, the transaction, and what both
    leave behind, as functions of the log before and the group. */
module Publishing {
  import opened Common
  import opened Rfc9162
  import opened NodeStore
  import opened TreeEdge
  import opened TreeRoom
  import opened FeedModel
  import opened Retention

  predicate Serializes(batch: seq<Entry>) {
    forall i | 0 <= i < |batch| :: batch[i].message.json.Some?
  }

  /** The bytes of a group. */
  function Jsons(batch: seq<Entry>): (texts: seq<Bytes>)
    requires Serializes(batch)
  {
    seq(|batch|, i requires 0 <= i < |batch| => batch[i].message.json.value)
  }

  /** A group with the numbers after `last`, each message saying what its bytes say. */
  ghost predicate Follows(w: Wire, last: nat, batch: seq<Entry>) {
    forall i | 0 <= i < |batch| :: batch[i].message.id == last + 1 + i && WellWritten(w, batch[i].message)
  }

  /** The inbox pairings with those of a group added. */
  function Paired(inbox: map<InboxKey, nat>, keys: seq<Option<InboxKey>>, last: nat): map<InboxKey, nat> {
    if keys == [] then inbox else
    var rest := Paired(inbox, keys[..|keys| - 1], last);
    match keys[|keys| - 1]
    case None => rest
    case Some(key) => rest[key := last + |keys|]
  }

  lemma PairedStep(inbox: map<InboxKey, nat>, keys: seq<Option<InboxKey>>, last: nat, n: nat)
    requires n < |keys|
    ensures Paired(inbox, keys[..n + 1], last)
            == match keys[n]
               case None => Paired(inbox, keys[..n], last)
               case Some(key) => Paired(inbox, keys[..n], last)[key := last + n + 1]
  {
    assert keys[..n + 1][..n] == keys[..n];
  }

  lemma {:induction false} PairedKeys(inbox: map<InboxKey, nat>, keys: seq<Option<InboxKey>>, last: nat, key: InboxKey)
    ensures key in Paired(inbox, keys, last) <==> key in inbox || Some(key) in keys
  {
    if keys != [] {
      PairedKeys(inbox, keys[..|keys| - 1], last, key);
      assert keys == keys[..|keys| - 1] + [keys[|keys| - 1]];
    }
  }

  lemma {:induction false} PairedSize(inbox: map<InboxKey, nat>, keys: seq<Option<InboxKey>>, last: nat, max: nat)
    requires Fresh(keys, inbox, max)
    ensures |Paired(inbox, keys, last)| == |inbox| + |Numbered(keys)|
  {
    hide Distinct;
    if keys != [] {
      hide Fresh, Numbered, Paired;
      var n := |keys| - 1;
      var rest, key := keys[..n], keys[n];
      assert keys[..n + 1] == keys == rest + [key];
      PairedStep(inbox, keys, last, n);
      FreshBefore(keys, inbox, max, n);
      FreshSize(rest, inbox, max, key);
      PairedSize(inbox, rest, last, max);
      if key.Some? {
        PairedKeys(inbox, rest, last, key.value);
        NumberedKeys(rest, key.value);
        Insertion(Paired(inbox, rest, last), key.value, last + n + 1);
      }
    }
  }

  lemma Insertion<K, V>(before: map<K, V>, key: K, value: V)
    requires key !in before
    ensures before[key := value].Keys == before.Keys + {key} && |before[key := value]| == |before| + 1
  {
    assert before[key := value].Keys == before.Keys + {key};
    assert |before| == |before.Keys| && |before[key := value]| == |before[key := value].Keys|;
  }

  /** The bytes of an admitted group extend the history. */
  lemma {:induction false} HistoryGrows(c: Config, log: seq<Bytes>, more: seq<Bytes>)
    requires History(c, log)
    requires forall i | 0 <= i < |more| :: Readable(c.w, more[i], |log| + i + 1)
    requires Fresh(NonceKeys(c.w, more), NonceMap(c.w, log), c.limits.maxNonces)
    ensures History(c, log + more)
    ensures |NonceMap(c.w, log + more)| == |NonceMap(c.w, log)| + |Numbered(NonceKeys(c.w, more))|
    decreases |more|
  {
    hide History, Fresh, Readable, NonceMap, NonceOf, NonceKeys, Numbered, Distinct;
    if more == [] {
      assert log + more == log;
      NoNonces(c.w);
    } else {
      var rest, json := more[..|more| - 1], more[|more| - 1];
      assert more == rest + [json] && log + more == log + rest + [json];
      NonceMapGrows(c.w, rest, json);
      FreshSize(NonceKeys(c.w, rest), NonceMap(c.w, log), c.limits.maxNonces, NonceOf(c.w, json));
      HistoryGrows(c, log, rest);
      var key := NonceOf(c.w, json);
      if key.Some? { NonceMapKeys(c.w, log, rest, key.value); }
      HistoryStep(c, log + rest, json);
      NonceMapGrows(c.w, log + rest, json);
      if key.Some? { Insertion(NonceMap(c.w, log + rest), key.value, |log + rest| + 1); }
    }
  }

  lemma NonceMapKeys(w: Wire, log: seq<Bytes>, more: seq<Bytes>, key: NonceKey)
    ensures key in NonceMap(w, log + more) <==> key in NonceMap(w, log) || key in Numbered(NonceKeys(w, more))
  {
    hide Numbered;
    assert NonceKeys(w, log + more) == NonceKeys(w, log) + NonceKeys(w, more);
    NumberedKeys(NonceKeys(w, log + more), key);
    NumberedKeys(NonceKeys(w, log), key);
    NumberedKeys(NonceKeys(w, more), key);
  }

  lemma NoNonces(w: Wire)
    ensures NonceKeys(w, []) == [] && Numbered<NonceKey>([]) == map[]
  {}

  /** An admitted group, read back from its bytes. */
  lemma GroupReads(c: Config, log: seq<Bytes>, batch: seq<Entry>)
    requires Serializes(batch) && Follows(c.w, |log|, batch)
    ensures NonceKeys(c.w, Jsons(batch)) == BatchNonces(c.w, batch)
    ensures forall i | 0 <= i < |batch| :: Readable(c.w, Jsons(batch)[i], |log| + i + 1)
  {
    hide Readable, NonceOf, MessageKey, WellWritten;
    forall i | 0 <= i < |batch|
      ensures Readable(c.w, Jsons(batch)[i], |log| + i + 1)
              && NonceOf(c.w, Jsons(batch)[i]) == MessageKey(c.w, batch[i].message)
    {
      WrittenReadsBack(c.w, batch[i].message);
    }
  }

  /** The messages of a group as they are published, and the chain after each. */
  datatype Group = Group(published: seq<Published>, chains: seq<Digest>, chain: Digest)

  /** The group `texts` after `log`, under the numbers after `last`. */
  ghost predicate IsGroup(h: Hasher, last: nat, log: seq<Bytes>, texts: seq<Bytes>, g: Group) {
    && |g.published| == |g.chains| == |texts|
    && (forall i | 0 <= i < |texts| :: g.published[i] == Published(last + i + 1, texts[i]))
    && (forall i | 0 <= i < |texts| :: g.chains[i] == ChainAfter(h, log + texts, |log| + i + 1))
    && g.chain == ChainOf(h, log + texts)
  }

  lemma GroupStep(h: Hasher, last: nat, log: seq<Bytes>, texts: seq<Bytes>, g: Group, json: Bytes)
    requires IsGroup(h, last, log, texts, g)
    ensures var chain := h.link(g.chain, json);
            IsGroup(h, last, log, texts + [json],
                    Group(g.published + [Published(last + |texts| + 1, json)], g.chains + [chain], chain))
  {
    hide ChainOf, ChainAfter;
    assert log + texts + [json] == log + (texts + [json]);
    ChainGrows(h, log + texts, json);
  }

  /** The first loop of `sequence`: each message becomes bytes once. */
  method Serialize(c: Config, chain: Digest, batch: seq<Entry>, ghost last: nat, ghost log: seq<Bytes>)
    returns (r: Result<Group>)
    requires Follows(c.w, last, batch) && chain == ChainOf(c.h, log)
    ensures r.Ok? <==> Serializes(batch)
    ensures r.Ok? ==> IsGroup(c.h, last, log, Jsons(batch), r.value)
  {
    hide IsGroup, ChainOf, WellWritten;
    var g := Group([], [], chain);
    assert IsGroup(c.h, last, log, [], g) by { NoGroup(c.h, last, log, g); }
    ghost var texts: seq<Bytes> := [];
    for n := 0 to |batch|
      invariant |texts| == n && IsGroup(c.h, last, log, texts, g)
      invariant forall i | 0 <= i < n :: batch[i].message.json == Some(texts[i])
    {
      var json := batch[n].message.json;
      if json.None? { return Err("a feed message could not be serialized"); }
      GroupStep(c.h, last, log, texts, g, json.value);
      var next := c.h.link(g.chain, json.value);
      g := Group(g.published + [Published(batch[n].message.id, json.value)], g.chains + [next], next);
      texts := texts + [json.value];
    }
    assert texts == Jsons(batch);
    r := Ok(g);
  }

  lemma NoGroup(h: Hasher, last: nat, log: seq<Bytes>, g: Group)
    requires g == Group([], [], ChainOf(h, log))
    ensures IsGroup(h, last, log, [], g)
  {
    assert log + [] == log;
  }

  lemma GroupSize(h: Hasher, last: nat, log: seq<Bytes>, texts: seq<Bytes>, g: Group)
    requires IsGroup(h, last, log, texts, g)
    ensures |g.published| == |g.chains| == |texts| && g.chain == ChainOf(h, log + texts)
    ensures forall i | 0 <= i < |texts| :: g.published[i] == Published(last + i + 1, texts[i])
  {}

  function Bodies(g: Group): seq<Bytes> {
    seq(|g.published|, i requires 0 <= i < |g.published| => g.published[i].json)
  }

  lemma GroupBodies(h: Hasher, last: nat, log: seq<Bytes>, texts: seq<Bytes>, g: Group)
    requires IsGroup(h, last, log, texts, g)
    ensures Bodies(g) == texts
  {}

  // ---------------------------------------------------------------------------
  // The transaction
  // ---------------------------------------------------------------------------

  /** The tree a group is appended to: the first group of a history clears the table. */
  function Cleared(nodes: Nodes, leaves: nat): Nodes {
    if leaves == 0 then map[] else nodes
  }

  function GroupRows(g: Group): (rows: seq<Row>)
    requires |g.published| == |g.chains|
    ensures |rows| == |g.published|
  {
    seq(|g.published|, i requires 0 <= i < |g.published| =>
          Row(g.published[i].id, g.published[i].json, Some(g.chains[i])))
  }

  /** A number after `last` of a group of `n` is on a row already. */
  predicate RowsClash(rows: seq<Row>, last: nat, n: nat) {
    exists i | 0 <= i < |rows| :: last < rows[i].id <= last + n
  }

  /** Keys that are all different and not used yet. */
  predicate NewKeys<K(==)>(keys: seq<Option<K>>, used: map<K, nat>) {
    Distinct(keys) && forall i | 0 <= i < |keys| && keys[i].Some? :: keys[i].value !in used
  }

  /** What the transaction leaves; None where a plain insert meets a key that is there,
      or the tree cannot take the leaves. */
  ghost function WrittenDb(c: Config, db: Db, session: string, leaves: nat, last: nat, batch: seq<Entry>, g: Group)
    : Option<Db>
    requires Serializes(batch) && |g.published| == |g.chains|
  {
    if RowsClash(db.rows, last, |batch|) || !NewKeys(BatchInbox(batch), db.inbox) then None else
    match Grow(c.h, Cleared(db.nodes, leaves), leaves, Jsons(batch))
    case None => None
    case Some(nodes) =>
      match Root(c.h, nodes, leaves + |batch|)
      case None => None
      case Some(root) =>
        Some(Db(db.rows + GroupRows(g), Paired(db.inbox, BatchInbox(batch), last), db.pins, Some(session),
                Some(CheckpointRow(c, session, last + |batch|, g.chain, root)), nodes))
  }

  /** The transaction of `sequence`. `commits` is whether the disk takes it; None
      means nothing of it was written. */
  method WriteGroup(c: Config, db: Db, session: string, leaves: nat, batch: seq<Entry>, g: Group, commits: bool,
                    ghost last: nat, ghost log: seq<Bytes>)
    returns (w: Option<Db>)
    requires Serializes(batch) && Follows(c.w, last, batch) && IsGroup(c.h, last, log, Jsons(batch), g)
    requires batch != []
    ensures |g.published| == |g.chains|
    ensures w == if commits then WrittenDb(c, db, session, leaves, last, batch, g) else None
  {
    hide IsGroup, WellWritten, Grow, Root, Paired, Distinct;
    ghost var texts, keys := Jsons(batch), BatchInbox(batch);
    GroupSize(c.h, last, log, texts, g);
    GroupBodies(c.h, last, log, texts, g);
    var rows, inbox := db.rows, db.inbox;
    NoRowsYet(db, keys, last);
    for n := 0 to |batch|
      invariant rows == db.rows + GroupRows(g)[..n] && !RowsClash(db.rows, last, n)
      invariant inbox == Paired(db.inbox, keys[..n], last) && NewKeys(keys[..n], db.inbox)
    {
      var id := g.published[n].id;
      var key := batch[n].inbox;
      RowInsert(db.rows, GroupRows(g), last, n, |batch|);
      PairInsert(db.inbox, keys, last, n);
      if exists i | 0 <= i < |rows| :: rows[i].id == id { return None; }
      if key.Some? && key.value in inbox { return None; }
      rows := rows + [Row(id, g.published[n].json, Some(g.chains[n]))];
      if key.Some? { inbox := inbox[key.value := id]; }
    }
    assert keys[..|batch|] == keys && GroupRows(g)[..|batch|] == GroupRows(g);
    var nodes := AppendLeaves(c.h, Cleared(db.nodes, leaves), leaves, Bodies(g));
    if nodes.None? { return None; }
    var root := Root(c.h, nodes.value, leaves + |batch|);
    if !commits || root.None? { return None; }
    var signed := CheckpointRow(c, session, batch[|batch| - 1].message.id, g.chain, root.value);
    w := Some(Db(rows, inbox, db.pins, Some(session), Some(signed), nodes.value));
  }

  lemma NoRowsYet(db: Db, keys: seq<Option<InboxKey>>, last: nat)
    ensures !RowsClash(db.rows, last, 0) && Paired(db.inbox, keys[..0], last) == db.inbox
    ensures NewKeys(keys[..0], db.inbox)
  {
    assert keys[..0] == [];
  }

  /** Row `n` of a group finds its number taken exactly where the file held it before. */
  lemma RowInsert(before: seq<Row>, added: seq<Row>, last: nat, n: nat, size: nat)
    requires n < |added| <= size && forall i | 0 <= i < |added| :: added[i].id == last + i + 1
    requires !RowsClash(before, last, n)
    ensures var rows := before + added[..n];
            && ((exists i | 0 <= i < |rows| :: rows[i].id == last + n + 1) <==> RowsClash(before, last, n + 1))
            && (RowsClash(before, last, n + 1) ==> RowsClash(before, last, size))
            && before + added[..n + 1] == rows + [added[n]]
  {
    var rows := before + added[..n];
    if RowsClash(before, last, n + 1) {
      var i :| 0 <= i < |before| && last < before[i].id <= last + n + 1;
      assert rows[i].id == last + n + 1;
    }
  }

  lemma PairInsert(inbox: map<InboxKey, nat>, keys: seq<Option<InboxKey>>, last: nat, n: nat)
    requires n < |keys| && NewKeys(keys[..n], inbox)
    ensures NewKeys(keys[..n + 1], inbox) <==> keys[n].None? || keys[n].value !in Paired(inbox, keys[..n], last)
    ensures NewKeys(keys, inbox) ==> NewKeys(keys[..n + 1], inbox)
    ensures Paired(inbox, keys[..n + 1], last)
            == match keys[n]
               case None => Paired(inbox, keys[..n], last)
               case Some(key) => Paired(inbox, keys[..n], last)[key := last + n + 1]
  {
    hide Paired;
    PairedStep(inbox, keys, last, n);
    if keys[n].Some? { PairedKeys(inbox, keys[..n], last, keys[n].value); }
  }

  // ---------------------------------------------------------------------------
  // What it leaves
  // ---------------------------------------------------------------------------

  lemma RowsStep(h: Hasher, last: nat, log: seq<Bytes>, texts: seq<Bytes>, g: Group, n: nat)
    requires IsGroup(h, last, log, texts, g) && n < |texts|
    ensures g.chains[n] == ChainOf(h, log + texts[..n + 1])
  {
    hide ChainOf;
    assert (log + texts)[..|log| + n + 1] == log + texts[..n + 1];
  }

  /** A group with the next numbers extends the rows of a log to those of the longer one. */
  lemma RowsExtend(h: Hasher, log: seq<Bytes>, texts: seq<Bytes>, g: Group)
    requires IsGroup(h, |log|, log, texts, g)
    ensures RowsOf(h, log) + GroupRows(g) == RowsOf(h, log + texts)
  {
    hide ChainOf;
    forall n: nat | n <= |log| ensures ChainAfter(h, log + texts, n) == ChainAfter(h, log, n) {
      assert (log + texts)[..n] == log[..n];
    }
  }

  lemma EdgeAfter(h: Hasher, nodes: Nodes, log: seq<Bytes>, texts: seq<Bytes>, grown: Nodes)
    requires EdgeRight(h, nodes, log) && Grow(h, Cleared(nodes, |log|), |log|, texts) == Some(grown)
    ensures EdgeRight(h, grown, log + texts)
    ensures Root(h, grown, |log| + |texts|) == Some(Mth(h, log + texts))
  {
    hide Grow, EdgeRight, Root, Mth;
    if log == [] { EmptyEdge(h, map[]); }
    GrowKeepsEdge(h, Cleared(nodes, |log|), log, texts);
    EdgeGivesRoot(h, grown, log + texts);
  }

  lemma ShapeAfter(h: Hasher, seal: Option<Seal>, nodes: Nodes, log: seq<Bytes>, texts: seq<Bytes>, grown: Nodes)
    requires Settled(h, log, seal, nodes) && (log != [] ==> seal.Some?)
    requires Grow(h, Cleared(nodes, |log|), |log|, texts) == Some(grown)
    ensures Shaped(grown, |log| + |texts|)
  {
    hide Grow, Shaped, Stored;
    if log == [] {
      EmptyStored(h);
      StoredIsShaped(h, map[], []);
    } else if seal.value.root.Absent? {
      EmptyStored(h);
      GrowKeepsStored(h, map[], [], log);
      assert [] + log == log;
      StoredIsShaped(h, nodes, log);
    }
    GrowKeepsShape(h, Cleared(nodes, |log|), |log|, texts);
  }

  /** Over a right edge a group can be written exactly where its leaves have room. */
  lemma TakesIffRoom(h: Hasher, nodes: Nodes, log: seq<Bytes>, texts: seq<Bytes>)
    requires EdgeRight(h, nodes, log)
    ensures Grow(h, Cleared(nodes, |log|), |log|, texts).Some? <==> Room(Cleared(nodes, |log|), |log|, |texts|)
  {
    hide Grow, EdgeRight, Room;
    if log == [] { EmptyEdge(h, map[]); }
    GrowTakesIffRoom(h, Cleared(nodes, |log|), log, texts);
  }

  lemma NoClash(h: Hasher, log: seq<Bytes>, last: nat, n: nat)
    requires last >= |log|
    ensures !RowsClash(RowsOf(h, log), last, n)
  {
    hide ChainAfter;
  }

  lemma FreshKeys(keys: seq<Option<InboxKey>>, used: map<InboxKey, nat>, max: nat)
    requires Fresh(keys, used, max)
    ensures NewKeys(keys, used)
  {}

  /** When an admitted group is written over the file of a log, whatever its numbers. */
  lemma WrittenWhere(c: Config, db: Db, session: string, log: seq<Bytes>, last: nat, batch: seq<Entry>, g: Group)
    requires Serializes(batch) && IsGroup(c.h, last, log, Jsons(batch), g) && last >= |log|
    requires OnDisk(c, session, log, db.inbox, db) && Fresh(BatchInbox(batch), db.inbox, c.limits.maxInbox)
    ensures |g.published| == |g.chains|
    ensures var w := WrittenDb(c, db, session, |log|, last, batch, g);
            && (w.Some? <==> Room(Cleared(db.nodes, |log|), |log|, |batch|))
            && (w.Some? ==> w.value.rows == RowsOf(c.h, log) + GroupRows(g)
                            && w.value.inbox == Paired(db.inbox, BatchInbox(batch), last)
                            && w.value.pins == db.pins)
  {
    hide ChainOf, Mth, Grow, EdgeRight, Root, Room, Settled, Covers, Fresh, RowsOf, RowsClash, NewKeys, Paired;
    GroupSize(c.h, last, log, Jsons(batch), g);
    NoClash(c.h, log, last, |batch|);
    FreshKeys(BatchInbox(batch), db.inbox, c.limits.maxInbox);
    TakesIffRoom(c.h, db.nodes, log, Jsons(batch));
    var grown := Grow(c.h, Cleared(db.nodes, |log|), |log|, Jsons(batch));
    if grown.Some? { EdgeAfter(c.h, db.nodes, log, Jsons(batch), grown.value); }
  }

  /** With the next numbers, what is written is the file of the longer log. */
  lemma WrittenInStep(c: Config, db: Db, session: string, log: seq<Bytes>, batch: seq<Entry>, g: Group)
    requires Serializes(batch) && IsGroup(c.h, |log|, log, Jsons(batch), g) && batch != [] && Signs(c.k)
    requires OnDisk(c, session, log, db.inbox, db) && |g.published| == |g.chains|
    requires WrittenDb(c, db, session, |log|, |log|, batch, g).Some?
    ensures var w, all := WrittenDb(c, db, session, |log|, |log|, batch, g).value, log + Jsons(batch);
            && OnDisk(c, session, all, Paired(db.inbox, BatchInbox(batch), |log|), w)
            && w.seal == Some(SealFor(c, session, all)) && w.pins == db.pins
            && Grow(c.h, Cleared(db.nodes, |log|), |log|, Jsons(batch)) == Some(w.nodes)
  {
    hide ChainOf, Mth, Grow, EdgeRight, Root, RowsOf, Paired, Shaped, RowsClash, NewKeys, IsGroup;
    var texts := Jsons(batch);
    var nodes := Grow(c.h, Cleared(db.nodes, |log|), |log|, texts).value;
    GroupSize(c.h, |log|, log, texts, g);
    RowsExtend(c.h, log, texts, g);
    EdgeAfter(c.h, db.nodes, log, texts, nodes);
    ShapeAfter(c.h, db.seal, db.nodes, log, texts, nodes);
    SealCovers(c, session, log + texts);
  }

  /** Rows that run ahead of their own count. */
  predicate Skips(rows: seq<Row>) {
    rows != [] && rows[|rows| - 1].id > |rows|
  }

  /** A group under numbers past a gap leaves rows that skip one, and so does every
      group after it. */
  lemma GroupSkips(h: Hasher, rows: seq<Row>, last: nat, log: seq<Bytes>, texts: seq<Bytes>, g: Group)
    requires IsGroup(h, last, log, texts, g) && |rows| < last && texts != []
    requires forall i | 0 <= i < |rows| :: rows[i].id <= last
    ensures |g.published| == |g.chains|
    ensures Skips(rows + GroupRows(g))
    ensures var all := rows + GroupRows(g); forall i | 0 <= i < |all| :: all[i].id <= last + |texts|
  {
    hide ChainAfter, ChainOf;
    var all := rows + GroupRows(g);
    assert all[|all| - 1] == GroupRows(g)[|texts| - 1];
  }

  lemma SealCovers(c: Config, session: string, log: seq<Bytes>)
    requires Signs(c.k)
    ensures Covers(c, session, log, SealFor(c, session, log))
  {
    hide ChainOf, Mth;
  }
}
