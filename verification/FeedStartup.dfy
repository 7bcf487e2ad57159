/** Opening a database that may hold anything: one pass over its rows, the signed
    checkpoint, and the tree, ending in the state of the history it proves or in a
    refusal. */
module FeedStartup {
  import opened Common
  import opened Rfc9162
  import opened NodeStore
  import opened TreeEdge
  import opened FeedModel

  // ---------------------------------------------------------------------------
  // The pass over the rows
  // ---------------------------------------------------------------------------

  datatype Scan = Scan(messages: seq<Published>, chains: seq<Digest>, nonces: map<NonceKey, nat>, chain: Digest,
                       chainAtStored: Digest, firstBadLink: Option<nat>)

  /** The rows are messages 1..N of some history, whoever wrote them. */
  ghost predicate RowsAreHistory(c: Config, rows: seq<Row>) {
    (forall i | 0 <= i < |rows| :: rows[i].id == i + 1) && History(c, Texts(rows))
  }

  ghost predicate LinksRight(h: Hasher, rows: seq<Row>) {
    forall i | 0 <= i < |rows| :: rows[i].chain == Some(ChainAfter(h, Texts(rows), i + 1))
  }

  /** What the pass has built after some of the rows. */
  ghost predicate Passed(c: Config, rows: seq<Row>, stored: nat, s: Scan) {
    var log := Texts(rows);
    && s.messages == Tail(Messages(log)) && s.chains == Tail(Links(c.h, log))
    && s.nonces == NonceMap(c.w, log) && s.chain == ChainOf(c.h, log)
    && s.chainAtStored == (if stored <= |log| then ChainAfter(c.h, log, stored) else Zero)
    && (s.firstBadLink.None? <==> LinksRight(c.h, rows))
  }

  lemma TextsGrow(rows: seq<Row>, row: Row)
    ensures Texts(rows + [row]) == Texts(rows) + [row.json]
  {}

  /** One row read onto a scan. */
  ghost predicate RowRead(c: Config, s: Scan, row: Row, count: nat, stored: nat, next: Scan) {
    var full, chain := |s.messages| == MESSAGE_WINDOW, c.h.link(s.chain, row.json);
    && |s.messages| == |s.chains|
    && next.chain == chain
    && next.messages == (if full then s.messages[1..] else s.messages) + [Published(count, row.json)]
    && next.chains == (if full then s.chains[1..] else s.chains) + [chain]
    && next.nonces == (match NonceOf(c.w, row.json) case None => s.nonces case Some(key) => s.nonces[key := count])
    && next.chainAtStored == (if count == stored then chain else s.chainAtStored)
    && next.firstBadLink == (if s.firstBadLink.None? && row.chain != Some(chain) then Some(count) else s.firstBadLink)
  }

  /** A row the pass accepts after `count - 1` others. */
  ghost predicate Good(c: Config, nonces: map<NonceKey, nat>, row: Row, count: nat) {
    && row.id == count && Readable(c.w, row.json, count)
    && (NonceOf(c.w, row.json).Some? ==> NonceOf(c.w, row.json).value !in nonces && |nonces| < c.limits.maxNonces)
  }

  /** One good row more. */
  lemma RowPasses(c: Config, rows: seq<Row>, row: Row)
    requires RowsAreHistory(c, rows) && Good(c, NonceMap(c.w, Texts(rows)), row, |rows| + 1)
    ensures RowsAreHistory(c, rows + [row])
  {
    hide NonceMap, NonceKeys, Distinct, Readable;
    TextsGrow(rows, row);
    HistoryStep(c, Texts(rows), row.json);
  }

  /** A prefix of a history is one. */
  lemma HistoryBefore(c: Config, rows: seq<Row>, n: nat)
    requires RowsAreHistory(c, rows) && n <= |rows|
    ensures RowsAreHistory(c, rows[..n])
  {
    hide Numbered;
    var keys, log := NonceKeys(c.w, Texts(rows)), Texts(rows[..n]);
    assert Texts(rows)[..n] == log;
    assert NonceKeys(c.w, log) == keys[..n];
    assert keys[..n] + keys[n..] == keys;
    NumberedGrows(keys[..n], keys[n..]);
  }

  /** What the next row of a history must be, given the rows before it. */
  lemma NextRowIsGood(c: Config, rows: seq<Row>, n: nat)
    requires RowsAreHistory(c, rows) && n < |rows|
    ensures Good(c, NonceMap(c.w, Texts(rows[..n])), rows[n], n + 1)
  {
    hide Numbered;
    HistoryBefore(c, rows, n + 1);
    var before, json := Texts(rows[..n]), rows[n].json;
    assert rows[..n + 1] == rows[..n] + [rows[n]];
    TextsGrow(rows[..n], rows[n]);
    NonceMapGrows(c.w, before, json);
    assert Texts(rows)[n] == json;
    if NonceOf(c.w, json).Some? {
      LastIsFresh(NonceKeys(c.w, before), NonceOf(c.w, json).value);
    }
  }

  lemma PassStep(c: Config, rows: seq<Row>, stored: nat, s: Scan, row: Row, next: Scan)
    requires Passed(c, rows, stored, s) && RowRead(c, s, row, |rows| + 1, stored, next)
    ensures Passed(c, rows + [row], stored, next)
  {
    var log := Texts(rows);
    hide Texts, ChainOf, ChainAfter, NonceMap;
    TextsGrow(rows, row);
    MessagesGrow(c.h, log, row.json);
    ChainGrows(c.h, log, row.json);
    NonceMapGrows(c.w, log, row.json);
    TailGrows(Messages(log), Published(|log| + 1, row.json));
    TailGrows(Links(c.h, log), next.chain);
    LinksStep(c, rows, row, next.chain);
  }

  lemma LinksStep(c: Config, rows: seq<Row>, row: Row, chain: Digest)
    requires chain == ChainOf(c.h, Texts(rows) + [row.json])
    ensures LinksRight(c.h, rows + [row]) <==> LinksRight(c.h, rows) && row.chain == Some(chain)
  {
    TextsGrow(rows, row);
    ChainGrows(c.h, Texts(rows), row.json);
    hide ChainOf, ChainAfter;
    var more := rows + [row];
    if LinksRight(c.h, more) {
      forall i | 0 <= i < |rows| ensures rows[i].chain == Some(ChainAfter(c.h, Texts(rows), i + 1)) {
        assert more[i] == rows[i];
      }
      assert more[|rows|] == row;
    }
  }

  /** The body of the row loop of `with_db`. */
  method ReadRow(c: Config, s: Scan, row: Row, count: nat, stored: nat) returns (r: Result<Scan>)
    requires |s.messages| == |s.chains| && count > 0
    ensures r.Ok? <==> Good(c, s.nonces, row, count)
    ensures r.Ok? ==> RowRead(c, s, row, count, stored, r.value)
  {
    var id := if row.id < 0 then 0 else row.id;
    if id != count { return Err("message ids are not 1..N with no gaps"); }
    var chain := c.h.link(s.chain, row.json);
    var firstBadLink := if s.firstBadLink.None? && row.chain != Some(chain) then Some(count) else s.firstBadLink;
    var chainAtStored := if count == stored then chain else s.chainAtStored;
    var fields := c.w.envelope(row.json);
    if fields.Err? { return Err("a row is not a feed message"); }
    if fields.value.id != id { return Err("the bytes on a row name another message"); }
    var nonces := s.nonces;
    if fields.value.nonce.Some? {
      var key := NonceOf(c.w, row.json);
      if key.None? { return Err("a nonce this feed cannot key"); }
      if key.value !in nonces && |nonces| >= c.limits.maxNonces { return Err("stored nonces exceed capacity"); }
      if key.value in nonces { return Err("two messages under one nonce"); }
      nonces := nonces[key.value := id];
    }
    var messages, chains := s.messages, s.chains;
    if |messages| == MESSAGE_WINDOW {
      messages, chains := messages[1..], chains[1..];
    }
    r := Ok(Scan(messages + [Published(id, row.json)], chains + [chain], nonces, chain, chainAtStored, firstBadLink));
  }

  /** The row loop. `stored` is the number of leaves the tree table holds. */
  method ReadRows(c: Config, rows: seq<Row>, stored: nat) returns (r: Result<Scan>)
    ensures r.Ok? <==> RowsAreHistory(c, rows)
    ensures r.Ok? ==> Passed(c, rows, stored, r.value)
  {
    hide Numbered, Passed, RowsAreHistory, Good, RowRead;
    var s := Scan([], [], map[], Zero, Zero, None);
    NothingRead(c, stored, s);
    assert rows[..0] == [];
    for n := 0 to |rows|
      invariant RowsAreHistory(c, rows[..n]) && Passed(c, rows[..n], stored, s)
    {
      ScanSays(c, rows[..n], stored, s);
      if RowsAreHistory(c, rows) { NextRowIsGood(c, rows, n); }
      assert rows[..n + 1] == rows[..n] + [rows[n]];
      var next := ReadRow(c, s, rows[n], n + 1, stored);
      if next.Err? { return next; }
      RowPasses(c, rows[..n], rows[n]);
      PassStep(c, rows[..n], stored, s, rows[n], next.value);
      s := next.value;
    }
    assert rows[..|rows|] == rows;
    r := Ok(s);
  }

  lemma NothingRead(c: Config, stored: nat, s: Scan)
    requires s == Scan([], [], map[], Zero, Zero, None)
    ensures RowsAreHistory(c, []) && Passed(c, [], stored, s)
  {}

  lemma ScanSays(c: Config, rows: seq<Row>, stored: nat, s: Scan)
    requires Passed(c, rows, stored, s)
    ensures s.nonces == NonceMap(c.w, Texts(rows)) && s.chain == ChainOf(c.h, Texts(rows))
    ensures |s.messages| == |s.chains|
  {}

  // ---------------------------------------------------------------------------
  // The checkpoint
  // ---------------------------------------------------------------------------

  /** The session this history continues under and the root it signed, decided
      together from the two rows of `feed_meta`. */
  function CheckSeal(c: Config, session: Option<string>, seal: Option<Seal>, count: nat, chain: Digest, newName: string)
    : Result<(string, Option<Digest>)>
  {
    match seal
    case None => if count == 0 then Ok((newName, None)) else Err("messages but no signed checkpoint")
    case Some(seal) =>
      if session.None? then Err("a signed checkpoint names no session")
      else if !seal.chain.Held? then Err("the stored checkpoint's chain is not 32 hex bytes")
      else if !seal.signature.Held? then Err("the stored checkpoint's signature is not 64 hex bytes")
      else if !c.k.verify(Head(session.value, seal.lastId, seal.chain.value), seal.signature.value) then
        Err("the checkpoint is not signed by this feed's key")
      else if seal.lastId != count || seal.chain.value != chain then
        Err("not the history this feed last published")
      else
        match (seal.root, seal.rootSignature)
        case (Absent, Absent) => Ok((session.value, None))
        case (Absent, _) => Err("only the root signature is there")
        case (_, Absent) => Err("only the root is there")
        case (Held(root), Held(signature)) =>
          if c.k.verify(Checkpoint(session.value, seal.lastId, seal.chain.value, root), signature) then
            Ok((session.value, Some(root)))
          else Err("the root is not signed by this feed's key")
        case _ => Err("the root or its signature is not readable")
  }

  /** For a given history the check passes exactly where the checkpoint covers it,
      once the root it names is the right one. */
  lemma SealDecides(c: Config, session: Option<string>, seal: Seal, log: seq<Bytes>, newName: string)
    ensures var r := CheckSeal(c, session, Some(seal), |log|, ChainOf(c.h, log), newName);
            && (r.Ok? && (r.value.1.Some? ==> r.value.1.value == Mth(c.h, log))
                <==> session.Some? && Covers(c, session.value, log, seal))
            && (r.Ok? ==> session == Some(r.value.0) && (r.value.1.None? <==> seal.root.Absent?))
  {
    hide ChainOf, Mth;
  }

  // ---------------------------------------------------------------------------
  // The tree
  // ---------------------------------------------------------------------------

  method CountLeaves(nodes: Nodes) returns (n: nat)
    ensures n == StoredLeaves(nodes)
  {
    n := 0;
    var left: set<Position> := nodes.Keys;
    while left != {}
      invariant left <= nodes.Keys
      invariant forall at | at in nodes && at !in left && at.0 == 0 :: at.1 < n
      invariant n > 0 ==> (0, n - 1) in nodes
      decreases |left|
    {
      var at :| at in left;
      if at.0 == 0 && n <= at.1 { n := at.1 + 1; }
      left := left - {at};
    }
    assert n > 0 ==> (0, n - 1).1 in LeafIndices(nodes);
    TopIs(LeafIndices(nodes), n);
  }

  /** The stored leaves are kept only under a signed root, within the history, and
      with the number of rows such a tree has. */
  predicate Keeps(nodes: Nodes, stored: nat, count: nat, signed: Option<Digest>) {
    signed.Some? && stored <= count && |nodes| == NodesIn(stored)
  }

  /** The tree a start ends with: what was kept, and the rest built from the messages. */
  ghost function Built(h: Hasher, nodes: Nodes, log: seq<Bytes>, signed: Option<Digest>): Option<Nodes> {
    var from := if Keeps(nodes, StoredLeaves(nodes), |log|, signed) then StoredLeaves(nodes) else 0;
    if from == |log| then Some(nodes)
    else Grow(h, if from == 0 then map[] else nodes, from, log[from..])
  }

  /** That tree exists, and has the signed root if one was signed. */
  ghost predicate TreeAccepted(h: Hasher, nodes: Nodes, log: seq<Bytes>, signed: Option<Digest>) {
    var built := Built(h, nodes, log, signed);
    built.Some? && (signed.Some? ==> Root(h, built.value, |log|) == signed)
  }

  /** `tree::rebuild`: the missing leaves in one transaction, and the chain hashed
      a second time to show they are the messages just checked. */
  method Rebuild(h: Hasher, nodes: Nodes, rows: seq<Row>, from: nat, chainFrom: Digest, chainUpto: Digest)
    returns (r: Result<Nodes>)
    requires from <= |rows| && forall i | 0 <= i < |rows| :: rows[i].id == i + 1
    requires chainFrom == ChainAfter(h, Texts(rows), from) && chainUpto == ChainOf(h, Texts(rows))
    ensures var grown := Grow(h, if from == 0 then map[] else nodes, from, Texts(rows)[from..]);
            r == match grown case None => Err("the tree could not be built") case Some(grown) => Ok(grown)
  {
    hide Append, ChainOf;
    ghost var log := Texts(rows);
    var grown: Nodes := if from == 0 then map[] else nodes;
    ghost var start := grown;
    var chain, next := chainFrom, from;
    while next < |rows|
      invariant from <= next <= |rows| && chain == ChainAfter(h, log, next)
      invariant Grow(h, grown, next, log[next..]) == Grow(h, start, from, log[from..])
    {
      var json := rows[next].json;
      assert log[next] == json && log[next..][1..] == log[next + 1..];
      assert log[..next + 1] == log[..next] + [json];
      ChainGrows(h, log[..next], json);
      chain := h.link(chain, json);
      var appended := AppendLeaf(h, grown, next, h.leaf(json));
      if appended.None? { return Err("the tree could not be built"); }
      grown := appended.value;
      next := next + 1;
    }
    assert log[..|log|] == log;
    if chain != chainUpto { return Err("the messages moved while the tree was built"); }
    r := Ok(grown);
  }

  /** The tree half of a start. */
  method OpenTree(h: Hasher, nodes: Nodes, rows: seq<Row>, signed: Option<Digest>, stored: nat,
                  chainAtStored: Digest, chain: Digest)
    returns (r: Result<Nodes>)
    requires forall i | 0 <= i < |rows| :: rows[i].id == i + 1
    requires stored == StoredLeaves(nodes) && chain == ChainOf(h, Texts(rows))
    requires stored <= |rows| ==> chainAtStored == ChainAfter(h, Texts(rows), stored)
    ensures r.Ok? <==> TreeAccepted(h, nodes, Texts(rows), signed)
    ensures r.Ok? ==> Some(r.value) == Built(h, nodes, Texts(rows), signed)
  {
    hide Grow, Root, StoredLeaves, NodesIn;
    var count := |rows|;
    var keeps := Keeps(nodes, stored, count, signed);
    var from := if keeps then stored else 0;
    var tree := nodes;
    if from < count {
      var rebuilt := Rebuild(h, nodes, rows, from, if keeps then chainAtStored else Zero, chain);
      if rebuilt.Err? { return rebuilt; }
      tree := rebuilt.value;
    }
    if signed.Some? && Root(h, tree, count) != signed { return Err("the tree is not the one this feed signed"); }
    r := Ok(tree);
  }

  // ---------------------------------------------------------------------------
  // The start
  // ---------------------------------------------------------------------------

  datatype Opened = Opened(session: string, messages: seq<Published>, chains: seq<Digest>, chain: Digest,
                           nonces: map<NonceKey, nat>, inbox: map<InboxKey, nat>, keys: map<nat, string>,
                           leaves: nat, db: Db)

  /** What a start accepts. */
  ghost predicate Acceptable(c: Config, db: Db, newName: string) {
    var log := Texts(db.rows);
    var named := CheckSeal(c, db.session, db.seal, |log|, ChainOf(c.h, log), newName);
    && Positive(c.limits) && |db.pins| <= c.limits.maxAccounts && |db.inbox| <= c.limits.maxInbox
    && AllReadable(db.pins)
    && RowsAreHistory(c, db.rows) && LinksRight(c.h, db.rows)
    && named.Ok? && TreeAccepted(c.h, db.nodes, log, named.value.1)
  }

  /** The state it then starts from. */
  ghost function OpenedOf(c: Config, db: Db, newName: string): Opened
    requires Acceptable(c, db, newName)
  {
    var log := Texts(db.rows);
    var named := CheckSeal(c, db.session, db.seal, |log|, ChainOf(c.h, log), newName).value;
    Opened(named.0, Tail(Messages(log)), Tail(Links(c.h, log)), ChainOf(c.h, log), NonceMap(c.w, log), db.inbox,
           KeysOf(db.pins), |log|, db.(nodes := Built(c.h, db.nodes, log, named.1).value))
  }

  /** The keys fixed to accounts: all of them, or a refusal. */
  method ReadPins(pins: Pins) returns (r: Result<map<nat, string>>)
    ensures r.Ok? <==> AllReadable(pins)
    ensures r.Ok? ==> r.value == KeysOf(pins)
  {
    var left, keys: map<nat, string> := pins.Keys, map[];
    while left != {}
      invariant left <= pins.Keys
      invariant forall account | account in pins && account !in left :: pins[account].Some?
      invariant keys == map account | account in pins && account !in left && pins[account].Some? :: pins[account].value
      decreases |left|
    {
      var account :| account in left;
      if pins[account].None? { return Err("a pinned key is not readable"); }
      keys := keys[account := pins[account].value];
      left := left - {account};
    }
    r := Ok(keys);
  }

  /** `with_db_and_retention_limits`, on any database at all. */
  method Startup(c: Config, db: Db, newName: string) returns (r: Result<Opened>)
    ensures r.Ok? <==> Acceptable(c, db, newName)
    ensures r.Ok? ==> r.value == OpenedOf(c, db, newName)
  {
    hide NonceMap, ChainOf, History, CheckSeal, TreeAccepted, Built, StoredLeaves;
    if !Positive(c.limits) { return Err("feed retention limits must be positive"); }
    if |db.pins| > c.limits.maxAccounts { return Err("stored accounts exceed capacity"); }
    if |db.inbox| > c.limits.maxInbox { return Err("stored inbox records exceed capacity"); }
    var stored := CountLeaves(db.nodes);
    var scanned := ReadRows(c, db.rows, stored);
    if scanned.Err? { return Err("the rows are not a history"); }
    var s, count := scanned.value, |db.rows|;
    var named := CheckSeal(c, db.session, db.seal, count, s.chain, newName);
    if named.Err? { return Err("the checkpoint does not cover the history"); }
    var (session, signed) := named.value;
    if s.firstBadLink.Some? { return Err("a stored chain link is not the messages' own"); }
    var tree := OpenTree(c.h, db.nodes, db.rows, signed, stored, s.chainAtStored, s.chain);
    if tree.Err? { return Err("the tree is not the one this feed signed"); }
    var keys := ReadPins(db.pins);
    if keys.Err? { return Err("a pinned key is not readable"); }
    r := Ok(Opened(session, s.messages, s.chains, s.chain, s.nonces, db.inbox, keys.value, count,
                   db.(nodes := tree.value)));
  }
}
