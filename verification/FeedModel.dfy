/** The sequencer's durable log: what is on disk, what is in memory, and what both
    must be, as functions of the list of published messages. */
module FeedModel {
  import opened Common
  import opened Rfc9162
  import opened NodeStore
  import opened TreeEdge

  const MESSAGE_WINDOW: nat := 10_000

  type NonceKey = (nat, string)
  type InboxKey = (string, int)

  // ---------------------------------------------------------------------------
  // The hash chain
  // ---------------------------------------------------------------------------

  /** The chain over a list of messages; `Zero` is `EMPTY_CHAIN`. */
  function ChainOf(h: Hasher, log: seq<Bytes>): Digest {
    if log == [] then Zero else h.link(ChainOf(h, log[..|log| - 1]), log[|log| - 1])
  }

  lemma LinkParts(h: Hasher, a: Digest, b: Bytes, c: Digest, d: Bytes)
    requires LinkInjective(h) && h.link(a, b) == h.link(c, d)
    ensures a == c && b == d
  {}

  /** With a collision-free link, a chain value and a length fix every message. */
  lemma {:induction false} ChainFixesLog(h: Hasher, a: seq<Bytes>, b: seq<Bytes>)
    requires LinkInjective(h) && |a| == |b| && ChainOf(h, a) == ChainOf(h, b)
    ensures a == b
  {
    hide LinkInjective;
    if a != [] {
      var n := |a| - 1;
      LinkParts(h, ChainOf(h, a[..n]), a[n], ChainOf(h, b[..n]), b[n]);
      ChainFixesLog(h, a[..n], b[..n]);
      assert a == a[..n] + [a[n]] && b == b[..n] + [b[n]];
    }
  }

  /** The chain after the first `n` messages. */
  function ChainAfter(h: Hasher, log: seq<Bytes>, n: nat): Digest
    requires n <= |log|
  {
    ChainOf(h, log[..n])
  }

  lemma ChainGrows(h: Hasher, log: seq<Bytes>, json: Bytes)
    ensures ChainOf(h, log + [json]) == h.link(ChainOf(h, log), json)
    ensures forall n: nat | n <= |log| :: ChainAfter(h, log + [json], n) == ChainAfter(h, log, n)
    ensures ChainAfter(h, log + [json], |log| + 1) == ChainOf(h, log + [json])
    ensures ChainAfter(h, log, |log|) == ChainOf(h, log)
  {
    assert (log + [json])[..|log|] == log;
    hide ChainOf;
    forall n: nat | n <= |log| ensures ChainAfter(h, log + [json], n) == ChainAfter(h, log, n) {
      assert (log + [json])[..n] == log[..n];
    }
    assert (log + [json])[..|log| + 1] == log + [json];
    assert log[..|log|] == log;
  }

  // ---------------------------------------------------------------------------
  // Messages as stored and served
  // ---------------------------------------------------------------------------

  datatype Published = Published(id: nat, json: Bytes)

  function Messages(log: seq<Bytes>): seq<Published> {
    seq(|log|, i requires 0 <= i < |log| => Published(i + 1, log[i]))
  }

  /** The chain value after each message. */
  function Links(h: Hasher, log: seq<Bytes>): seq<Digest> {
    seq(|log|, i requires 0 <= i < |log| => ChainAfter(h, log, i + 1))
  }

  /** The last `MESSAGE_WINDOW` of a list. */
  function Tail<T>(s: seq<T>): seq<T> {
    if |s| <= MESSAGE_WINDOW then s else s[|s| - MESSAGE_WINDOW..]
  }

  lemma TailIs<T>(s: seq<T>)
    ensures |Tail(s)| == if |s| <= MESSAGE_WINDOW then |s| else MESSAGE_WINDOW
    ensures Tail(s) == s[|s| - |Tail(s)|..]
  {}

  lemma MessagesGrow(h: Hasher, log: seq<Bytes>, json: Bytes)
    ensures Messages(log + [json]) == Messages(log) + [Published(|log| + 1, json)]
    ensures Links(h, log + [json]) == Links(h, log) + [ChainOf(h, log + [json])]
  {
    ChainGrows(h, log, json);
    hide ChainOf, ChainAfter;
  }

  /** What `push_window` does to a full window and to one with room. */
  lemma TailGrows<T>(s: seq<T>, x: T)
    ensures Tail(s + [x]) == (if |Tail(s)| == MESSAGE_WINDOW then Tail(s)[1..] else Tail(s)) + [x]
  {}

  // ---------------------------------------------------------------------------
  // Used keys
  // ---------------------------------------------------------------------------

  /** Which message each key became: message `i + 1` carries `keys[i]`. */
  function Numbered<K>(keys: seq<Option<K>>): map<K, nat> {
    if keys == [] then map[] else
    var rest, last := Numbered(keys[..|keys| - 1]), keys[|keys| - 1];
    match last
    case None => rest
    case Some(key) => rest[key := |keys|]
  }

  predicate Distinct<K(==)>(keys: seq<Option<K>>) {
    forall i, j | 0 <= i < j < |keys| :: keys[i].Some? ==> keys[i] != keys[j]
  }

  lemma {:induction false} NumberedKeys<K>(keys: seq<Option<K>>, key: K)
    ensures key in Numbered(keys) <==> Some(key) in keys
  {
    if keys != [] {
      NumberedKeys(keys[..|keys| - 1], key);
      assert keys == keys[..|keys| - 1] + [keys[|keys| - 1]];
    }
  }

  lemma LastIsFresh<K>(keys: seq<Option<K>>, key: K)
    requires Distinct(keys + [Some(key)])
    ensures Distinct(keys) && key !in Numbered(keys)
  {
    var all := keys + [Some(key)];
    assert all[|keys|] == Some(key);
    forall i | 0 <= i < |keys| ensures keys[i] != Some(key) {
      assert all[i] == keys[i];
    }
    forall i, j | 0 <= i < j < |keys| && keys[i].Some? ensures keys[i] != keys[j] {
      assert all[i] == keys[i] && all[j] == keys[j];
    }
    NumberedKeys(keys, key);
  }

  lemma FreshIsDistinct<K>(keys: seq<Option<K>>, key: K)
    requires Distinct(keys) && key !in Numbered(keys)
    ensures Distinct(keys + [Some(key)])
  {
    NumberedKeys(keys, key);
  }

  /** A key is used by exactly the message its map entry names. */
  lemma {:induction false} NumberedNames<K>(keys: seq<Option<K>>, i: nat)
    requires Distinct(keys) && i < |keys| && keys[i].Some?
    ensures keys[i].value in Numbered(keys) && Numbered(keys)[keys[i].value] == i + 1
  {
    if i < |keys| - 1 {
      assert keys[..|keys| - 1][i] == keys[i];
      NumberedNames(keys[..|keys| - 1], i);
      assert keys[|keys| - 1] != keys[i];
    }
  }

  lemma {:induction false} NumberedGrows<K>(keys: seq<Option<K>>, more: seq<Option<K>>)
    ensures Numbered(keys).Keys <= Numbered(keys + more).Keys
    ensures |Numbered(keys)| <= |Numbered(keys + more)|
    decreases |more|
  {
    if more == [] {
      assert keys + more == keys;
    } else {
      NumberedGrows(keys, more[..|more| - 1]);
      assert (keys + more)[..|keys + more| - 1] == keys + more[..|more| - 1];
    }
    Inside(Numbered(keys).Keys, Numbered(keys + more).Keys);
    assert |Numbered(keys)| == |Numbered(keys).Keys|;
    assert |Numbered(keys + more)| == |Numbered(keys + more).Keys|;
  }

  lemma {:induction false} Inside<T>(a: set<T>, b: set<T>)
    requires a <= b
    ensures |a| <= |b|
  {
    if a != {} {
      var x :| x in a;
      Inside(a - {x}, b - {x});
    }
  }

  // ---------------------------------------------------------------------------
  // What a message says about itself
  // ---------------------------------------------------------------------------

  /** The part of a message every build can read. */
  datatype Envelope = Envelope(id: nat, account: Option<nat>, nonce: Option<string>)

  datatype Wire = Wire(envelope: Bytes -> Result<Envelope>, canonicalNonce: string -> Option<string>)

  /** The nonce a stored message uses, read from its bytes. */
  function NonceOf(w: Wire, json: Bytes): Option<NonceKey> {
    match w.envelope(json)
    case Err(_) => None
    case Ok(e) =>
      if e.nonce.None? || e.account.None? then None else
      match w.canonicalNonce(e.nonce.value)
      case None => None
      case Some(nonce) => Some((e.account.value, nonce))
  }

  /** A row this feed can stand behind: its bytes carry its own number, and a
      nonce, if they carry one, that can be keyed. */
  predicate Readable(w: Wire, json: Bytes, id: nat) {
    var e := w.envelope(json);
    e.Ok? && e.value.id == id && (e.value.nonce.Some? ==> NonceOf(w, json).Some?)
  }

  function NonceKeys(w: Wire, log: seq<Bytes>): (keys: seq<Option<NonceKey>>) {
    seq(|log|, i requires 0 <= i < |log| => NonceOf(w, log[i]))
  }

  function NonceMap(w: Wire, log: seq<Bytes>): map<NonceKey, nat> {
    Numbered(NonceKeys(w, log))
  }

  lemma NonceMapGrows(w: Wire, log: seq<Bytes>, json: Bytes)
    ensures NonceKeys(w, log + [json]) == NonceKeys(w, log) + [NonceOf(w, json)]
    ensures NonceMap(w, log + [json])
            == match NonceOf(w, json) case None => NonceMap(w, log) case Some(key) => NonceMap(w, log)[key := |log| + 1]
  {
    var keys := NonceKeys(w, log + [json]);
    assert keys == NonceKeys(w, log) + [NonceOf(w, json)];
    assert keys[..|log|] == NonceKeys(w, log);
  }

  // ---------------------------------------------------------------------------
  // Signatures
  // ---------------------------------------------------------------------------

  /** The two statements a checkpoint carries signatures over. */
  datatype Statement =
    | Head(session: string, lastId: nat, chain: Digest)
    | Checkpoint(session: string, lastId: nat, chain: Digest, root: Digest)

  /** One key pair. */
  datatype Signer = Signer(sign: Statement -> Bytes, verify: (Statement, Bytes) -> bool)

  ghost predicate Signs(k: Signer) {
    forall s :: k.verify(s, k.sign(s))
  }

  datatype Limits = Limits(maxNonces: nat, maxAccounts: nat, maxInbox: nat, maxMemory: nat, maxBatch: nat,
                           maxRetry: nat)

  predicate Positive(l: Limits) {
    && l.maxNonces > 0 && l.maxAccounts > 0 && l.maxInbox > 0 && l.maxMemory > 0 && l.maxBatch > 0
    && l.maxRetry > 0
  }

  datatype Config = Config(h: Hasher, w: Wire, k: Signer, limits: Limits)

  // ---------------------------------------------------------------------------
  // The database
  // ---------------------------------------------------------------------------

  /** A row of `feed_messages`; the link is None where the column is not 32 bytes. */
  datatype Row = Row(id: int, json: Bytes, chain: Option<Digest>)

  /** A field of the stored checkpoint. */
  datatype Field<+T> = Absent | Unreadable | Held(value: T)

  datatype Seal = Seal(lastId: nat, chain: Field<Digest>, signature: Field<Bytes>,
                       root: Field<Digest>, rootSignature: Field<Bytes>)

  /** A pinned public key; None where the column is not a readable key. */
  type Pins = map<nat, Option<string>>

  /** `feed.db`: the messages in key order, the inbox pairings, the pinned keys, the two
      rows of `feed_meta`, and the tree. */
  datatype Db = Db(rows: seq<Row>, inbox: map<InboxKey, nat>, pins: Pins, session: Option<string>,
                   seal: Option<Seal>, nodes: Nodes)

  predicate AllReadable(pins: Pins) {
    forall account | account in pins :: pins[account].Some?
  }

  function KeysOf(pins: Pins): map<nat, string>
    requires AllReadable(pins)
  {
    map account | account in pins :: pins[account].value
  }

  function Texts(rows: seq<Row>): (log: seq<Bytes>)
    ensures |log| == |rows|
  {
    seq(|rows|, i requires 0 <= i < |rows| => rows[i].json)
  }

  function RowsOf(h: Hasher, log: seq<Bytes>): seq<Row> {
    seq(|log|, i requires 0 <= i < |log| => Row(i + 1, log[i], Some(ChainAfter(h, log, i + 1))))
  }

  /** `Checkpoint::row`. */
  function CheckpointRow(c: Config, session: string, lastId: nat, chain: Digest, root: Digest): Seal {
    Seal(lastId, Held(chain), Held(c.k.sign(Head(session, lastId, chain))),
         Held(root), Held(c.k.sign(Checkpoint(session, lastId, chain, root))))
  }

  /** The row over the history `log`. */
  function SealFor(c: Config, session: string, log: seq<Bytes>): Seal {
    CheckpointRow(c, session, |log|, ChainOf(c.h, log), Mth(c.h, log))
  }

  /** The checkpoint is this key's signature over exactly this history, and over
      its tree if it names one. */
  predicate Covers(c: Config, session: string, log: seq<Bytes>, seal: Seal) {
    var chain := ChainOf(c.h, log);
    && seal.lastId == |log| && seal.chain == Held(chain)
    && seal.signature.Held? && c.k.verify(Head(session, |log|, chain), seal.signature.value)
    && (seal.root.Absent? <==> seal.rootSignature.Absent?)
    && (!seal.root.Absent? ==>
          && seal.root == Held(Mth(c.h, log)) && seal.rootSignature.Held?
          && c.k.verify(Checkpoint(session, |log|, chain, Mth(c.h, log)), seal.rootSignature.value))
  }

  /** What every message of a feed's own history satisfies. */
  ghost predicate History(c: Config, log: seq<Bytes>) {
    && (forall i | 0 <= i < |log| :: Readable(c.w, log[i], i + 1))
    && Distinct(NonceKeys(c.w, log)) && |NonceMap(c.w, log)| <= c.limits.maxNonces
  }

  /** One message more. */
  lemma HistoryStep(c: Config, log: seq<Bytes>, json: Bytes)
    requires History(c, log) && Readable(c.w, json, |log| + 1)
    requires var key := NonceOf(c.w, json);
             key.Some? ==> key.value !in NonceMap(c.w, log) && |NonceMap(c.w, log)| < c.limits.maxNonces
    ensures History(c, log + [json])
  {
    hide Numbered;
    NonceMapGrows(c.w, log, json);
    if NonceOf(c.w, json).Some? { FreshIsDistinct(NonceKeys(c.w, log), NonceOf(c.w, json).value); }
  }

  /** A start would leave the table as it is: it has the shape of the tree the
      checkpoint names, or it is the tree built from the messages where the checkpoint
      names none. */
  ghost predicate Settled(h: Hasher, log: seq<Bytes>, seal: Option<Seal>, nodes: Nodes) {
    log != [] && seal.Some? ==>
      if seal.value.root.Absent? then Grow(h, map[], 0, log) == Some(nodes) else Shaped(nodes, |log|)
  }

  /** The database holds the history `log` of `session` and nothing else, and no
      root read from it can be wrong. */
  ghost predicate OnDisk(c: Config, session: string, log: seq<Bytes>, inbox: map<InboxKey, nat>, db: Db) {
    && db.rows == RowsOf(c.h, log) && db.inbox == inbox
    && EdgeRight(c.h, db.nodes, log) && Settled(c.h, log, db.seal, db.nodes)
    && match db.seal
       case None => log == []
       case Some(seal) => db.session == Some(session) && Covers(c, session, log, seal)
  }

  /** The whole tree is there as well, so every proof read from it is right too. */
  ghost predicate Whole(c: Config, log: seq<Bytes>, nodes: Nodes) {
    log == [] || Stored(c.h, nodes, log)
  }
}
