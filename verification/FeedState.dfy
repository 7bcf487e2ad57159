/** The sequencer: a cache of the last messages over a log on disk, what a group does to
    both, and what a lost number makes of them. */
module Sequencer {
  import opened Common
  import opened Rfc9162
  import opened NodeStore
  import opened TreeEdge
  import opened TreeRoom
  import opened FeedModel
  import opened FeedStartup
  import opened FeedRecovery
  import opened Retention
  import opened Publishing
  import opened FeedPages
  import Heads = TreeHeads

  datatype Storage = Memory(nodes: Nodes, leaves: nat) | Disk(db: Db, leaves: nat)

  datatype SignedTreeHead = SignedTreeHead(session: string, timestamp: nat, treeSize: nat, root: Digest)

  function StampOf(head: Option<SignedTreeHead>): Option<Heads.Stamp> {
    match head case None => None case Some(h) => Some(Heads.Stamp(h.timestamp, h.treeSize))
  }

  /** The parts in memory that the log alone determines. */
  ghost predicate InMemory(c: Config, log: seq<Bytes>, messages: seq<Published>, chains: seq<Digest>, chain: Digest,
                           nonces: map<NonceKey, nat>)
  {
    && messages == Tail(Messages(log)) && chains == Tail(Links(c.h, log))
    && chain == ChainOf(c.h, log) && nonces == NonceMap(c.w, log)
  }

  ghost predicate Stores(c: Config, session: string, log: seq<Bytes>, inbox: map<InboxKey, nat>, storage: Storage) {
    && storage.leaves == |log|
    && match storage
       case Memory(nodes, _) => Stored(c.h, nodes, log) && |log| <= c.limits.maxMemory
       case Disk(db, _) => OnDisk(c, session, log, inbox, db)
  }

  /** What is stored by a feed whose numbers, up to `last`, run ahead of its messages. */
  ghost predicate AheadIn(h: Hasher, log: seq<Bytes>, inbox: map<InboxKey, nat>, storage: Storage, last: nat) {
    match storage
    case Memory(nodes, leaves) => leaves == |log| && Stored(h, nodes, log)
    case Disk(db, _) => db.inbox == inbox && Skips(db.rows) && forall i | 0 <= i < |db.rows| :: db.rows[i].id <= last
  }

  /** The keys in memory are the ones on disk. */
  predicate Pinned(keys: map<nat, string>, storage: Storage) {
    storage.Disk? ==> AllReadable(storage.db.pins) && keys == KeysOf(storage.db.pins)
  }

  /** The last head signed states the tree as it stood at its size. */
  ghost predicate HeadTrue(h: Hasher, session: string, log: seq<Bytes>, head: Option<SignedTreeHead>) {
    head.Some? ==>
      && head.value.session == session && head.value.treeSize <= |log|
      && head.value.root == Mth(h, log[..head.value.treeSize])
  }

  lemma HeadStaysTrue(h: Hasher, session: string, log: seq<Bytes>, more: seq<Bytes>, head: Option<SignedTreeHead>)
    requires HeadTrue(h, session, log, head)
    ensures HeadTrue(h, session, log + more, head)
  {
    if head.Some? {
      assert (log + more)[..head.value.treeSize] == log[..head.value.treeSize];
    }
  }

  /** The tree table with a group's leaves appended; the table itself where it cannot
      take them. */
  function TableAfter(h: Hasher, table: Nodes, leaves: nat, batch: seq<Entry>): Nodes
    requires Serializes(batch)
  {
    match Grow(h, Cleared(table, leaves), leaves, Jsons(batch)) case None => table case Some(grown) => grown
  }

  /** Nothing stands in the table where the next `n` leaves go. */
  ghost predicate RoomFor(table: Nodes, leaves: nat, n: nat) {
    Room(Cleared(table, leaves), leaves, n)
  }

  /** Where a group goes: rows, links, tree, checkpoint and session in one transaction,
      or the leaves in memory. None where nothing is written. */
  ghost function NextStorage(c: Config, session: string, storage: Storage, last: nat, batch: seq<Entry>, g: Group,
                             commits: bool): Option<Storage>
    requires Serializes(batch) && |g.published| == |g.chains|
  {
    match storage
    case Memory(nodes, leaves) =>
      (match Grow(c.h, nodes, leaves, Jsons(batch))
       case None => None
       case Some(grown) => Some(Memory(grown, leaves + |batch|)))
    case Disk(db, leaves) =>
      if !commits then None else
      match WrittenDb(c, db, session, leaves, last, batch, g)
      case None => None
      case Some(written) => Some(Disk(written, leaves + |batch|))
  }

  /** Whether an account may submit under a key: the one it has, or a first one while
      there is room and the record of it is `kept`. */
  predicate PinFits(c: Config, keys: map<nat, string>, account: nat, key: string, kept: bool) {
    if account in keys then keys[account] == key else |keys| < c.limits.maxAccounts && kept
  }

  // ---------------------------------------------------------------------------
  // What a group does to a feed
  // ---------------------------------------------------------------------------

  /** What a feed has published, what it fixed, and the tree table under it, which a feed
      with no database does not have. */
  datatype Record = Record(log: seq<Bytes>, inbox: map<InboxKey, nat>, keys: map<nat, string>, table: Option<Nodes>,
                           signed: bool)

  /** A feed that published under `record` and handed out `lost` numbers that no message
      will ever have, or one that published past such a number. */
  datatype Life = Sound(record: Record, lost: nat) | Ruined

  /** Whether `sequence` lets a group through to the write. */
  ghost predicate Takes(c: Config, r: Record, batch: seq<Entry>) {
    Admits(c, MemoryOf(r), NonceMap(c.w, r.log), r.inbox, batch) && Serializes(batch)
  }

  /** Whether the write of `n` messages succeeds. */
  ghost predicate Lands(r: Record, n: nat, commits: bool) {
    r.table.Some? ==> commits && RoomFor(r.table.value, |r.log|, n)
  }

  ghost function Extended(c: Config, r: Record, batch: seq<Entry>): Record
    requires Serializes(batch)
  {
    Record(r.log + Jsons(batch), Paired(r.inbox, BatchInbox(batch), |r.log|), r.keys,
           match r.table case None => None case Some(t) => Some(TableAfter(c.h, t, |r.log|, batch)), r.table.Some?)
  }

  /** A group under the next numbers: refused, and its numbers lost; not written, and its
      numbers given back; or published, which past a lost number ruins the feed. */
  ghost function Committed(c: Config, life: Life, batch: seq<Entry>, commits: bool): Life {
    if life.Ruined? || batch == [] then life
    else if !Takes(c, life.record, batch) then Sound(life.record, life.lost + |batch|)
    else Landed(c, life, batch, commits)
  }

  /** The same past every refusal. */
  ghost function Landed(c: Config, life: Life, batch: seq<Entry>, commits: bool): Life
    requires Serializes(batch)
  {
    if life.Ruined? || !Lands(life.record, |batch|, commits) then life
    else if life.lost > 0 then Ruined
    else Sound(Extended(c, life.record, batch), 0)
  }

  lemma KeysOfSize(pins: Pins)
    requires AllReadable(pins)
    ensures |KeysOf(pins)| == |pins|
  {
    assert KeysOf(pins).Keys == pins.Keys;
    assert |KeysOf(pins)| == |KeysOf(pins).Keys| && |pins| == |pins.Keys|;
  }

  lemma WindowSlots(c: Config, log: seq<Bytes>, id: nat)
    requires |log| - |Tail(Messages(log))| < id <= |log|
    ensures |Tail(Messages(log))| == |Tail(Links(c.h, log))|
    ensures var k := id - 1 - (|log| - |Tail(Messages(log))|);
            Tail(Messages(log))[k] == Published(id, log[id - 1]) && Tail(Links(c.h, log))[k] == ChainAfter(c.h, log, id)
  {
    hide ChainAfter, Tail;
    TailIs(Messages(log));
    TailIs(Links(c.h, log));
  }

  /** Message `n` of a group, as the loops see it. */
  lemma GroupAt(c: Config, last: nat, log: seq<Bytes>, texts: seq<Bytes>, g: Group, batch: seq<Entry>, n: nat)
    requires Serializes(batch) && Follows(c.w, last, batch) && texts == Jsons(batch) && n < |batch|
    requires IsGroup(c.h, last, log, texts, g)
    ensures |g.published| == |g.chains| == |batch| && batch[n].message.id == last + n + 1
    ensures g.published[n] == Published(last + n + 1, texts[n])
    ensures log + texts[..n + 1] == log + texts[..n] + [texts[n]]
    ensures g.chains[n] == ChainOf(c.h, log + texts[..n + 1])
    ensures NonceOf(c.w, texts[n]) == MessageKey(c.w, batch[n].message)
  {
    hide ChainOf, ChainAfter, NonceOf, MessageKey, WellWritten;
    WrittenReadsBack(c.w, batch[n].message);
    RowsStep(c.h, last, log, texts, g, n);
  }

  /** One message of a group entering memory. */
  lemma MemoryStep(c: Config, log: seq<Bytes>, texts: seq<Bytes>, g: Group, batch: seq<Entry>, n: nat,
                   messages: seq<Published>, chains: seq<Digest>, nonces: map<NonceKey, nat>)
    requires Serializes(batch) && Follows(c.w, |log|, batch) && texts == Jsons(batch) && n < |batch|
    requires IsGroup(c.h, |log|, log, texts, g)
    requires InMemory(c, log + texts[..n], messages, chains, ChainOf(c.h, log + texts[..n]), nonces)
    ensures |g.published| == |g.chains| == |batch| && |messages| == |chains|
    ensures var full := |messages| == MESSAGE_WINDOW;
            InMemory(c, log + texts[..n + 1],
                     (if full then messages[1..] else messages) + [g.published[n]],
                     (if full then chains[1..] else chains) + [g.chains[n]],
                     ChainOf(c.h, log + texts[..n + 1]),
                     match MessageKey(c.w, batch[n].message)
                     case None => nonces
                     case Some(key) => nonces[key := batch[n].message.id])
  {
    hide ChainOf, ChainAfter, NonceMap, NonceOf, MessageKey, IsGroup, Follows, Serializes, Messages, Links, Tail;
    var before := log + texts[..n];
    GroupAt(c, |log|, log, texts, g, batch, n);
    MessagesGrow(c.h, before, texts[n]);
    NonceMapGrows(c.w, before, texts[n]);
    TailGrows(Messages(before), g.published[n]);
    TailGrows(Links(c.h, before), g.chains[n]);
    TailSizes(c.h, before);
  }

  lemma TailSizes(h: Hasher, log: seq<Bytes>)
    ensures |Tail(Messages(log))| == |Tail(Links(h, log))|
  {
    hide ChainAfter;
  }

  /** A group with the next numbers: when it is written, and what that leaves. */
  lemma NextInStep(c: Config, session: string, log: seq<Bytes>, inbox: map<InboxKey, nat>, storage: Storage,
                   keys: map<nat, string>, batch: seq<Entry>, g: Group, commits: bool)
    requires Stores(c, session, log, inbox, storage) && Pinned(keys, storage) && Signs(c.k) && batch != []
    requires Serializes(batch) && IsGroup(c.h, |log|, log, Jsons(batch), g)
    requires Fresh(BatchInbox(batch), inbox, c.limits.maxInbox)
    requires storage.Memory? ==> |log| + |batch| <= c.limits.maxMemory
    ensures |g.published| == |g.chains|
    ensures var next, all := NextStorage(c, session, storage, |log|, batch, g, commits), log + Jsons(batch);
            && (next.Some? <==> (storage.Disk? ==> commits && RoomFor(storage.db.nodes, |log|, |batch|)))
            && (next.Some? ==>
                  && next.value.Disk? == storage.Disk? && Pinned(keys, next.value)
                  && Stores(c, session, all, Paired(inbox, BatchInbox(batch), |log|), next.value)
                  && (storage.Disk? ==>
                        && next.value.db.seal == Some(SealFor(c, session, all))
                        && next.value.db.nodes == TableAfter(c.h, storage.db.nodes, |log|, batch)
                        && (Whole(c, log, storage.db.nodes) ==> Whole(c, all, next.value.db.nodes))))
  {
    hide ChainOf, Mth, Grow, OnDisk, WrittenDb, IsGroup, Stored, Whole, Room, SealFor, Fresh, Paired;
    GroupSize(c.h, |log|, log, Jsons(batch), g);
    match storage
    case Memory(nodes, _) => GrowKeepsStored(c.h, nodes, log, Jsons(batch));
    case Disk(db, _) =>
      DiskInbox(c, session, log, inbox, db);
      WrittenWhere(c, db, session, log, |log|, batch, g);
      if WrittenDb(c, db, session, |log|, |log|, batch, g).Some? {
        WrittenInStep(c, db, session, log, batch, g);
        if Whole(c, log, db.nodes) { WholeGrows(c, log, db.nodes, Jsons(batch)); }
      }
  }

  /** The same group under numbers past a lost one: written all the same, and ahead. */
  lemma NextPast(c: Config, session: string, log: seq<Bytes>, inbox: map<InboxKey, nat>, storage: Storage, last: nat,
                 batch: seq<Entry>, g: Group, commits: bool)
    requires Stores(c, session, log, inbox, storage) && |log| < last && batch != []
    requires Serializes(batch) && IsGroup(c.h, last, log, Jsons(batch), g)
    requires Fresh(BatchInbox(batch), inbox, c.limits.maxInbox)
    ensures |g.published| == |g.chains|
    ensures var next := NextStorage(c, session, storage, last, batch, g, commits);
            && (next.Some? <==> (storage.Disk? ==> commits && RoomFor(storage.db.nodes, |log|, |batch|)))
            && (next.Some? ==>
                  && next.value.Disk? == storage.Disk?
                  && AheadIn(c.h, log + Jsons(batch), Paired(inbox, BatchInbox(batch), last), next.value,
                             last + |batch|))
  {
    hide ChainOf, Mth, Grow, OnDisk, WrittenDb, IsGroup, Stored, Room, Fresh, Paired, Skips, RowsOf, GroupRows;
    GroupSize(c.h, last, log, Jsons(batch), g);
    match storage
    case Memory(nodes, _) => GrowKeepsStored(c.h, nodes, log, Jsons(batch));
    case Disk(db, _) =>
      DiskInbox(c, session, log, inbox, db);
      DiskNumbers(c, session, log, inbox, db);
      WrittenWhere(c, db, session, log, last, batch, g);
      GroupSkips(c.h, RowsOf(c.h, log), last, log, Jsons(batch), g);
  }

  lemma DiskNumbers(c: Config, session: string, log: seq<Bytes>, inbox: map<InboxKey, nat>, db: Db)
    requires OnDisk(c, session, log, inbox, db)
    ensures var rows := RowsOf(c.h, log);
            |rows| == |log| && forall i | 0 <= i < |rows| :: rows[i].id <= |log|
  {
    hide ChainAfter;
  }

  /** Once ahead, every later group stays ahead. */
  lemma NextAhead(c: Config, session: string, log: seq<Bytes>, inbox: map<InboxKey, nat>, storage: Storage,
                  before: nat, last: nat, batch: seq<Entry>, g: Group, commits: bool)
    requires AheadIn(c.h, log, inbox, storage, before) && before <= last && batch != []
    requires Serializes(batch) && IsGroup(c.h, last, log, Jsons(batch), g)
    ensures |g.published| == |g.chains|
    ensures var next := NextStorage(c, session, storage, last, batch, g, commits);
            next.Some? ==>
              && next.value.Disk? == storage.Disk?
              && AheadIn(c.h, log + Jsons(batch), Paired(inbox, BatchInbox(batch), last), next.value, last + |batch|)
  {
    hide ChainOf, Mth, Grow, IsGroup, Stored, Paired, GroupRows, RowsClash, NewKeys, Root, CheckpointRow;
    GroupSize(c.h, last, log, Jsons(batch), g);
    match storage
    case Memory(nodes, _) => GrowKeepsStored(c.h, nodes, log, Jsons(batch));
    case Disk(db, _) => GroupSkips(c.h, db.rows, last, log, Jsons(batch), g);
  }

  function MemoryOf(r: Record): Option<nat> {
    if r.table.None? then Some(|r.log|) else None
  }

  /** The group a submission becomes: none where it is refused before a number is taken. */
  ghost function Submitted(c: Config, life: Life, key: NonceKey, build: nat -> Message): seq<Entry> {
    if life.Ruined? then [] else
    var r := life.record;
    var nonces := NonceMap(c.w, r.log);
    if key in nonces || !GrowthFits(c, MemoryOf(r), |nonces|, |r.inbox|, 1, 1, 0) then []
    else [Entry(None, build(|r.log| + 1 + life.lost))]
  }

  class FeedState {
    const c: Config
    var messages: seq<Published>
    var chains: seq<Digest>
    var chain: Digest
    var nextId: nat
    var nonces: map<NonceKey, nat>
    var inbox: map<InboxKey, nat>
    /** The key each account submits under. */
    var keys: map<nat, string>
    var session: string
    var storage: Storage
    var treeHead: Option<SignedTreeHead>
    /** Every message published, in order. */
    ghost var log: seq<Bytes>

    /** Everything but the next number is what the log determines. */
    ghost predicate Holds()
      reads this
    {
      && Signs(c.k) && Positive(c.limits)
      && InMemory(c, log, messages, chains, chain, nonces)
      && History(c, log) && |inbox| <= c.limits.maxInbox
      && Stores(c, session, log, inbox, storage) && HeadTrue(c.h, session, log, treeHead)
      && Pinned(keys, storage) && |keys| <= c.limits.maxAccounts
    }

    /** The next number is past every message; numbers between the two are lost. */
    ghost predicate Stands()
      reads this
    {
      Holds() && |log| < nextId
    }

    /** No number is lost. */
    ghost predicate Valid()
      reads this
    {
      Holds() && nextId == |log| + 1
    }

    /** A feed that published under a number past a lost one: its numbers run ahead of
        its messages, in memory and on disk. */
    ghost predicate Ahead()
      reads this
    {
      && |messages| == |chains| && |log| < LastId() && chain == ChainOf(c.h, log)
      && AheadIn(c.h, log, inbox, storage, LastId())
    }

    ghost predicate Ruined()
      reads this
    {
      Ahead() && LastId() < nextId
    }

    ghost function RecordNow(): Record
      reads this
    {
      Record(log, inbox, keys, if storage.Memory? then None else Some(storage.db.nodes),
             storage.Disk? && storage.db.seal.Some?)
    }

    /** The feed is in this state, and `next` is the first number not handed out. */
    ghost predicate LivesAt(life: Life, next: nat)
      reads this
    {
      match life
      case Sound(r, lost) => Holds() && RecordNow() == r && next == |log| + 1 + lost
      case Ruined => Ahead() && LastId() < next
    }

    ghost predicate Lives(life: Life)
      reads this
    {
      LivesAt(life, nextId)
    }

    /** Every node of the stored tree is right, and not only its edge. */
    ghost predicate WholeTree()
      reads this
    {
      storage.Memory? || Whole(c, log, storage.db.nodes)
    }

    /** `FeedState::new`: no database, and a session of its own. */
    constructor InRam(c: Config, session: string)
      requires Signs(c.k) && Positive(c.limits)
      ensures Valid() && WholeTree() && log == [] && storage.Memory? && this.c == c && this.session == session
    {
      this.c, this.session, nextId, log := c, session, 1, [];
      messages, chains, chain, nonces, inbox, keys := [], [], Zero, map[], map[], map[];
      storage, treeHead := Memory(map[], 0), None;
      new;
      EmptyStored(c.h);
    }

    /** The end of `with_db`: the state of an accepted database. */
    constructor Resume(c: Config, db: Db, newName: string, o: Opened)
      requires Signs(c.k) && Acceptable(c, db, newName) && o == OpenedOf(c, db, newName)
      requires OnDisk(c, o.session, Texts(db.rows), db.inbox, o.db)
      ensures Valid() && log == Texts(db.rows) && storage == Disk(o.db, o.leaves) && session == o.session
      ensures this.c == c && inbox == db.inbox && keys == KeysOf(db.pins) && treeHead == None
    {
      hide ChainOf, Links, Messages, Tail, NonceMap, History, OnDisk, LinksRight, CheckSeal, TreeAccepted, Built;
      KeysOfSize(db.pins);
      this.c, session, nextId, log := c, o.session, o.leaves + 1, Texts(db.rows);
      messages, chains, chain, nonces, inbox, keys := o.messages, o.chains, o.chain, o.nonces, o.inbox, o.keys;
      storage, treeHead := Disk(o.db, o.leaves), None;
    }

    function LastId(): nat
      reads this
    {
      if messages == [] then 0 else messages[|messages| - 1].id
    }

    function WindowStart(): nat
      reads this
    {
      if messages == [] then nextId else messages[0].id
    }

    function WindowIndex(id: nat): Option<nat>
      reads this
    {
      var start := WindowStart();
      if id < start || id > LastId() then None else Some(id - start)
    }

    /** Whether message `id` is in memory. */
    ghost predicate InWindow(id: nat)
      reads this
    {
      |log| < id + MESSAGE_WINDOW && 1 <= id <= |log|
    }

    lemma LastIdIs()
      requires Holds()
      ensures LastId() == |log| && |messages| == |chains|
    {
      hide ChainOf, ChainAfter, History, Stores;
      TailSizes(c.h, log);
      if log != [] { WindowSlots(c, log, |log|); }
    }

    /** One subtraction finds a message, because the numbers have no gaps. */
    lemma WindowFinds(id: nat)
      requires Stands()
      ensures LastId() == |log|
      ensures WindowIndex(id).Some? <==> InWindow(id)
      ensures InWindow(id) ==>
                var k := WindowIndex(id).value;
                && k < |messages| == |chains|
                && messages[k] == Published(id, log[id - 1]) && chains[k] == ChainAfter(c.h, log, id)
                && k == id - 1 - (|log| - |messages|)
    {
      hide ChainOf, ChainAfter, History, Stores;
      if log != [] {
        WindowSlots(c, log, |log|);
        WindowSlots(c, log, |log| - |messages| + 1);
      }
      if InWindow(id) { WindowSlots(c, log, id); }
    }

    method PushWindow(row: Published, link: Digest)
      requires |messages| == |chains|
      modifies this`messages, this`chains
      ensures messages == (if |old(messages)| == MESSAGE_WINDOW then old(messages)[1..] else old(messages)) + [row]
      ensures chains == (if |old(messages)| == MESSAGE_WINDOW then old(chains)[1..] else old(chains)) + [link]
    {
      if |messages| == MESSAGE_WINDOW {
        messages := messages[1..];
        chains := chains[1..];
      }
      messages := messages + [row];
      chains := chains + [link];
    }

    /** The size of the tree of a feed with no database. */
    function MemoryLeaves(): Option<nat>
      reads this
    {
      match storage case Memory(_, leaves) => Some(leaves) case Disk(_, _) => None
    }

    ghost predicate Admitted(batch: seq<Entry>)
      reads this
    {
      Admits(c, MemoryLeaves(), nonces, inbox, batch)
    }

    /** The loop after the commit: the pairings, the nonces and the window. */
    method Absorb(batch: seq<Entry>, g: Group, ghost last: nat)
      requires Serializes(batch) && Follows(c.w, last, batch) && IsGroup(c.h, last, log, Jsons(batch), g)
      requires |messages| == |chains|
      modifies this`messages, this`chains, this`nonces, this`inbox
      ensures |messages| == |chains| && (batch != [] ==> LastId() == last + |batch|)
      ensures inbox == Paired(old(inbox), BatchInbox(batch), last)
      ensures last == |log| && old(InMemory(c, log, messages, chains, ChainOf(c.h, log), nonces))
              ==> InMemory(c, log + Jsons(batch), messages, chains, ChainOf(c.h, log + Jsons(batch)), nonces)
    {
      hide InMemory, IsGroup, ChainOf, MessageKey, WellWritten;
      ghost var texts, pairs := Jsons(batch), BatchInbox(batch);
      ghost var inStep := last == |log| && InMemory(c, log, messages, chains, ChainOf(c.h, log), nonces);
      assert texts[..0] == [] && log + texts[..0] == log && pairs[..0] == [];
      for n := 0 to |batch|
        modifies this`messages, this`chains, this`nonces, this`inbox
        invariant |messages| == |chains| && (n > 0 ==> LastId() == last + n)
        invariant inStep ==> InMemory(c, log + texts[..n], messages, chains, ChainOf(c.h, log + texts[..n]), nonces)
        invariant inbox == Paired(old(inbox), pairs[..n], last)
      {
        if inStep { MemoryStep(c, log, texts, g, batch, n, messages, chains, nonces); }
        GroupAt(c, last, log, texts, g, batch, n);
        PairedStep(old(inbox), pairs, last, n);
        var id := batch[n].message.id;
        if batch[n].inbox.Some? { inbox := inbox[batch[n].inbox.value := id]; }
        var nonce := MessageKey(c.w, batch[n].message);
        if nonce.Some? { nonces := nonces[nonce.value := id]; }
        PushWindow(g.published[n], g.chains[n]);
      }
      assert texts[..|batch|] == texts && pairs[..|batch|] == pairs;
    }

    lemma AdmittedGrows(batch: seq<Entry>)
      requires Holds() && Admitted(batch) && Serializes(batch) && Follows(c.w, |log|, batch)
      ensures History(c, log + Jsons(batch))
      ensures |Paired(inbox, BatchInbox(batch), |log|)| <= c.limits.maxInbox
    {
      hide Readable, Numbered, Stores, History, ChainOf;
      GroupReads(c, log, batch);
      HistoryGrows(c, log, Jsons(batch));
      PairedSize(inbox, BatchInbox(batch), |log|, c.limits.maxInbox);
    }

    /** Where a group goes. */
    method GrowStorage(batch: seq<Entry>, g: Group, commits: bool, ghost last: nat) returns (w: Option<Storage>)
      requires Serializes(batch) && Follows(c.w, last, batch) && IsGroup(c.h, last, log, Jsons(batch), g) && batch != []
      ensures |g.published| == |g.chains|
      ensures w == NextStorage(c, session, storage, last, batch, g, commits)
    {
      hide IsGroup, WellWritten, Grow, Follows, WrittenDb;
      GroupSize(c.h, last, log, Jsons(batch), g);
      GroupBodies(c.h, last, log, Jsons(batch), g);
      match storage {
        case Memory(nodes, leaves) =>
          var grown := AppendLeaves(c.h, nodes, leaves, Bodies(g));
          w := if grown.Some? then Some(Memory(grown.value, leaves + |batch|)) else None;
        case Disk(db, leaves) =>
          var written := WriteGroup(c, db, session, leaves, batch, g, commits, last, log);
          w := if written.Some? then Some(Disk(written.value, leaves + |batch|)) else None;
      }
    }

    /** The half of `sequence` past every refusal: the write, and on a failed one the
        numbers given back. */
    method Publish(batch: seq<Entry>, g: Group, commits: bool, ghost last: nat, ghost life: Life) returns (written: bool)
      requires LivesAt(life, last + 1) && nextId == last + 1 + |batch| && batch != [] && Serializes(batch)
      requires Follows(c.w, last, batch) && IsGroup(c.h, last, log, Jsons(batch), g) && (life.Sound? ==> Admitted(batch))
      modifies this
      ensures Lives(Landed(c, life, batch, commits))
      ensures life.Sound? ==> (written <==> Lands(life.record, |batch|, commits))
      ensures !written ==>
                unchanged(this`messages, this`chains, this`chain, this`nonces, this`inbox, this`storage, this`log)
      ensures unchanged(this`session, this`keys, this`treeHead) && storage.Disk? == old(storage).Disk?
    {
      hide InMemory, IsGroup, ChainOf, WellWritten, Paired, NextStorage, Admits, Stores, History, HeadTrue, Pinned,
        TableAfter, Positive, AheadIn, Lands, Grow, Signs;
      BeforePublish(life, batch, g, commits, last);
      var grown := GrowStorage(batch, g, commits, last);
      if grown.None? {
        nextId := batch[0].message.id;
        return false;
      }
      chain := g.chain;
      Absorb(batch, g, last);
      storage := grown.value;
      log := log + Jsons(batch);
      written := true;
    }

    /** Publishes a group of messages whose numbers the writers have taken. `commits`
        is whether the disk takes the transaction. */
    method Sequence(batch: seq<Entry>, commits: bool, ghost life: Life) returns (r: Result<bool>)
      requires |batch| < nextId && LivesAt(life, nextId - |batch|) && Follows(c.w, nextId - 1 - |batch|, batch)
      modifies this
      ensures Lives(Committed(c, life, batch, commits))
      ensures life.Sound? ==>
                (r.Ok? <==> batch == [] || (Takes(c, life.record, batch) && Lands(life.record, |batch|, commits)))
      ensures r.Err? && life.Sound? ==>
                unchanged(this`messages, this`chains, this`chain, this`nonces, this`inbox, this`storage, this`log)
      ensures batch == [] ==> unchanged(this)
      ensures unchanged(this`session, this`keys, this`treeHead) && storage.Disk? == old(storage).Disk?
    {
      hide Admits, InMemory, Stores, IsGroup, History, ChainOf, WellWritten, HeadTrue, Pinned, AheadIn, Takes, Lands,
        Extended, Positive, Follows, Jsons, Serializes;
      if batch == [] { return Ok(true); }
      if life.Sound? { Taking(life, batch); }
      var guard := CheckRetentionBatch(c, MemoryLeaves(), nonces, inbox, batch);
      if guard.Err? { return guard; }
      ghost var last := nextId - 1 - |batch|;
      assert chain == ChainOf(c.h, log) by {
        if Holds() { ChainHeld(c, log, messages, chains, chain, nonces); }
      }
      var made := Serialize(c, chain, batch, last, log);
      if made.Err? { return Err("a feed message could not be serialized"); }
      var written := Publish(batch, made.value, commits, last, life);
      r := if written then Ok(true) else Err("the group was not written to the feed database");
    }

    lemma Taking(life: Life, batch: seq<Entry>)
      requires life.Sound? && Holds() && RecordNow() == life.record
      ensures Takes(c, life.record, batch) <==> Admitted(batch) && Serializes(batch)
      ensures LastId() == |log| && |messages| == |chains| && storage.leaves == |log|
    {
      hide Admits, InMemory, Stores, History, ChainOf, HeadTrue, Pinned;
      LastIdIs();
      LeavesHeld(c, session, log, inbox, storage);
      ChainHeld(c, log, messages, chains, chain, nonces);
    }

    /** Where a group that reached the write ends, decided before it. */
    lemma BeforePublish(life: Life, batch: seq<Entry>, g: Group, commits: bool, last: nat)
      requires LivesAt(life, last + 1) && batch != [] && Serializes(batch) && IsGroup(c.h, last, log, Jsons(batch), g)
      requires Follows(c.w, last, batch) && (life.Sound? ==> Admitted(batch))
      ensures |g.published| == |g.chains| && |messages| == |chains| && g.chain == ChainOf(c.h, log + Jsons(batch))
      ensures var next, all := NextStorage(c, session, storage, last, batch, g, commits), log + Jsons(batch);
              var pairs := Paired(inbox, BatchInbox(batch), last);
              && (next.Some? ==> next.value.Disk? == storage.Disk?)
              && (life.Sound? ==> (next.Some? <==> Lands(life.record, |batch|, commits)))
              && (next.Some? && (life.Ruined? || life.lost > 0) ==>
                    AheadIn(c.h, all, pairs, next.value, last + |batch|))
              && (next.Some? && life.Sound? && life.lost == 0 ==>
                    && last == |log| && InMemory(c, log, messages, chains, ChainOf(c.h, log), nonces)
                    && History(c, all) && |pairs| <= c.limits.maxInbox && HeadTrue(c.h, session, all, treeHead)
                    && Stores(c, session, all, pairs, next.value) && Pinned(keys, next.value)
                    && (storage.Disk? ==> next.value.db.seal.Some?
                                          && next.value.db.nodes == TableAfter(c.h, storage.db.nodes, |log|, batch)))
    {
      hide Admits, InMemory, Stores, IsGroup, History, ChainOf, WellWritten, Grow, Mth, HeadTrue, Pinned,
        TableAfter, SealFor, Signs, Skips, Follows, NextStorage, Room, Paired, AheadIn, Whole;
      GroupSize(c.h, last, log, Jsons(batch), g);
      if life.Ruined? {
        NextAhead(c, session, log, inbox, storage, LastId(), last, batch, g, commits);
      } else {
        Taking(life, batch);
        AdmittedInbox(c, MemoryLeaves(), nonces, inbox, batch);
        if last == |log| {
          ChainHeld(c, log, messages, chains, chain, nonces);
          AdmittedGrows(batch);
          HeadStaysTrue(c.h, session, log, Jsons(batch), treeHead);
          if storage.Memory? { AdmittedMemory(c, storage.leaves, nonces, inbox, batch); }
          NextInStep(c, session, log, inbox, storage, keys, batch, g, commits);
        } else {
          NextPast(c, session, log, inbox, storage, last, batch, g, commits);
        }
      }
    }

    /** `tree_root`. */
    function TreeRoot(): Option<Digest>
      reads this
    {
      match storage
      case Memory(nodes, leaves) => Root(c.h, nodes, leaves)
      case Disk(db, leaves) => Root(c.h, db.nodes, leaves)
    }

    lemma TreeRootIsTrue()
      requires Holds()
      ensures TreeRoot() == Some(Mth(c.h, log))
    {
      hide Root, Mth, EdgeRight, Stored, History, InMemory;
      match storage
      case Memory(nodes, _) => StoredIsRight(c.h, nodes, log); EdgeGivesRoot(c.h, nodes, log);
      case Disk(db, _) => EdgeGivesRoot(c.h, db.nodes, log);
    }

    /** The tree head served at clock reading `now`: the last one while it still says
        everything, else a later one, and the true root of the log in both cases. */
    method SignTreeHead(now: nat) returns (r: Result<SignedTreeHead>)
      requires Holds()
      modifies this`treeHead
      ensures Holds() && r.Ok? && treeHead == Some(r.value)
      ensures r.value.session == session && r.value.treeSize == |log| && r.value.root == Mth(c.h, log)
      ensures StampOf(treeHead) == Some(Heads.Answer(StampOf(old(treeHead)), Heads.Request(now, |log|)))
    {
      hide Mth, InMemory, History, OnDisk, Stored;
      TreeRootIsTrue();
      assert log[..|log|] == log;
      var treeSize := storage.leaves;
      if treeHead.Some? && treeHead.value.treeSize == treeSize && treeHead.value.timestamp >= now {
        return Ok(treeHead.value);
      }
      var timestamp := now;
      if treeHead.Some? && treeHead.value.timestamp + 1 > now { timestamp := treeHead.value.timestamp + 1; }
      var root := TreeRoot();
      if root.None? { return Err("the stored tree cannot be read"); }
      treeHead := Some(SignedTreeHead(session, timestamp, treeSize, root.value));
      r := Ok(treeHead.value);
    }

    // -------------------------------------------------------------------------
    // Reading back
    // -------------------------------------------------------------------------

    lemma DiskRows()
      requires Holds() && storage.Disk?
      ensures storage.db.rows == RowsOf(c.h, log)
    {}

    /** One page of the history, the same page whichever branch answers. Only a feed
        with no database can fail, and only below its window. */
    method ServePage(since: nat, limit: nat) returns (r: Result<Page>)
      requires Stands() && since <= U64_MAX && |log| < U64_MAX
      ensures r.Ok? <==> since >= |log| || |log| - since <= 10_000 || storage.Disk?
      ensures r.Ok? ==> r.value == PageOf(c.h, log, since, limit)
    {
      hide ChainOf, ChainAfter, History, Stores, RowsAfter;
      var first := if since == U64_MAX then U64_MAX else since + 1;
      WindowFinds(first);
      if first > LastId() { return Ok(Page([], None)); }
      var index := WindowIndex(first);
      if index.Some? {
        var end := Least(index.value + limit, |messages|);
        WindowPageIsLogPage(c.h, log, since, limit, index.value, end);
        var found := messages[index.value..end];
        return Ok(Page(found, if found == [] then None else Some((found[|found| - 1].id, chains[end - 1]))));
      }
      match storage {
        case Memory(_, _) => return Err("no longer in memory, and there is no database");
        case Disk(db, _) =>
          DiskRows();
          LogRowsServe(c.h, log, since, limit);
          r := PageFromDisk(db.rows, since, limit);
          DiskPageIsLogPage(c.h, log, since, limit, r.value);
      }
    }

    /** The chain after one message, from the window or from its row. */
    method ChainAt(id: nat) returns (r: Option<Digest>)
      requires Stands()
      ensures r == if 1 <= id <= |log| && (|log| - id < 10_000 || storage.Disk?) then Some(ChainAfter(c.h, log, id))
                   else None
    {
      hide ChainOf, ChainAfter, History, Stores, InMemory, RowAt;
      WindowFinds(id);
      var index := WindowIndex(id);
      if index.Some? { return Some(chains[index.value]); }
      match storage {
        case Memory(_, _) => r := None;
        case Disk(db, _) =>
          DiskRows();
          RowAtIndex(db.rows, 0, id);
          var row := RowAt(db.rows, id);
          r := if row.None? then None else row.value.chain;
      }
    }

    /** The bytes of one message, from the window or from its row. */
    method StoredJson(id: nat) returns (r: Option<Bytes>)
      requires Stands()
      ensures r == if 1 <= id <= |log| && (|log| - id < 10_000 || storage.Disk?) then Some(log[id - 1]) else None
    {
      hide ChainOf, ChainAfter, History, Stores, InMemory, RowAt;
      WindowFinds(id);
      var index := WindowIndex(id);
      if index.Some? { return Some(messages[index.value].json); }
      match storage {
        case Memory(_, _) => r := None;
        case Disk(db, _) =>
          DiskRows();
          RowAtIndex(db.rows, 0, id);
          var row := RowAt(db.rows, id);
          r := if row.None? then None else Some(row.value.json);
      }
    }

    /** `pin_or_check_account`: the first key an account submits under is the key it
        keeps. `commits` is whether the disk takes the record. */
    method PinOrCheckAccount(account: nat, key: string, commits: bool) returns (r: Result<bool>)
      modifies this`keys, this`storage
      ensures account in old(keys) ==> (r.Ok? <==> old(keys)[account] == key)
      ensures account !in old(keys) ==>
                (r.Ok? <==> |old(keys)| < c.limits.maxAccounts && (old(storage).Memory? || commits))
      ensures keys == if r.Ok? then old(keys)[account := key] else old(keys)
      ensures storage == match old(storage)
                         case Memory(_, _) => old(storage)
                         case Disk(db, leaves) =>
                           if r.Err? || account in old(keys) then old(storage)
                           else Disk(db.(pins := db.pins[account := Some(key)]), leaves)
      ensures old(Holds()) ==> Holds()
      ensures old(Ahead()) ==> Ahead()
      ensures old(WholeTree()) ==> WholeTree()
    {
      hide InMemory, History, HeadTrue, ChainOf, Whole, Stores, AheadIn, Pinned;
      if account in keys {
        if keys[account] != key { return Err("the account is pinned to another key"); }
        assert keys == keys[account := key];
        return Ok(true);
      }
      if |keys| >= c.limits.maxAccounts { return Err("account capacity exhausted"); }
      PinStored(c, session, log, inbox, keys, storage, LastId(), account, key);
      match storage {
        case Memory(_, _) =>
        case Disk(db, leaves) =>
          if !commits { return Err("the account could not be pinned to its key"); }
          storage := Disk(db.(pins := db.pins[account := Some(key)]), leaves);
      }
      assert |keys[account := key]| == |keys| + 1 by { Insertion(keys, account, key); }
      keys := keys[account := key];
      r := Ok(true);
    }

    /** `POST /order`, past the signature checks: a repeat and a full budget are
        refused before a number is taken. `build` is `message_from`. */
    method Submit(key: NonceKey, build: nat -> Message, commits: bool, ghost life: Life) returns (r: Result<nat>)
      requires Lives(life)
      requires forall id :: WellWritten(c.w, build(id)) && build(id).id == id && build(id).json.Some?
      requires forall id :: MessageKey(c.w, build(id)) == Some(key)
      modifies this
      ensures Lives(Committed(c, life, Submitted(c, life, key, build), commits))
      ensures life.Sound? ==>
                && (r.Ok? <==> key !in old(nonces)
                               && |old(nonces)| + 1 <= c.limits.maxNonces && 1 <= c.limits.maxBatch
                               && (old(storage).Memory? ==> |old(log)| + 1 <= c.limits.maxMemory)
                               && Lands(life.record, 1, commits))
                && (r.Ok? ==> r.value == old(nextId))
                && (r.Err? ==> Lives(life))
      ensures life.Sound? && life.lost == 0 && r.Ok? ==>
                && log == old(log) + [build(r.value).json.value] && r.value == |log|
                && key in nonces && nonces[key] == r.value
      ensures unchanged(this`session, this`keys, this`treeHead) && storage.Disk? == old(storage).Disk?
    {
      hide Admits, InMemory, Stores, History, ChainOf, WellWritten, MessageKey, HeadTrue, Grow, Room, TableAfter,
        Paired, Pinned, Skips;
      if life.Sound? { Submitting(life, key, build); }
      if key in nonces { return Err("this nonce is already a message"); }
      if !GrowthFits(c, MemoryLeaves(), |nonces|, |inbox|, 1, 1, 0) { return Err("capacity exhausted"); }
      var id := nextId;
      nextId := nextId + 1;
      var batch := [Entry(None, build(id))];
      assert Follows(c.w, id - 1, batch) && Serializes(batch);
      ghost var before := log;
      var published := Sequence(batch, commits, life);
      if published.Err? { return Err(published.reason); }
      if life.Sound? && life.lost == 0 {
        ChainHeld(c, log, messages, chains, chain, nonces);
        NonceSpent(c.w, before, build(id), key);
      }
      r := Ok(id);
    }

    lemma Submitting(life: Life, key: NonceKey, build: nat -> Message)
      requires life.Sound? && Lives(life)
      requires forall id :: build(id).json.Some? && MessageKey(c.w, build(id)) == Some(key)
      ensures life.lost == nextId - 1 - |log| && life.record == RecordNow() && nonces == NonceMap(c.w, log)
      ensures var fits := key !in nonces && GrowthFits(c, MemoryLeaves(), |nonces|, |inbox|, 1, 1, 0);
              && Submitted(c, life, key, build) == (if fits then [Entry(None, build(nextId))] else [])
              && (fits ==> Takes(c, life.record, [Entry(None, build(nextId))]))
      ensures Jsons([Entry(None, build(nextId))]) == [build(nextId).json.value]
    {
      hide Admits, InMemory, Stores, History, ChainOf, MessageKey, HeadTrue, Pinned;
      var batch := [Entry(None, build(nextId))];
      ChainHeld(c, log, messages, chains, chain, nonces);
      Taking(life, batch);
      if key !in nonces && GrowthFits(c, MemoryLeaves(), |nonces|, |inbox|, 1, 1, 0) {
        SingleAdmitted(c, MemoryLeaves(), nonces, inbox, batch, key);
      }
    }
  }

  lemma NonceSpent(w: Wire, log: seq<Bytes>, m: Message, key: NonceKey)
    requires WellWritten(w, m) && m.json.Some? && MessageKey(w, m) == Some(key)
    ensures NonceMap(w, log + [m.json.value]) == NonceMap(w, log)[key := |log| + 1]
  {
    hide NonceMap, MessageKey;
    WrittenReadsBack(w, m);
    NonceMapGrows(w, log, m.json.value);
  }

  /** The record of one key more on disk leaves everything else there as it was. */
  lemma PinStored(c: Config, session: string, log: seq<Bytes>, inbox: map<InboxKey, nat>, keys: map<nat, string>,
                  storage: Storage, last: nat, account: nat, key: string)
    ensures var pinned := match storage
                          case Memory(_, _) => storage
                          case Disk(db, leaves) => Disk(db.(pins := db.pins[account := Some(key)]), leaves);
            && (Stores(c, session, log, inbox, storage) ==> Stores(c, session, log, inbox, pinned))
            && (AheadIn(c.h, log, inbox, storage, last) ==> AheadIn(c.h, log, inbox, pinned, last))
            && (Pinned(keys, storage) ==> Pinned(keys[account := key], pinned))
  {
    hide EdgeRight, Settled, Stored, Skips, Covers;
  }

  lemma ChainHeld(c: Config, log: seq<Bytes>, messages: seq<Published>, chains: seq<Digest>, chain: Digest,
                  nonces: map<NonceKey, nat>)
    requires InMemory(c, log, messages, chains, chain, nonces)
    ensures chain == ChainOf(c.h, log) && nonces == NonceMap(c.w, log)
    ensures InMemory(c, log, messages, chains, ChainOf(c.h, log), nonces)
  {}

  lemma LeavesHeld(c: Config, session: string, log: seq<Bytes>, inbox: map<InboxKey, nat>, storage: Storage)
    requires Stores(c, session, log, inbox, storage)
    ensures storage.leaves == |log|
  {}

  lemma AdmittedInbox(c: Config, memory: Option<nat>, nonces: map<NonceKey, nat>, inbox: map<InboxKey, nat>,
                      batch: seq<Entry>)
    requires Admits(c, memory, nonces, inbox, batch)
    ensures Fresh(BatchInbox(batch), inbox, c.limits.maxInbox)
  {}

  lemma AdmittedMemory(c: Config, leaves: nat, nonces: map<NonceKey, nat>, inbox: map<InboxKey, nat>, batch: seq<Entry>)
    requires Admits(c, Some(leaves), nonces, inbox, batch) && batch != []
    ensures leaves + |batch| <= c.limits.maxMemory
  {}

  lemma DiskInbox(c: Config, session: string, log: seq<Bytes>, inbox: map<InboxKey, nat>, db: Db)
    requires OnDisk(c, session, log, inbox, db)
    ensures db.inbox == inbox
  {}

  lemma WholeGrows(c: Config, log: seq<Bytes>, nodes: Nodes, texts: seq<Bytes>)
    requires Whole(c, log, nodes)
    ensures var grown := Grow(c.h, Cleared(nodes, |log|), |log|, texts);
            grown.Some? && Whole(c, log + texts, grown.value)
  {
    hide Grow, Stored;
    if log == [] {
      EmptyStored(c.h);
      GrowKeepsStored(c.h, map[], [], texts);
    } else {
      GrowKeepsStored(c.h, nodes, log, texts);
    }
  }

  lemma SingleAdmitted(c: Config, memory: Option<nat>, nonces: map<NonceKey, nat>, inbox: map<InboxKey, nat>,
                       batch: seq<Entry>, key: NonceKey)
    requires |batch| == 1 && batch[0].inbox.None? && MessageKey(c.w, batch[0].message) == Some(key)
    requires key !in nonces && GrowthFits(c, memory, |nonces|, |inbox|, 1, 1, 0)
    ensures Admits(c, memory, nonces, inbox, batch)
  {
    hide MessageKey, Fresh, Distinct, Numbered;
    assert BatchNonces(c.w, batch) == [Some(key)] && BatchInbox(batch) == [None];
    OneFresh(nonces, c.limits.maxNonces, Some(key));
    OneFresh(inbox, c.limits.maxInbox, None);
  }

  lemma OneFresh<K>(used: map<K, nat>, max: nat, key: Option<K>)
    requires key.Some? ==> key.value !in used && |used| < max
    ensures Fresh([key], used, max)
  {
    NoKeysAreFresh(used, max);
    hide Fresh, Distinct;
    FreshStep([], used, max, key);
    assert [] + [key] == [key];
  }
}
