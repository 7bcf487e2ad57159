/** The writers of a feed, and its whole life: groups, submissions, passes over the
    inbox, lost numbers, crashes and restarts. */
module FeedLives {
  import opened Common
  import opened Rfc9162
  import opened NodeStore
  import opened TreeEdge
  import opened TreeRoom
  import opened FeedModel
  import opened FeedStartup
  import opened FeedRecovery
  import opened Retention
  import opened Publishing
  import opened Sequencer

  // ---------------------------------------------------------------------------
  // The generator
  // ---------------------------------------------------------------------------

  /** A message nobody submitted: it carries no nonce. */
  ghost predicate Plain(w: Wire, build: nat -> Message) {
    forall id :: WellWritten(w, build(id)) && build(id).id == id && build(id).nonce.None?
  }

  /** The burst of one tick: none where the budgets have no room for it. */
  ghost function Generated(c: Config, life: Life, count: nat, build: nat -> Message): seq<Entry> {
    if life.Ruined? then [] else
    var r := life.record;
    if !GrowthFits(c, MemoryOf(r), |NonceMap(c.w, r.log)|, |r.inbox|, count, 0, 0) then []
    else seq(count, i requires 0 <= i < count => Entry(None, build(|r.log| + 1 + life.lost + i)))
  }

  lemma GeneratedTakes(c: Config, life: Life, count: nat, build: nat -> Message)
    requires life.Sound? && Plain(c.w, build)
    ensures var batch := Generated(c, life, count, build);
            && Follows(c.w, |life.record.log| + life.lost, batch)
            && (Takes(c, life.record, batch) <==> Serializes(batch))
  {
    hide Fresh, Numbered, NonceMap;
    var batch, r := Generated(c, life, count, build), life.record;
    NoKeysFresh(BatchNonces(c.w, batch), NonceMap(c.w, r.log), c.limits.maxNonces);
    NoKeysFresh(BatchInbox(batch), r.inbox, c.limits.maxInbox);
  }

  lemma {:induction false} NoKeysFresh<K>(keys: seq<Option<K>>, used: map<K, nat>, max: nat)
    requires forall i | 0 <= i < |keys| :: keys[i].None?
    ensures Fresh(keys, used, max)
  {
    NoKeysNumbered(keys);
  }

  lemma {:induction false} NoKeysNumbered<K>(keys: seq<Option<K>>)
    requires forall i | 0 <= i < |keys| :: keys[i].None?
    ensures Numbered(keys) == map[]
  {
    if keys != [] { NoKeysNumbered(keys[..|keys| - 1]); }
  }

  /** One tick of the generator: the counts first, then the numbers. */
  method Generate(f: FeedState, count: nat, build: nat -> Message, commits: bool, ghost life: Life)
    requires f.Lives(life) && Plain(f.c.w, build)
    modifies f
    ensures f.Lives(Committed(f.c, life, Generated(f.c, life, count, build), commits))
    ensures unchanged(f`session, f`keys, f`treeHead) && f.storage.Disk? == old(f.storage).Disk?
  {
    hide InMemory, Stores, History, ChainOf, HeadTrue, Pinned, Committed, Admits, WellWritten;
    if life.Sound? {
      ChainHeld(f.c, f.log, f.messages, f.chains, f.chain, f.nonces);
      f.Taking(life, []);
    }
    StaysPut(f.c, life, commits);
    if !GrowthFits(f.c, f.MemoryLeaves(), |f.nonces|, |f.inbox|, count, 0, 0) { return; }
    var first := f.nextId;
    var batch := seq(count, i requires 0 <= i < count => Entry(None, build(first + i)));
    f.nextId := f.nextId + count;
    assert Follows(f.c.w, first - 1, batch);
    var r := f.Sequence(batch, commits, life);
  }

  lemma StaysPut(c: Config, life: Life, commits: bool)
    ensures Committed(c, life, [], commits) == life
    ensures life.Ruined? ==> forall batch :: Committed(c, life, batch, commits) == life
  {}

  // ---------------------------------------------------------------------------
  // The drain
  // ---------------------------------------------------------------------------

  /** One entry of a page of the inbox service, which may be anything, with what the
      checks say of it: `valid` of its terms, `signer` the key its signature verifies
      under, `ours` of the session it was signed for, and `nonce` as it is keyed. */
  datatype Due = Due(inbox: InboxKey, valid: bool, account: nat, signer: Option<string>, ours: bool,
                     nonce: Option<string>, build: nat -> Message)

  ghost predicate WellDue(w: Wire, d: Due) {
    forall id ::
      && WellWritten(w, d.build(id)) && d.build(id).id == id && d.build(id).json.Some?
      && (d.nonce.Some? ==> MessageKey(w, d.build(id)) == Some((d.account, d.nonce.value)))
  }

  /** The keys fixed and the messages built part of the way through a page. */
  datatype Pass = Pass(keys: map<nat, string>, batch: seq<Entry>)

  /** One entry more. `kept` is whether the disk takes the record of a first key. */
  ghost function DrainOne(c: Config, r: Record, lost: nat, p: Pass, d: Due, kept: bool): Pass {
    if d.inbox in r.inbox || !d.valid || d.signer.None?
       || !PinFits(c, p.keys, d.account, d.signer.value, r.table.None? || kept) then p
    else TakeOne(c, r, lost, Pass(p.keys[d.account := d.signer.value], p.batch), d)
  }

  /** One entry under its account's key: a message, unless its session or its nonce is
      refused, its nonce is a message already, or a budget has no room. */
  ghost function TakeOne(c: Config, r: Record, lost: nat, p: Pass, d: Due): Pass {
    if !d.ours || d.nonce.None? then p
    else
      var key, n, spent := (d.account, d.nonce.value), |p.batch| + 1, NonceMap(c.w, r.log);
      if key in spent || Some(key) in BatchNonces(c.w, p.batch)
         || !GrowthFits(c, MemoryOf(r), |spent|, |r.inbox|, n, n, n) then p
      else Pass(p.keys, p.batch + [Entry(Some(d.inbox), d.build(|r.log| + lost + n))])
  }

  ghost function Drained(c: Config, r: Record, lost: nat, due: seq<Due>, kept: nat -> bool): Pass {
    if due == [] then Pass(r.keys, []) else
    var n := |due| - 1;
    DrainOne(c, r, lost, Drained(c, r, lost, due[..n], kept), due[n], kept(n))
  }

  /** Everything the drain knows of its messages before it publishes them: the counts
      fit, and the nonces are new and all different. */
  ghost predicate Preflown(c: Config, r: Record, lost: nat, batch: seq<Entry>) {
    var spent := NonceMap(c.w, r.log);
    && Follows(c.w, |r.log| + lost, batch) && Serializes(batch)
    && GrowthFits(c, MemoryOf(r), |spent|, |r.inbox|, |batch|, |batch|, |batch|)
    && Distinct(BatchNonces(c.w, batch))
    && (forall e | e in batch && MessageKey(c.w, e.message).Some? :: MessageKey(c.w, e.message).value !in spent)
    && (forall e | e in batch && e.inbox.Some? :: e.inbox.value !in r.inbox)
  }

  lemma OnePreflown(c: Config, r: Record, lost: nat, p: Pass, d: Due, kept: bool)
    requires Preflown(c, r, lost, p.batch) && WellDue(c.w, d)
    ensures Preflown(c, r, lost, DrainOne(c, r, lost, p, d, kept).batch)
  {
    hide NonceMap, MessageKey, WellWritten;
    var next := DrainOne(c, r, lost, p, d, kept);
    if next.batch != p.batch {
      var e := next.batch[|p.batch|];
      assert next.batch == p.batch + [e];
      assert BatchNonces(c.w, next.batch) == BatchNonces(c.w, p.batch) + [MessageKey(c.w, e.message)];
    }
  }

  lemma {:induction false} DrainedPreflown(c: Config, r: Record, lost: nat, due: seq<Due>, kept: nat -> bool)
    requires forall d | d in due :: WellDue(c.w, d)
    ensures Preflown(c, r, lost, Drained(c, r, lost, due, kept).batch)
  {
    hide DrainOne, NonceMap, WellDue;
    if due != [] {
      var n := |due| - 1;
      DrainedPreflown(c, r, lost, due[..n], kept);
      OnePreflown(c, r, lost, Drained(c, r, lost, due[..n], kept), due[n], kept(n));
    }
  }

  /** The guard of `sequence` takes what a drain built if and only if no inbox entry is
      in it twice: the one thing the drain does not check. */
  lemma DrainTakesIffNoRepeat(c: Config, r: Record, lost: nat, batch: seq<Entry>)
    requires Preflown(c, r, lost, batch)
    ensures Takes(c, r, batch) <==> Distinct(BatchInbox(batch))
  {
    hide NonceMap, MessageKey, Distinct, Numbered, Follows;
    if Distinct(BatchInbox(batch)) { PreflightSuffices(c, MemoryOf(r), NonceMap(c.w, r.log), r.inbox, batch); }
    if Takes(c, r, batch) { AdmittedInbox(c, MemoryOf(r), NonceMap(c.w, r.log), r.inbox, batch); }
  }

  lemma NonceJoins(w: Wire, batch: seq<Entry>, e: Entry)
    ensures BatchNonces(w, batch + [e]) == BatchNonces(w, batch) + [MessageKey(w, e.message)]
    ensures forall key: NonceKey ::
              Some(key) in BatchNonces(w, batch + [e])
              <==> Some(key) in BatchNonces(w, batch) || MessageKey(w, e.message) == Some(key)
  {
    hide MessageKey;
  }

  lemma EntryJoins(w: Wire, first: nat, batch: seq<Entry>, d: Due, id: nat)
    requires Follows(w, first, batch) && WellDue(w, d) && id == first + 1 + |batch| && d.nonce.Some?
    ensures var all := batch + [Entry(Some(d.inbox), d.build(id))];
            && Follows(w, first, all)
            && forall key :: Some(key) in BatchNonces(w, all)
                             <==> Some(key) in BatchNonces(w, batch) || key == (d.account, d.nonce.value)
  {
    hide WellWritten, MessageKey;
    NonceJoins(w, batch, Entry(Some(d.inbox), d.build(id)));
  }

  /** Part of the way through a page: the numbers after `first` are taken. */
  ghost predicate MidPass(f: FeedState, life: Life, first: nat, batch: seq<Entry>, batchNonces: set<NonceKey>)
    reads f
  {
    && f.nextId == first + 1 + |batch| && Follows(f.c.w, first, batch)
    && (forall key :: key in batchNonces <==> Some(key) in BatchNonces(f.c.w, batch))
    && f.LivesAt(if life.Ruined? then life else Sound(life.record.(keys := f.keys), life.lost), first + 1)
  }

  /** One entry of a page, up to its account's key. */
  method DrainEntry(f: FeedState, d: Due, kept: bool, batch: seq<Entry>, batchNonces: set<NonceKey>, ghost life: Life,
                    ghost first: nat)
    returns (more: seq<Entry>, seen: set<NonceKey>)
    requires MidPass(f, life, first, batch, batchNonces) && WellDue(f.c.w, d)
    modifies f`keys, f`storage, f`nextId
    ensures MidPass(f, life, first, more, seen)
    ensures life.Sound? ==>
              Pass(f.keys, more) == DrainOne(f.c, life.record, life.lost, Pass(old(f.keys), batch), d, kept)
    ensures f.storage.Disk? == old(f.storage).Disk?
  {
    hide InMemory, Stores, History, ChainOf, HeadTrue, Pinned, Admits, WellWritten, MessageKey, AheadIn, BatchNonces,
      Follows, GrowthFits, Signs, Positive, Takes, Skips, WellDue, NonceMap, TakeOne;
    more, seen := batch, batchNonces;
    if d.inbox in f.inbox || !d.valid || d.signer.None? { return; }
    var pinned := f.PinOrCheckAccount(d.account, d.signer.value, kept);
    if pinned.Err? { return; }
    more, seen := DrainPinned(f, d, batch, batchNonces, life, first);
  }

  /** The rest of its way. */
  method DrainPinned(f: FeedState, d: Due, batch: seq<Entry>, batchNonces: set<NonceKey>, ghost life: Life,
                     ghost first: nat)
    returns (more: seq<Entry>, seen: set<NonceKey>)
    requires MidPass(f, life, first, batch, batchNonces) && WellDue(f.c.w, d)
    modifies f`nextId
    ensures MidPass(f, life, first, more, seen)
    ensures life.Sound? ==> Pass(f.keys, more) == TakeOne(f.c, life.record, life.lost, Pass(f.keys, batch), d)
  {
    hide InMemory, Stores, History, ChainOf, HeadTrue, Pinned, Admits, WellWritten, MessageKey, AheadIn, BatchNonces,
      Follows, GrowthFits, Signs, Positive, Takes, Skips, WellDue, NonceMap;
    more, seen := batch, batchNonces;
    if life.Sound? {
      ChainHeld(f.c, f.log, f.messages, f.chains, f.chain, f.nonces);
      f.Taking(Sound(life.record.(keys := f.keys), life.lost), []);
    }
    if !d.ours || d.nonce.None? { return; }
    var key, proposed := (d.account, d.nonce.value), |batch| + 1;
    if key in f.nonces || key in batchNonces { return; }
    if !GrowthFits(f.c, f.MemoryLeaves(), |f.nonces|, |f.inbox|, proposed, proposed, proposed) { return; }
    var id := f.nextId;
    f.nextId := f.nextId + 1;
    EntryJoins(f.c.w, first, batch, d, id);
    more := batch + [Entry(Some(d.inbox), d.build(id))];
    seen := batchNonces + {key};
  }

  /** `sequence_drained`, over any page. From a feed that has lost no number, it loses
      none if and only if the entries it takes name no inbox entry twice. */
  method SequenceDrained(f: FeedState, due: seq<Due>, kept: nat -> bool, commits: bool, ghost life: Life)
    requires f.Lives(life) && forall d | d in due :: WellDue(f.c.w, d)
    modifies f
    ensures f.Lives(AfterDrain(f.c, life, due, kept, commits))
    ensures life.Sound? && life.lost == 0 ==>
              (f.Valid() <==> Distinct(BatchInbox(Drained(f.c, life.record, 0, due, kept).batch)))
    ensures unchanged(f`session, f`treeHead) && f.storage.Disk? == old(f.storage).Disk?
  {
    hide InMemory, Stores, History, ChainOf, HeadTrue, Pinned, Admits, WellDue, DrainOne, AheadIn, Takes, Lands, Skips,
      Preflown, NonceMap, Extended, Distinct;
    var batch: seq<Entry>, batchNonces: set<NonceKey> := [], {};
    ghost var first := f.nextId - 1;
    NoBatch(f.c.w);
    for i := 0 to |due|
      modifies f`keys, f`storage, f`nextId
      invariant MidPass(f, life, first, batch, batchNonces) && f.storage.Disk? == old(f.storage).Disk?
      invariant life.Sound? ==> Pass(f.keys, batch) == Drained(f.c, life.record, life.lost, due[..i], kept)
    {
      assert due[..i + 1][..i] == due[..i];
      batch, batchNonces := DrainEntry(f, due[i], kept(i), batch, batchNonces, life, first);
    }
    assert due[..|due|] == due;
    if life.Sound? && life.lost == 0 { DrainLosesIffRepeat(f.c, life, due, kept, commits); }
    var r := f.Sequence(batch, commits, if life.Ruined? then life else Sound(life.record.(keys := f.keys), life.lost));
  }

  /** What a page does to a feed. */
  ghost function AfterDrain(c: Config, life: Life, due: seq<Due>, kept: nat -> bool, commits: bool): Life {
    if life.Ruined? then life else
    var p := Drained(c, life.record, life.lost, due, kept);
    Committed(c, Sound(life.record.(keys := p.keys), life.lost), p.batch, commits)
  }

  /** A page costs a feed numbers if and only if the entries taken from it repeat one. */
  lemma DrainLosesIffRepeat(c: Config, life: Life, due: seq<Due>, kept: nat -> bool, commits: bool)
    requires life.Sound? && life.lost == 0 && forall d | d in due :: WellDue(c.w, d)
    ensures var p, after := Drained(c, life.record, 0, due, kept), AfterDrain(c, life, due, kept, commits);
            && after.Sound?
            && (after.lost == 0 <==> Distinct(BatchInbox(p.batch)))
            && (after.lost > 0 ==> after == Sound(life.record.(keys := p.keys), |p.batch|))
  {
    hide Preflown, Drained, WellDue, Takes, Lands, Extended;
    var p := Drained(c, life.record, 0, due, kept);
    DrainedPreflown(c, life.record, 0, due, kept);
    DrainTakesIffNoRepeat(c, life.record, 0, p.batch);
    OtherKeys(c, life.record, p.keys, p.batch);
  }

  lemma OtherKeys(c: Config, r: Record, keys: map<nat, string>, batch: seq<Entry>)
    ensures Takes(c, r.(keys := keys), batch) <==> Takes(c, r, batch)
  {}

  lemma NoBatch(w: Wire)
    ensures BatchNonces(w, []) == []
  {}

  // ---------------------------------------------------------------------------
  // Restarts
  // ---------------------------------------------------------------------------

  /** `with_db` on any file at all. What it accepts is a history this feed
      published, under the session it published it, and the new sequencer stands
      exactly at its end. */
  method WithDb(c: Config, db: Db, newName: string, ghost published: string -> seq<Bytes>)
    returns (r: Option<FeedState>)
    requires Signs(c.k) && LinkInjective(c.h) && NodeInjective(c.h) && Unforged(c, db, published)
    ensures r.Some? <==> Acceptable(c, db, newName)
    ensures r.Some? ==>
              && fresh(r.value) && r.value.Valid() && r.value.Lives(Sound(r.value.RecordNow(), 0))
              && r.value.c == c && r.value.storage.Disk?
              && r.value.inbox == db.inbox && r.value.keys == KeysOf(db.pins)
    ensures r.Some? && (db.seal.None? || db.seal.value.root.Absent? || r.value.log == []) ==> r.value.WholeTree()
    ensures r.Some? && db.seal.Some? ==> r.value.log <= published(r.value.session) && db.session == Some(r.value.session)
    ensures r.Some? && db.seal.None? ==> r.value.log == [] && r.value.session == newName
  {
    hide Acceptable, OpenedOf, OnDisk, NodeInjective, LinkInjective, Unforged, History, Root, InMemory, HeadTrue;
    var o := Startup(c, db, newName);
    if o.Err? { return None; }
    AcceptedIsPublished(c, db, newName, published);
    AcceptedLimits(c, db, newName);
    if db.seal.Some? && db.seal.value.root.Absent? { RootlessIsWhole(c, db, newName); }
    var feed := new FeedState.Resume(c, db, newName, o.value);
    r := Some(feed);
  }

  lemma AcceptedLimits(c: Config, db: Db, newName: string)
    requires Acceptable(c, db, newName)
    ensures Positive(c.limits) && AllReadable(db.pins) && OpenedOf(c, db, newName).keys == KeysOf(db.pins)
  {}

  /** A checkpoint with no root leaves nothing of the old table. */
  lemma RootlessIsWhole(c: Config, db: Db, newName: string)
    requires Acceptable(c, db, newName) && db.seal.Some? && db.seal.value.root.Absent?
    ensures Whole(c, Texts(db.rows), OpenedOf(c, db, newName).db.nodes)
  {
    hide ChainOf, Stored, Grow, History;
    var log := Texts(db.rows);
    BuiltWhole(c.h, log);
    assert log[0..] == log;
  }

  /** No start, under whatever new name, opens this file. */
  ghost predicate Refused(c: Config, db: Db) {
    forall newName :: !Acceptable(c, db, newName)
  }

  /** No start opens a file whose rows skip a number. */
  lemma SkippedIsRefused(c: Config, db: Db)
    requires Skips(db.rows)
    ensures Refused(c, db)
  {
    hide CheckSeal, TreeAccepted, LinksRight, History, Texts;
  }

  /** A crash keeps the file and nothing else. A start changes nothing in the file and
      finds every lost number again, unless the feed published past one: then no start
      ever opens it. */
  method Reopen(f: FeedState, newName: string, ghost life: Life) returns (g: Option<FeedState>)
    requires f.Lives(life) && f.storage.Disk?
    ensures g.Some? <==> life.Sound?
    ensures g.Some? ==>
              && fresh(g.value) && g.value.Lives(Sound(life.record, 0)) && g.value.c == f.c
              && g.value.storage == f.storage && g.value.nonces == f.nonces
              && g.value.session == (if f.storage.db.seal.None? then newName else f.session)
    ensures g.None? ==> Skips(f.storage.db.rows)
  {
    hide History, Whole, OnDisk, Acceptable, ChainOf, ChainAfter, Mth, Texts, NonceMap, HeadTrue, OpenedOf, Skips;
    var db := f.storage.db;
    if life.Sound? {
      DiskInbox(f.c, f.session, f.log, f.inbox, db);
      KeysOfSize(db.pins);
      OwnDatabaseReopens(f.c, f.session, f.log, f.inbox, db, newName);
      AcceptedLimits(f.c, db, newName);
      OpenedIs(f.c, db, newName);
    } else {
      SkippedIsRefused(f.c, db);
    }
    var o := Startup(f.c, db, newName);
    if o.Err? { return None; }
    var feed := new FeedState.Resume(f.c, db, newName, o.value);
    g := Some(feed);
  }

  lemma OpenedIs(c: Config, db: Db, newName: string)
    requires Acceptable(c, db, newName)
    ensures OpenedOf(c, db, newName).leaves == |Texts(db.rows)|
    ensures OpenedOf(c, db, newName).nonces == NonceMap(c.w, Texts(db.rows))
  {}

  // ---------------------------------------------------------------------------
  // A whole life
  // ---------------------------------------------------------------------------

  /** A tick of the generator, a submission, a first or a later key of an account, a
      pass over a page of the inbox service, or a crash and a start. `commits` is
      whether the disk takes the transaction. */
  datatype Step =
    | Tick(count: nat, build: nat -> Message, commits: bool)
    | Order(nonce: NonceKey, build: nat -> Message, commits: bool)
    | Pin(account: nat, key: string, commits: bool)
    | Page(due: seq<Due>, kept: nat -> bool, commits: bool)
    | Restart(newName: string)

  /** A message one account submitted, under a nonce it has not used. */
  ghost predicate Keyed(w: Wire, key: NonceKey, build: nat -> Message) {
    forall id ::
      WellWritten(w, build(id)) && build(id).id == id && build(id).json.Some? && MessageKey(w, build(id)) == Some(key)
  }

  ghost predicate WellStep(w: Wire, step: Step) {
    match step
    case Tick(_, build, _) => Plain(w, build)
    case Order(key, build, _) => Keyed(w, key, build)
    case Page(due, _, _) => forall d | d in due :: WellDue(w, d)
    case _ => true
  }

  ghost function After(c: Config, life: Life, step: Step): Life {
    match step
    case Tick(count, build, commits) => Committed(c, life, Generated(c, life, count, build), commits)
    case Order(key, build, commits) => Committed(c, life, Submitted(c, life, key, build), commits)
    case Page(due, kept, commits) => AfterDrain(c, life, due, kept, commits)
    case Pin(account, key, commits) =>
      if life.Sound? && PinFits(c, life.record.keys, account, key, life.record.table.None? || commits)
      then Sound(life.record.(keys := life.record.keys[account := key]), life.lost) else life
    case Restart(_) => if life.Sound? then Sound(life.record, 0) else life
  }

  /** What a whole life makes of a feed. */
  ghost function Lived(c: Config, life: Life, steps: seq<Step>): Life
    decreases |steps|
  {
    if steps == [] then life else After(c, Lived(c, life, steps[..|steps| - 1]), steps[|steps| - 1])
  }

  /** One step, past which the process may be down. */
  method Take(f: FeedState, step: Step, ghost life: Life) returns (g: Option<FeedState>)
    requires f.Lives(life) && f.storage.Disk? && WellStep(f.c.w, step)
    modifies f
    ensures g.Some? ==>
              && (g.value == f || fresh(g.value)) && g.value.c == f.c && g.value.storage.Disk?
              && g.value.Lives(After(f.c, life, step))
              && (life.Sound? && life.record.signed ==> g.value.session == old(f.session))
    ensures g.None? ==> life.Ruined? && step.Restart? && unchanged(f)
  {
    hide InMemory, Stores, History, HeadTrue, Pinned, ChainOf, AheadIn, Committed, AfterDrain, Plain, Keyed, WellDue,
      Skips, Generated, Submitted;
    g := Some(f);
    match step {
      case Tick(count, build, commits) => Generate(f, count, build, commits, life);
      case Order(key, build, commits) =>
        assert Keyed(f.c.w, key, build);
        KeyedIs(f.c.w, key, build);
        var r := f.Submit(key, build, commits, life);
      case Pin(account, key, commits) => var r := f.PinOrCheckAccount(account, key, commits);
      case Page(due, kept, commits) => SequenceDrained(f, due, kept, commits, life);
      case Restart(newName) => g := Reopen(f, newName, life);
    }
  }

  lemma KeyedIs(w: Wire, key: NonceKey, build: nat -> Message)
    requires Keyed(w, key, build)
    ensures forall id :: WellWritten(w, build(id)) && build(id).id == id && build(id).json.Some?
    ensures forall id :: MessageKey(w, build(id)) == Some(key)
  {
    hide WellWritten, MessageKey;
  }

  ghost predicate WellSteps(w: Wire, steps: seq<Step>) {
    forall step | step in steps :: WellStep(w, step)
  }

  /** Over any interleaving of ticks, submissions, pages, failed writes, crashes and
      restarts the feed is exactly where `Lived` says; its session never changes once
      anything was signed; and where `Lived` says ruined, no start ever opens its file. */
  method Live(f: FeedState, steps: seq<Step>, ghost life: Life) returns (g: FeedState, up: bool)
    requires f.Lives(life) && f.storage.Disk? && WellSteps(f.c.w, steps)
    modifies f
    ensures g.c == f.c && g.storage.Disk?
    ensures up ==> g.Lives(Lived(f.c, life, steps))
    ensures Lived(f.c, life, steps).Sound? ==>
              up && life.Sound? && (life.record.signed ==> g.session == old(f.session))
    ensures Lived(f.c, life, steps).Ruined? ==> Refused(f.c, g.storage.db)
  {
    hide InMemory, Stores, History, HeadTrue, Pinned, ChainOf, AheadIn, After, WellStep, Refused, Skips, Lived;
    g, up := f, true;
    assert steps[..0] == [] && Lived(f.c, life, []) == life by { LivedStep(f.c, life, [], Restart("")); }
    for n := 0 to |steps|
      invariant (g == f || fresh(g)) && g.c == f.c && g.storage.Disk?
      invariant up ==> g.Lives(Lived(f.c, life, steps[..n]))
      invariant !up ==> Lived(f.c, life, steps[..n]).Ruined? && Refused(f.c, g.storage.db)
      invariant Lived(f.c, life, steps[..n]).Sound? ==>
                  life.Sound? && (life.record.signed ==> g.session == old(f.session))
    {
      ghost var before := Lived(f.c, life, steps[..n]);
      assert steps[..n + 1] == steps[..n] + [steps[n]];
      LivedStep(f.c, life, steps[..n], steps[n]);
      StepKeeps(f.c, before, steps[n]);
      if up {
        DiskRecord(g, before);
        SignedStays(f.c, life, steps[..n]);
        assert steps[n] in steps && WellStep(f.c.w, steps[n]);
        var next := Take(g, steps[n], before);
        if next.Some? { g := next.value; } else { DownIsRefused(g, before); up := false; }
      }
    }
    assert steps[..|steps|] == steps;
    if up && Lived(f.c, life, steps).Ruined? { DownIsRefused(g, Ruined); }
  }

  lemma LivedStep(c: Config, life: Life, steps: seq<Step>, step: Step)
    ensures Lived(c, life, []) == life
    ensures Lived(c, life, steps + [step]) == After(c, Lived(c, life, steps), step)
  {
    assert (steps + [step])[..|steps|] == steps;
  }

  lemma DiskRecord(f: FeedState, life: Life)
    requires f.Lives(life) && f.storage.Disk?
    ensures life.Sound? ==> life.record.table.Some?
  {}

  lemma DownIsRefused(f: FeedState, life: Life)
    requires f.Lives(life) && life.Ruined? && f.storage.Disk?
    ensures Refused(f.c, f.storage.db)
  {
    SkippedIsRefused(f.c, f.storage.db);
  }

  /** Nothing repairs a ruined feed, and what is signed stays signed. */
  lemma StepKeeps(c: Config, life: Life, step: Step)
    ensures life.Ruined? ==> After(c, life, step) == life
    ensures life.Sound? && After(c, life, step).Sound? ==>
              && (After(c, life, step).record.table.Some? <==> life.record.table.Some?)
              && (life.record.signed && life.record.table.Some? ==> After(c, life, step).record.signed)
  {
    hide Takes, Lands, TableAfter, Drained, Generated, Submitted, PinFits;
  }

  lemma {:induction false} SignedStays(c: Config, life: Life, steps: seq<Step>)
    ensures var after := Lived(c, life, steps);
            after.Sound? ==>
              && life.Sound? && (after.record.table.Some? <==> life.record.table.Some?)
              && (life.record.signed && life.record.table.Some? ==> after.record.signed)
    decreases |steps|
  {
    hide After;
    if steps != [] {
      SignedStays(c, life, steps[..|steps| - 1]);
      StepKeeps(c, Lived(c, life, steps[..|steps| - 1]), steps[|steps| - 1]);
    }
  }

  // ---------------------------------------------------------------------------
  // Lost numbers
  // ---------------------------------------------------------------------------

  /** The group a step hands to `sequence`. */
  ghost function GroupOf(c: Config, life: Life, step: Step): seq<Entry> {
    match step
    case Tick(count, build, _) => Generated(c, life, count, build)
    case Order(key, build, _) => Submitted(c, life, key, build)
    case Page(due, kept, _) => if life.Ruined? then [] else Drained(c, life.record, life.lost, due, kept).batch
    case _ => []
  }

  /** Every message of the group becomes bytes, and no inbox entry is in it twice. */
  ghost predicate Careful(batch: seq<Entry>) {
    Serializes(batch) && Distinct(BatchInbox(batch))
  }

  lemma SubmittedTakes(c: Config, life: Life, key: NonceKey, build: nat -> Message)
    requires life.Sound? && Keyed(c.w, key, build)
    ensures var batch := Submitted(c, life, key, build);
            Takes(c, life.record, batch) && Serializes(batch) && Distinct(BatchInbox(batch))
  {
    hide MessageKey, WellWritten, Fresh, NonceMap, Numbered;
    KeyedIs(c.w, key, build);
    var r, batch := life.record, Submitted(c, life, key, build);
    if batch == [] {
      NoKeysFresh(BatchNonces(c.w, []), NonceMap(c.w, r.log), c.limits.maxNonces);
      NoKeysFresh(BatchInbox([]), r.inbox, c.limits.maxInbox);
    } else {
      SingleAdmitted(c, MemoryOf(r), NonceMap(c.w, r.log), r.inbox, batch, key);
    }
  }

  /** No writer's group is refused by the guard, except for an inbox entry it holds
      twice or a message that cannot be serialized. */
  lemma TakesIffCareful(c: Config, life: Life, step: Step)
    requires life.Sound? && WellStep(c.w, step)
    ensures Takes(c, life.record, GroupOf(c, life, step)) <==> Careful(GroupOf(c, life, step))
  {
    hide Takes, Plain, Keyed, WellDue, Generated, Submitted, Drained, Distinct, Preflown;
    match step
    case Tick(count, build, _) =>
      GeneratedTakes(c, life, count, build);
      GeneratedPlain(c, life, count, build);
    case Order(key, build, _) => SubmittedTakes(c, life, key, build);
    case Page(due, kept, _) =>
      DrainedPreflown(c, life.record, life.lost, due, kept);
      PreflownSerializes(c, life.record, life.lost, GroupOf(c, life, step));
      DrainTakesIffNoRepeat(c, life.record, life.lost, GroupOf(c, life, step));
    case _ =>
      EmptyTakes(c, life.record);
  }

  lemma GeneratedPlain(c: Config, life: Life, count: nat, build: nat -> Message)
    ensures Distinct(BatchInbox(Generated(c, life, count, build)))
  {
    hide NonceMap;
  }

  lemma PreflownSerializes(c: Config, r: Record, lost: nat, batch: seq<Entry>)
    requires Preflown(c, r, lost, batch)
    ensures Serializes(batch)
  {}

  lemma EmptyTakes(c: Config, r: Record)
    ensures Takes(c, r, []) && Careful([])
  {
    hide NonceMap, Fresh;
    NoKeysFresh(BatchNonces(c.w, []), NonceMap(c.w, r.log), c.limits.maxNonces);
    NoKeysFresh(BatchInbox([]), r.inbox, c.limits.maxInbox);
  }

  /** One step from a feed that has lost no number: it never ruins the feed, and it
      loses numbers if and only if its group is not careful. */
  lemma StepLosesIff(c: Config, life: Life, step: Step)
    requires life.Sound? && life.lost == 0 && WellStep(c.w, step)
    ensures After(c, life, step).Sound?
    ensures After(c, life, step).lost == 0 <==> Careful(GroupOf(c, life, step))
  {
    hide Takes, WellStep, Generated, Submitted, Drained, Careful, Extended, Lands, PinFits;
    TakesIffCareful(c, life, step);
    EmptyTakes(c, life.record);
    if step.Page? {
      OtherKeys(c, life.record, Drained(c, life.record, 0, step.due, step.kept).keys, GroupOf(c, life, step));
    }
  }

  /** A life whose every group is careful where it arises. */
  ghost predicate CarefulLife(c: Config, life: Life, steps: seq<Step>) {
    forall n | 0 <= n < |steps| :: Careful(GroupOf(c, Lived(c, life, steps[..n]), steps[n]))
  }

  /** Such a life loses no number, so it is the life of a feed that never stopped. */
  lemma {:induction false} CarefulLifeLosesNone(c: Config, life: Life, steps: seq<Step>)
    requires life.Sound? && life.lost == 0 && WellSteps(c.w, steps) && CarefulLife(c, life, steps)
    ensures Lived(c, life, steps).Sound? && Lived(c, life, steps).lost == 0
    decreases |steps|
  {
    hide After, WellStep, Careful, GroupOf, Lived;
    if steps == [] {
      LivedStep(c, life, [], Restart(""));
    } else {
      var n := |steps| - 1;
      var rest := steps[..n];
      assert steps == rest + [steps[n]];
      LivedStep(c, life, rest, steps[n]);
      assert CarefulLife(c, life, rest) by {
        forall i | 0 <= i < n ensures Careful(GroupOf(c, Lived(c, life, rest[..i]), rest[i])) {
          assert rest[..i] == steps[..i] && rest[i] == steps[i];
        }
      }
      CarefulLifeLosesNone(c, life, rest);
      assert steps[n] in steps && WellStep(c.w, steps[n]);
      StepLosesIff(c, Lived(c, life, rest), steps[n]);
    }
  }

  /** The inbox entries a page names. */
  function Named(due: seq<Due>): seq<Option<InboxKey>> {
    seq(|due|, i requires 0 <= i < |due| => Some(due[i].inbox))
  }

  /** A page that names no entry twice costs nothing. */
  lemma {:induction false} DistinctPageIsCareful(c: Config, r: Record, lost: nat, due: seq<Due>, kept: nat -> bool)
    requires Distinct(Named(due))
    ensures var keys := BatchInbox(Drained(c, r, lost, due, kept).batch);
            Distinct(keys) && forall key | key in keys :: key in Named(due)
  {
    hide NonceMap, GrowthFits, PinFits, MessageKey;
    if due != [] {
      var n := |due| - 1;
      assert Named(due) == Named(due[..n]) + [Some(due[n].inbox)];
      LastIsFresh(Named(due[..n]), due[n].inbox);
      DistinctPageIsCareful(c, r, lost, due[..n], kept);
      var p := Drained(c, r, lost, due[..n], kept);
      var next := DrainOne(c, r, lost, p, due[n], kept(n));
      if next.batch != p.batch {
        assert BatchInbox(next.batch) == BatchInbox(p.batch) + [Some(due[n].inbox)];
        NumberedKeys(Named(due[..n]), due[n].inbox);
      }
    }
  }

  /** An entry of a page that the drain takes: known account, new nonce, new pairing. */
  ghost predicate Sequenceable(c: Config, r: Record, d: Due) {
    && WellDue(c.w, d) && d.inbox !in r.inbox && d.valid && d.ours && d.nonce.Some? && d.signer.Some?
    && d.account in r.keys && r.keys[d.account] == d.signer.value
    && (d.account, d.nonce.value) !in NonceMap(c.w, r.log)
  }

  lemma SequenceableTaken(c: Config, r: Record, p: Pass, d: Due, kept: bool)
    requires Sequenceable(c, r, d) && p.keys == r.keys && Some((d.account, d.nonce.value)) !in BatchNonces(c.w, p.batch)
    requires var n := |p.batch| + 1; GrowthFits(c, MemoryOf(r), |NonceMap(c.w, r.log)|, |r.inbox|, n, n, n)
    ensures DrainOne(c, r, 0, p, d, kept)
            == Pass(p.keys, p.batch + [Entry(Some(d.inbox), d.build(|r.log| + |p.batch| + 1))])
  {
    hide NonceMap, WellDue, BatchNonces;
    assert p.keys[d.account := d.signer.value] == p.keys;
  }

  /** The failing page, on every feed with room for two: one inbox entry listed twice,
      with two nonces its accounts signed. Both numbers are lost. */
  lemma RepeatedEntryLosesTwo(c: Config, r: Record, a: Due, b: Due, kept: nat -> bool, commits: bool)
    requires Sequenceable(c, r, a) && Sequenceable(c, r, b) && a.inbox == b.inbox
    requires (a.account, a.nonce) != (b.account, b.nonce)
    requires GrowthFits(c, MemoryOf(r), |NonceMap(c.w, r.log)|, |r.inbox|, 2, 2, 2)
    ensures After(c, Sound(r, 0), Page([a, b], kept, commits)) == Sound(r, 2)
  {
    hide NonceMap, DrainOne, WellDue, Takes, MessageKey, BatchNonces, Lands, Extended;
    var p0 := Pass(r.keys, []);
    var p1 := Pass(r.keys, [Entry(Some(a.inbox), a.build(|r.log| + 1))]);
    var p2 := Pass(r.keys, p1.batch + [Entry(Some(b.inbox), b.build(|r.log| + 2))]);
    assert [a, b][..1] == [a] && [a][..0] == [];
    NoBatch(c.w);
    SequenceableTaken(c, r, p0, a, kept(0));
    BuiltUnder(c, r, a, |r.log| + 1);
    SingleNonce(c.w, p1.batch[0]);
    SequenceableTaken(c, r, p1, b, kept(1));
    assert Drained(c, r, 0, [a], kept) == p1;
    assert Drained(c, r, 0, [a, b], kept) == p2;
    assert BatchInbox(p2.batch)[0] == BatchInbox(p2.batch)[1] == Some(a.inbox);
    assert forall d | d in [a, b] :: WellDue(c.w, d);
    DrainLosesIffRepeat(c, Sound(r, 0), [a, b], kept, commits);
    assert r.(keys := r.keys) == r;
  }

  lemma BuiltUnder(c: Config, r: Record, d: Due, id: nat)
    requires Sequenceable(c, r, d)
    ensures MessageKey(c.w, d.build(id)) == Some((d.account, d.nonce.value))
  {
    hide MessageKey, WellWritten, NonceMap;
    assert WellDue(c.w, d);
  }

  lemma SingleNonce(w: Wire, e: Entry)
    ensures BatchNonces(w, [e]) == [MessageKey(w, e.message)]
  {
    hide MessageKey;
  }

  /** What that page costs: the next order to commit ruins the feed, and a restart before
      it repairs the feed. */
  lemma RepeatedEntryRuins(c: Config, r: Record, a: Due, b: Due, kept: nat -> bool, key: NonceKey, build: nat -> Message,
                           newName: string)
    requires Sequenceable(c, r, a) && Sequenceable(c, r, b) && a.inbox == b.inbox
    requires (a.account, a.nonce) != (b.account, b.nonce)
    requires GrowthFits(c, MemoryOf(r), |NonceMap(c.w, r.log)|, |r.inbox|, 2, 2, 2)
    requires Keyed(c.w, key, build) && key !in NonceMap(c.w, r.log) && Lands(r, 1, true)
    ensures var page, order := Page([a, b], kept, true), Order(key, build, true);
            && Lived(c, Sound(r, 0), [page, order]) == Ruined
            && Lived(c, Sound(r, 0), [page, Restart(newName), order])
               == Sound(Extended(c, r, [Entry(None, build(|r.log| + 1))]), 0)
  {
    hide NonceMap, Sequenceable, Keyed, Lands, Extended, Lived, AfterDrain, GrowthFits, Submitted, Committed;
    var page, order, s := Page([a, b], kept, true), Order(key, build, true), Sound(r, 0);
    RepeatedEntryLosesTwo(c, r, a, b, kept, true);
    assert [] + [page] == [page] && [page] + [order] == [page, order];
    assert [page] + [Restart(newName)] == [page, Restart(newName)];
    assert [page, Restart(newName)] + [order] == [page, Restart(newName), order];
    LivedStep(c, s, [], page);
    LivedStep(c, s, [page], order);
    LivedStep(c, s, [page], Restart(newName));
    LivedStep(c, s, [page, Restart(newName)], order);
    OrderLands(c, r, 2, key, build);
    OrderLands(c, r, 0, key, build);
  }

  /** An order that lands, with and without a lost number before it. */
  lemma OrderLands(c: Config, r: Record, lost: nat, key: NonceKey, build: nat -> Message)
    requires Keyed(c.w, key, build) && key !in NonceMap(c.w, r.log) && Lands(r, 1, true)
    requires GrowthFits(c, MemoryOf(r), |NonceMap(c.w, r.log)|, |r.inbox|, 2, 2, 2)
    ensures var batch := [Entry(None, build(|r.log| + 1 + lost))];
            && Serializes(batch)
            && After(c, Sound(r, lost), Order(key, build, true))
               == (if lost > 0 then Ruined else Sound(Extended(c, r, batch), 0))
  {
    hide NonceMap, Keyed, Takes, Lands, Extended;
    SubmittedTakes(c, Sound(r, lost), key, build);
  }

  // ---------------------------------------------------------------------------
  // The tree under a life
  // ---------------------------------------------------------------------------

  ghost predicate WholeLife(c: Config, life: Life) {
    life.Sound? && life.record.table.Some? ==> Whole(c, life.record.log, life.record.table.value)
  }

  /** A whole tree never makes a write fail. */
  lemma WholeLands(c: Config, r: Record, n: nat, commits: bool)
    requires r.table.Some? && Whole(c, r.log, r.table.value)
    ensures Lands(r, n, commits) <==> commits
  {
    hide Stored, Room;
    EmptyStored(c.h);
    StoredHasRoom(c.h, Cleared(r.table.value, |r.log|), r.log, n);
  }

  /** And it stays whole. */
  lemma {:induction false} WholeStays(c: Config, life: Life, steps: seq<Step>)
    requires WholeLife(c, life)
    ensures WholeLife(c, Lived(c, life, steps))
    decreases |steps|
  {
    hide After, WholeLife;
    if steps != [] {
      WholeStays(c, life, steps[..|steps| - 1]);
      StepWhole(c, Lived(c, life, steps[..|steps| - 1]), steps[|steps| - 1]);
    }
  }

  lemma StepWhole(c: Config, life: Life, step: Step)
    requires WholeLife(c, life)
    ensures WholeLife(c, After(c, life, step))
  {
    hide Takes, Lands, Drained, Generated, Submitted, PinFits, TableAfter, Whole, Committed;
    var batch := GroupOf(c, life, step);
    if life.Sound? && step.Page? {
      var keys := Drained(c, life.record, life.lost, step.due, step.kept).keys;
      CommittedWhole(c, Sound(life.record.(keys := keys), life.lost), batch, step.commits);
    } else if step.Tick? || step.Order? {
      CommittedWhole(c, life, batch, step.commits);
    }
  }

  lemma CommittedWhole(c: Config, life: Life, batch: seq<Entry>, commits: bool)
    requires WholeLife(c, life)
    ensures WholeLife(c, Committed(c, life, batch, commits))
  {
    hide Takes, Lands, TableAfter, Whole;
    if life.Sound? && life.record.table.Some? && Serializes(batch) {
      TableWhole(c, life.record.log, life.record.table.value, batch);
    }
    if life.Sound? && !Serializes(batch) { assert !Takes(c, life.record, batch) by { NotTaken(c, life.record, batch); } }
  }

  lemma NotTaken(c: Config, r: Record, batch: seq<Entry>)
    requires !Serializes(batch)
    ensures !Takes(c, r, batch)
  {}

  lemma TableWhole(c: Config, log: seq<Bytes>, table: Nodes, batch: seq<Entry>)
    requires Whole(c, log, table) && Serializes(batch)
    ensures Whole(c, log + Jsons(batch), TableAfter(c.h, table, |log|, batch))
  {
    hide Grow, Stored;
    WholeGrows(c, log, table, Jsons(batch));
  }
}
