/** Who gets into the log: each writer's rule said of the message, its account and the
    budgets, and what a whole page of the inbox service publishes. */
module IntakeRules {
  import opened Common
  import opened Rfc9162
  import opened NodeStore
  import opened FeedModel
  import opened Retention
  import opened Publishing
  import opened Sequencer
  import opened FeedLives

  // ---------------------------------------------------------------------------
  // The first key of an account
  // ---------------------------------------------------------------------------

  /** A known account keeps its key. An unknown one gets the key it first comes with, while
      there is room for an account and its record is kept. */
  lemma FirstKeyIsKept(c: Config, r: Record, lost: nat, account: nat, key: string, commits: bool)
    ensures var after := After(c, Sound(r, lost), Pin(account, key, commits));
            after == Sound(r.(keys := if account !in r.keys && |r.keys| < c.limits.maxAccounts
                                         && (r.table.None? || commits)
                                      then r.keys[account := key] else r.keys), lost)
  {
    if account in r.keys && r.keys[account] == key { assert r.keys[account := key] == r.keys; }
  }

  // ---------------------------------------------------------------------------
  // One order, one tick
  // ---------------------------------------------------------------------------

  /** A group the guard takes lands over a whole tree wherever the disk commits. */
  lemma GroupLands(c: Config, r: Record, batch: seq<Entry>, commits: bool)
    requires Takes(c, r, batch) && batch != [] && (r.table.Some? ==> Whole(c, r.log, r.table.value))
    ensures Committed(c, Sound(r, 0), batch, commits)
            == if r.table.None? || commits then Sound(Extended(c, r, batch), 0) else Sound(r, 0)
  {
    hide NonceMap, Admits, Whole, RoomFor, TableAfter, Extended;
    if r.table.Some? { WholeLands(c, r, |batch|, commits); }
  }

  lemma ExtendedIs(c: Config, r: Record, batch: seq<Entry>)
    requires Serializes(batch)
    ensures Extended(c, r, batch).log == r.log + Jsons(batch) && Extended(c, r, batch).keys == r.keys
    ensures (forall e | e in batch :: e.inbox.None?) ==> Extended(c, r, batch).inbox == r.inbox
  {
    if forall e | e in batch :: e.inbox.None? { NoKeysPair(r.inbox, BatchInbox(batch), |r.log|); }
  }

  lemma {:induction false} NoKeysPair(inbox: map<InboxKey, nat>, keys: seq<Option<InboxKey>>, last: nat)
    requires forall i | 0 <= i < |keys| :: keys[i].None?
    ensures Paired(inbox, keys, last) == inbox
  {
    if keys != [] { NoKeysPair(inbox, keys[..|keys| - 1], last); }
  }

  /** The texts follow the log, and no key or pairing changes. */
  ghost predicate Publishes(r: Record, after: Life, texts: seq<Bytes>) {
    && after.Sound? && after.lost == 0
    && after.record.log == r.log + texts
    && after.record.inbox == r.inbox && after.record.keys == r.keys
  }

  /** Room for an order under the nonce `key`, and somewhere to write it. */
  ghost predicate OrderFits(c: Config, r: Record, key: NonceKey, commits: bool) {
    && key !in NonceMap(c.w, r.log) && |NonceMap(c.w, r.log)| + 1 <= c.limits.maxNonces && 1 <= c.limits.maxBatch
    && (r.table.None? ==> |r.log| + 1 <= c.limits.maxMemory)
    && (r.table.Some? ==> commits)
  }

  /** Over a whole tree, an order is published under the next number if and only if its
      nonce is new, there is room for its nonce and itself, and the disk commits. It never
      costs a number. */
  lemma OrderIsPublishedIff(c: Config, r: Record, key: NonceKey, build: nat -> Message, commits: bool, m: Message)
    requires Keyed(c.w, key, build) && m == build(|r.log| + 1) && m.json.Some?
    requires r.table.Some? ==> Whole(c, r.log, r.table.value)
    ensures var after := After(c, Sound(r, 0), Order(key, build, commits));
            if OrderFits(c, r, key, commits) then Publishes(r, after, [m.json.value]) else after == Sound(r, 0)
  {
    var batch := [Entry(None, m)];
    SubmittedTakes(c, Sound(r, 0), key, build);
    GrowthIsBudgets(c, MemoryOf(r), |NonceMap(c.w, r.log)|, |r.inbox|, 1, 1, 0);
    hide NonceMap, Takes, Whole, GrowthFits, Committed, Extended, Keyed;
    if Submitted(c, Sound(r, 0), key, build) == [] {
      StaysPut(c, Sound(r, 0), commits);
    } else {
      GroupLands(c, r, batch, commits);
      ExtendedIs(c, r, batch);
      assert [m.json.value] == Jsons(batch);
    }
  }

  /** Over a whole tree, a tick publishes its whole burst if and only if the burst and the
      memory have room for it and the disk commits, however full the other budgets are. */
  lemma TickIsPublishedIff(c: Config, r: Record, count: nat, build: nat -> Message, commits: bool)
    requires Plain(c.w, build) && (forall id :: build(id).json.Some?) && count > 0
    requires r.table.Some? ==> Whole(c, r.log, r.table.value)
    ensures var burst := seq(count, i requires 0 <= i < count => build(|r.log| + 1 + i).json.value);
            var after := After(c, Sound(r, 0), Tick(count, build, commits));
            if count <= c.limits.maxBatch
               && (if r.table.None? then |r.log| + count <= c.limits.maxMemory else commits)
            then Publishes(r, after, burst) else after == Sound(r, 0)
  {
    var batch := seq(count, i requires 0 <= i < count => Entry(None, build(|r.log| + 1 + i)));
    GeneratedTakes(c, Sound(r, 0), count, build);
    GrowthIsBudgets(c, MemoryOf(r), |NonceMap(c.w, r.log)|, |r.inbox|, count, 0, 0);
    hide NonceMap, Takes, Whole, GrowthFits, Committed, Extended, Plain;
    assert Serializes(batch);
    if Generated(c, Sound(r, 0), count, build) == [] {
      StaysPut(c, Sound(r, 0), commits);
    } else {
      assert Generated(c, Sound(r, 0), count, build) == batch;
      GroupLands(c, r, batch, commits);
      ExtendedIs(c, r, batch);
      assert Jsons(batch) == seq(count, i requires 0 <= i < count => build(|r.log| + 1 + i).json.value);
    }
  }

  // ---------------------------------------------------------------------------
  // A page of the inbox service
  // ---------------------------------------------------------------------------

  /** An entry the feed can stand behind: not paired yet, valid, signed for this session,
      under a nonce its account has not used, by the key in `keys`. */
  ghost predicate Stands(c: Config, r: Record, d: Due, keys: map<nat, string>) {
    && d.inbox !in r.inbox && d.valid && d.ours
    && d.nonce.Some? && (d.account, d.nonce.value) !in NonceMap(c.w, r.log)
    && d.account in keys && d.signer == Some(keys[d.account])
  }

  /** The entry of the page that message `n` of the pass is. */
  ghost predicate ComesFrom(c: Config, r: Record, due: seq<Due>, keys: map<nat, string>, e: Entry, n: nat) {
    exists d :: d in due && Stands(c, r, d, keys) && e == Entry(Some(d.inbox), d.build(n))
  }

  ghost predicate KeysKept(before: map<nat, string>, after: map<nat, string>) {
    forall a | a in before :: a in after && after[a] == before[a]
  }

  ghost predicate FirstSigned(due: seq<Due>, a: nat, key: string) {
    exists d :: d in due && d.valid && d.account == a && d.signer == Some(key)
  }

  /** Every message of the pass is an entry of the page the feed can stand behind, no
      account's key changed, and a new account's key is one it signed with. */
  ghost predicate OnlySigned(c: Config, r: Record, lost: nat, due: seq<Due>, p: Pass) {
    && KeysKept(r.keys, p.keys) && |p.keys| <= c.limits.maxAccounts
    && (forall a | a in p.keys && a !in r.keys :: FirstSigned(due, a, p.keys[a]))
    && (forall i | 0 <= i < |p.batch| :: ComesFrom(c, r, due, p.keys, p.batch[i], |r.log| + lost + 1 + i))
  }

  /** Whatever the page holds. */
  lemma {:induction false} PageTakesOnlySigned(c: Config, r: Record, lost: nat, due: seq<Due>, kept: nat -> bool)
    requires |r.keys| <= c.limits.maxAccounts
    ensures OnlySigned(c, r, lost, due, Drained(c, r, lost, due, kept))
  {
    hide DrainOne, OnlySigned;
    if due != [] {
      var n := |due| - 1;
      PageTakesOnlySigned(c, r, lost, due[..n], kept);
      OneMoreSigned(c, r, lost, due, Drained(c, r, lost, due[..n], kept), kept(n));
    } else {
      NoneTaken(c, r, lost);
    }
  }

  lemma NoneTaken(c: Config, r: Record, lost: nat)
    requires |r.keys| <= c.limits.maxAccounts
    ensures OnlySigned(c, r, lost, [], Pass(r.keys, []))
  {}

  lemma OneMoreSigned(c: Config, r: Record, lost: nat, due: seq<Due>, p: Pass, kept: bool)
    requires due != [] && OnlySigned(c, r, lost, due[..|due| - 1], p)
    ensures OnlySigned(c, r, lost, due, DrainOne(c, r, lost, p, due[|due| - 1], kept))
  {
    hide OnlySigned, DrainOne, Moved;
    assert |p.keys| <= c.limits.maxAccounts by { SignedKeys(c, r, lost, due[..|due| - 1], p); }
    EntryIsTaken(c, r, lost, p, due[|due| - 1], kept);
    SignedStays(c, r, lost, due, p, DrainOne(c, r, lost, p, due[|due| - 1], kept));
  }

  lemma SignedKeys(c: Config, r: Record, lost: nat, due: seq<Due>, p: Pass)
    requires OnlySigned(c, r, lost, due, p)
    ensures KeysKept(r.keys, p.keys) && |p.keys| <= c.limits.maxAccounts
  {}

  lemma SignedStays(c: Config, r: Record, lost: nat, due: seq<Due>, p: Pass, next: Pass)
    requires due != [] && OnlySigned(c, r, lost, due[..|due| - 1], p)
    requires Moved(c, r, lost, p, due[|due| - 1], next)
    ensures OnlySigned(c, r, lost, due, next)
  {
    hide Stands, ComesFrom, FirstSigned, Moved, KeysKept;
    KeptThrough(c, r, lost, due[..|due| - 1], p, due[|due| - 1], next);
    forall i | 0 <= i < |next.batch|
      ensures ComesFrom(c, r, due, next.keys, next.batch[i], |r.log| + lost + 1 + i)
    {
      MessageComesFrom(c, r, lost, due, p, next, i);
    }
    forall a | a in next.keys && a !in r.keys ensures FirstSigned(due, a, next.keys[a]) {
      KeyWasSigned(c, r, lost, due, p, next, a);
    }
  }

  lemma KeptThrough(c: Config, r: Record, lost: nat, due: seq<Due>, p: Pass, d: Due, next: Pass)
    requires OnlySigned(c, r, lost, due, p) && Moved(c, r, lost, p, d, next)
    ensures KeysKept(r.keys, next.keys) && |next.keys| <= c.limits.maxAccounts
  {
    hide Stands, ComesFrom, FirstSigned;
  }

  lemma MessageComesFrom(c: Config, r: Record, lost: nat, due: seq<Due>, p: Pass, next: Pass, i: nat)
    requires due != [] && OnlySigned(c, r, lost, due[..|due| - 1], p)
    requires Moved(c, r, lost, p, due[|due| - 1], next) && i < |next.batch|
    ensures ComesFrom(c, r, due, next.keys, next.batch[i], |r.log| + lost + 1 + i)
  {
    var n := |due| - 1;
    hide Stands;
    if i < |p.batch| {
      assert ComesFrom(c, r, due[..n], p.keys, p.batch[i], |r.log| + lost + 1 + i);
      StillFrom(c, r, due, n, p.keys, next.keys, p.batch[i], |r.log| + lost + 1 + i);
    } else {
      assert due[n] in due;
    }
  }

  lemma KeyWasSigned(c: Config, r: Record, lost: nat, due: seq<Due>, p: Pass, next: Pass, a: nat)
    requires due != [] && OnlySigned(c, r, lost, due[..|due| - 1], p)
    requires Moved(c, r, lost, p, due[|due| - 1], next) && a in next.keys && a !in r.keys
    ensures FirstSigned(due, a, next.keys[a])
  {
    hide Stands, ComesFrom;
    var n := |due| - 1;
    if a in p.keys { assert FirstSigned(due[..n], a, p.keys[a]); } else { assert due[n] in due; }
  }

  /** What one entry changes. */
  ghost predicate Moved(c: Config, r: Record, lost: nat, p: Pass, d: Due, next: Pass) {
    && KeysKept(p.keys, next.keys) && |next.keys| <= c.limits.maxAccounts
    && (forall a | a in next.keys && a !in p.keys :: d.valid && d.account == a && d.signer == Some(next.keys[a]))
    && (next.batch == p.batch
        || (Stands(c, r, d, next.keys)
            && next.batch == p.batch + [Entry(Some(d.inbox), d.build(|r.log| + lost + |p.batch| + 1))]))
  }

  lemma StillFrom(c: Config, r: Record, due: seq<Due>, n: nat, keys: map<nat, string>, more: map<nat, string>, e: Entry,
                  id: nat)
    requires n <= |due| && ComesFrom(c, r, due[..n], keys, e, id) && KeysKept(keys, more)
    ensures ComesFrom(c, r, due, more, e, id)
  {
    var d :| d in due[..n] && Stands(c, r, d, keys) && e == Entry(Some(d.inbox), d.build(id));
    assert d in due && Stands(c, r, d, more);
  }

  lemma EntryIsTaken(c: Config, r: Record, lost: nat, p: Pass, d: Due, kept: bool)
    requires |p.keys| <= c.limits.maxAccounts
    ensures Moved(c, r, lost, p, d, DrainOne(c, r, lost, p, d, kept))
  {
    hide TakeOne, Moved, Stands;
    if d.inbox in r.inbox || !d.valid || d.signer.None?
       || !PinFits(c, p.keys, d.account, d.signer.value, r.table.None? || kept)
    {
      Unmoved(c, r, lost, p, d);
    } else {
      var keys := p.keys[d.account := d.signer.value];
      if d.account !in p.keys { Insertion(p.keys, d.account, d.signer.value); } else { assert keys == p.keys; }
      PinnedIsTaken(c, r, lost, p, keys, d);
    }
  }

  /** A valid entry fixes the first key of its account, also where the session or the nonce
      under it is then refused, or a budget has no room. */
  lemma ValidEntryPins(c: Config, r: Record, lost: nat, p: Pass, d: Due, kept: bool)
    requires d.inbox !in r.inbox && d.valid && d.signer.Some?
    ensures DrainOne(c, r, lost, p, d, kept).keys
            == if d.account !in p.keys && |p.keys| < c.limits.maxAccounts && (r.table.None? || kept)
               then p.keys[d.account := d.signer.value] else p.keys
  {
    hide NonceMap, GrowthFits, BatchNonces;
    if d.account in p.keys && p.keys[d.account] == d.signer.value {
      assert p.keys[d.account := d.signer.value] == p.keys;
    }
  }

  lemma Unmoved(c: Config, r: Record, lost: nat, p: Pass, d: Due)
    requires |p.keys| <= c.limits.maxAccounts
    ensures Moved(c, r, lost, p, d, p)
  {
    hide Stands;
  }

  lemma PinnedIsTaken(c: Config, r: Record, lost: nat, p: Pass, keys: map<nat, string>, d: Due)
    requires d.inbox !in r.inbox && d.valid && d.signer.Some? && keys == p.keys[d.account := d.signer.value]
    requires KeysKept(p.keys, keys) && |keys| <= c.limits.maxAccounts
    ensures Moved(c, r, lost, p, d, TakeOne(c, r, lost, Pass(keys, p.batch), d))
  {
    hide NonceMap, GrowthFits, BatchNonces;
  }

  /** An entry with nothing against it: new, valid, signed for this session under an unused
      nonce, by its account's key where the account has one. `kept` is whether a first key
      could be recorded. */
  ghost predicate Good(c: Config, r: Record, d: Due, kept: bool) {
    && WellDue(c.w, d) && d.inbox !in r.inbox && d.valid && d.ours
    && d.nonce.Some? && (d.account, d.nonce.value) !in NonceMap(c.w, r.log)
    && d.signer.Some? && (d.account in r.keys ==> d.signer.value == r.keys[d.account])
    && (r.table.None? || kept)
  }

  /** No two entries are one, and an account signs them all with one key. */
  predicate Apart(d: Due, e: Due) {
    && d.inbox != e.inbox
    && (d.account == e.account ==> d.nonce != e.nonce && d.signer == e.signer)
  }

  /** A page of such entries that the budgets have room for. */
  ghost predicate GoodPage(c: Config, r: Record, due: seq<Due>, kept: nat -> bool) {
    && (forall i: nat | i < |due| :: Good(c, r, due[i], kept(i)))
    && (forall i, j | 0 <= i < j < |due| :: Apart(due[i], due[j]))
    && |due| <= c.limits.maxBatch
    && |r.keys| + |due| <= c.limits.maxAccounts
    && |NonceMap(c.w, r.log)| + |due| <= c.limits.maxNonces
    && |r.inbox| + |due| <= c.limits.maxInbox
    && (r.table.None? ==> |r.log| + |due| <= c.limits.maxMemory)
  }

  /** The messages of the page, in its order. */
  function Built(due: seq<Due>, last: nat): seq<Entry> {
    seq(|due|, i requires 0 <= i < |due| => Entry(Some(due[i].inbox), due[i].build(last + 1 + i)))
  }

  /** Every account of the page has the key it signed with. */
  ghost predicate KeysTaken(due: seq<Due>, keys: map<nat, string>) {
    forall d | d in due :: d.account in keys && d.signer == Some(keys[d.account])
  }

  /** All of the page is taken. */
  ghost predicate AllTaken(r: Record, lost: nat, due: seq<Due>, p: Pass) {
    p.batch == Built(due, |r.log| + lost) && |p.keys| <= |r.keys| + |due| && KeysTaken(due, p.keys)
  }

  lemma {:induction false} GoodPageIsTaken(c: Config, r: Record, lost: nat, due: seq<Due>, kept: nat -> bool)
    requires GoodPage(c, r, due, kept)
    ensures AllTaken(r, lost, due, Drained(c, r, lost, due, kept))
  {
    if due != [] {
      var n := |due| - 1;
      GoodPrefix(c, r, due, kept);
      GoodPageIsTaken(c, r, lost, due[..n], kept);
      PageTakesOnlySigned(c, r, lost, due[..n], kept);
      hide DrainOne, GoodPage, OnlySigned, AllTaken;
      OneMoreTaken(c, r, lost, due, kept, Drained(c, r, lost, due[..n], kept));
    }
  }

  lemma GoodPrefix(c: Config, r: Record, due: seq<Due>, kept: nat -> bool)
    requires GoodPage(c, r, due, kept) && due != []
    ensures GoodPage(c, r, due[..|due| - 1], kept) && |r.keys| <= c.limits.maxAccounts
  {
    hide NonceMap, Good, Apart;
  }

  lemma OneMoreTaken(c: Config, r: Record, lost: nat, due: seq<Due>, kept: nat -> bool, p: Pass)
    requires GoodPage(c, r, due, kept) && due != []
    requires AllTaken(r, lost, due[..|due| - 1], p) && OnlySigned(c, r, lost, due[..|due| - 1], p)
    ensures AllTaken(r, lost, due, DrainOne(c, r, lost, p, due[|due| - 1], kept(|due| - 1)))
  {
    hide OnlySigned, DrainOne, GoodPage, Good, AllTaken, Built, NonceMap, BatchNonces;
    var d, first := due[|due| - 1], due[..|due| - 1];
    KeyAgrees(c, r, lost, due, kept, p);
    NextFits(c, r, lost, due, kept, p);
    GoodIsTaken(c, r, lost, p, d, kept(|due| - 1));
    assert due == first + [d];
    OneTaken(r, lost, first, d, p);
  }

  lemma OneTaken(r: Record, lost: nat, due: seq<Due>, d: Due, p: Pass)
    requires AllTaken(r, lost, due, p) && d.signer.Some?
    requires d.account in p.keys ==> d.signer == Some(p.keys[d.account])
    ensures AllTaken(r, lost, due + [d],
                     Pass(p.keys[d.account := d.signer.value],
                          p.batch + [Entry(Some(d.inbox), d.build(|r.log| + lost + |p.batch| + 1))]))
  {
    OneKeyMore(due, p.keys, d);
    hide KeysTaken;
    assert Built(due + [d], |r.log| + lost)
           == p.batch + [Entry(Some(d.inbox), d.build(|r.log| + lost + |p.batch| + 1))];
  }

  lemma NextFits(c: Config, r: Record, lost: nat, due: seq<Due>, kept: nat -> bool, p: Pass)
    requires GoodPage(c, r, due, kept) && due != [] && AllTaken(r, lost, due[..|due| - 1], p)
    ensures var d := due[|due| - 1];
            && Good(c, r, d, kept(|due| - 1)) && d.nonce.Some? && d.signer.Some?
            && Some((d.account, d.nonce.value)) !in BatchNonces(c.w, p.batch)
    ensures |p.batch| + 1 == |due| <= c.limits.maxBatch && |p.keys| < c.limits.maxAccounts
    ensures |NonceMap(c.w, r.log)| + |due| <= c.limits.maxNonces && |r.inbox| + |due| <= c.limits.maxInbox
    ensures r.table.None? ==> |r.log| + |due| <= c.limits.maxMemory
  {
    PageBudgets(c, r, due, kept);
    GoodKey(c, r, due[|due| - 1], kept(|due| - 1));
    NonceIsNew(c, r, lost, due, kept, p);
    hide NonceMap, Good, GoodPage, BatchNonces, KeysTaken;
  }

  lemma PageBudgets(c: Config, r: Record, due: seq<Due>, kept: nat -> bool)
    requires GoodPage(c, r, due, kept) && due != []
    ensures Good(c, r, due[|due| - 1], kept(|due| - 1))
    ensures |due| <= c.limits.maxBatch && |r.keys| + |due| <= c.limits.maxAccounts
    ensures |NonceMap(c.w, r.log)| + |due| <= c.limits.maxNonces && |r.inbox| + |due| <= c.limits.maxInbox
    ensures r.table.None? ==> |r.log| + |due| <= c.limits.maxMemory
  {
    hide NonceMap, Good, Apart;
  }

  /** One good entry, in a pass that has room for it. */
  lemma GoodIsTaken(c: Config, r: Record, lost: nat, p: Pass, d: Due, kept: bool)
    requires Good(c, r, d, kept) && Some((d.account, d.nonce.value)) !in BatchNonces(c.w, p.batch)
    requires if d.account in p.keys then d.signer == Some(p.keys[d.account]) else |p.keys| < c.limits.maxAccounts
    requires var n := |p.batch| + 1;
             && n <= c.limits.maxBatch && |NonceMap(c.w, r.log)| + n <= c.limits.maxNonces
             && |r.inbox| + n <= c.limits.maxInbox && (r.table.None? ==> |r.log| + n <= c.limits.maxMemory)
    ensures DrainOne(c, r, lost, p, d, kept)
            == Pass(p.keys[d.account := d.signer.value],
                    p.batch + [Entry(Some(d.inbox), d.build(|r.log| + lost + |p.batch| + 1))])
  {
    hide NonceMap, BatchNonces, WellDue;
  }

  lemma OneKeyMore(due: seq<Due>, keys: map<nat, string>, d: Due)
    requires KeysTaken(due, keys) && d.signer.Some?
    requires d.account in keys ==> d.signer == Some(keys[d.account])
    ensures KeysTaken(due + [d], keys[d.account := d.signer.value])
    ensures |keys[d.account := d.signer.value]| <= |keys| + 1
  {
    if d.account !in keys { Insertion(keys, d.account, d.signer.value); }
    else { assert keys[d.account := d.signer.value] == keys; }
  }

  lemma KeyAgrees(c: Config, r: Record, lost: nat, due: seq<Due>, kept: nat -> bool, p: Pass)
    requires GoodPage(c, r, due, kept) && due != [] && OnlySigned(c, r, lost, due[..|due| - 1], p)
    ensures var d := due[|due| - 1]; d.account in p.keys ==> d.signer == Some(p.keys[d.account])
  {
    hide NonceMap, ComesFrom, Good, Apart, FirstSigned, KeysKept;
    var n := |due| - 1;
    var d := due[n];
    GoodKey(c, r, d, kept(n));
    SignedKeys(c, r, lost, due[..n], p);
    if d.account in p.keys {
      if d.account in r.keys { KeptKey(r.keys, p.keys, d.account); }
      else { SignedTwice(due, p.keys[d.account]); }
    }
  }

  lemma KeptKey(before: map<nat, string>, after: map<nat, string>, a: nat)
    requires KeysKept(before, after) && a in before
    ensures a in after && after[a] == before[a]
  {}

  /** An account of a page that was signed for earlier in it signs with the same key. */
  lemma SignedTwice(due: seq<Due>, key: string)
    requires due != [] && FirstSigned(due[..|due| - 1], due[|due| - 1].account, key)
    requires forall i, j | 0 <= i < j < |due| :: Apart(due[i], due[j])
    ensures due[|due| - 1].signer == Some(key)
  {
    var n := |due| - 1;
    var e :| e in due[..n] && e.account == due[n].account && e.signer == Some(key);
    var i :| 0 <= i < n && due[i] == e;
    assert Apart(due[i], due[n]);
  }

  lemma GoodKey(c: Config, r: Record, d: Due, kept: bool)
    requires Good(c, r, d, kept)
    ensures d.nonce.Some? && d.signer.Some? && (d.account in r.keys ==> d.signer.value == r.keys[d.account])
  {
    hide NonceMap, WellDue;
  }

  lemma NonceIsNew(c: Config, r: Record, lost: nat, due: seq<Due>, kept: nat -> bool, p: Pass)
    requires GoodPage(c, r, due, kept) && due != [] && AllTaken(r, lost, due[..|due| - 1], p)
    requires due[|due| - 1].nonce.Some?
    ensures var d := due[|due| - 1]; Some((d.account, d.nonce.value)) !in BatchNonces(c.w, p.batch)
  {
    hide NonceMap, MessageKey, WellWritten;
    var n := |due| - 1;
    var d := due[n];
    forall i | 0 <= i < n ensures BatchNonces(c.w, p.batch)[i] != Some((d.account, d.nonce.value)) {
      assert Good(c, r, due[i], kept(i)) && Apart(due[i], due[n]);
    }
  }

  /** What such a page leaves, with no number lost: its messages after the log, each paired
      with its entry, and every account it names under the key it signed with. */
  ghost predicate PageOut(r: Record, due: seq<Due>, life: Life) {
    && life.Sound? && life.lost == 0
    && var after := life.record;
    && |after.log| == |r.log| + |due| && after.log[..|r.log|] == r.log
    && forall i | 0 <= i < |due| ::
         && due[i].build(|r.log| + 1 + i).json == Some(after.log[|r.log| + i])
         && due[i].account in after.keys && due[i].signer == Some(after.keys[due[i].account])
         && due[i].inbox in after.inbox && after.inbox[due[i].inbox] == |r.log| + 1 + i
  }

  /** From a feed that has lost no number, over a whole tree and a disk that commits, such a
      page is published whole: first orders of new accounts with the rest, each under the
      next number. */
  lemma GoodPageIsPublished(c: Config, r: Record, due: seq<Due>, kept: nat -> bool)
    requires GoodPage(c, r, due, kept) && due != [] && (r.table.Some? ==> Whole(c, r.log, r.table.value))
    ensures PageOut(r, due, After(c, Sound(r, 0), Page(due, kept, true)))
  {
    hide Drained, GoodPage, Whole, Takes, Extended, After, PageOut, AllTaken, Distinct;
    var p := GoodPagePasses(c, r, due, kept);
    PageLands(c, r, due, kept, p);
    PageLeaves(c, r, due, p);
  }

  lemma PageLands(c: Config, r: Record, due: seq<Due>, kept: nat -> bool, p: Pass)
    requires p == Drained(c, r, 0, due, kept) && p.batch != [] && Takes(c, r.(keys := p.keys), p.batch)
    requires (r.table.Some? ==> Whole(c, r.log, r.table.value)) && Serializes(p.batch)
    ensures After(c, Sound(r, 0), Page(due, kept, true)) == Sound(Extended(c, r.(keys := p.keys), p.batch), 0)
  {
    hide Drained, Whole, Takes, Extended, Committed;
    GroupLands(c, r.(keys := p.keys), p.batch, true);
  }

  lemma GoodPagePasses(c: Config, r: Record, due: seq<Due>, kept: nat -> bool) returns (p: Pass)
    requires GoodPage(c, r, due, kept) && due != []
    ensures p == Drained(c, r, 0, due, kept) && p.batch != [] && Serializes(p.batch)
    ensures AllTaken(r, 0, due, p) && Takes(c, r.(keys := p.keys), p.batch)
    ensures Distinct(BatchInbox(Built(due, |r.log|)))
  {
    p := Drained(c, r, 0, due, kept);
    GoodPageIsTaken(c, r, 0, due, kept);
    GoodWritten(c, r, due, kept);
    hide Drained, GoodPage, Takes, Preflown, Distinct, KeysTaken, WellDue;
    DrainedPreflown(c, r, 0, due, kept);
    DrainTakesIffNoRepeat(c, r, 0, p.batch);
    OtherKeys(c, r, p.keys, p.batch);
  }

  lemma GoodWritten(c: Config, r: Record, due: seq<Due>, kept: nat -> bool)
    requires GoodPage(c, r, due, kept)
    ensures (forall d | d in due :: WellDue(c.w, d)) && Serializes(Built(due, |r.log|))
    ensures Distinct(BatchInbox(Built(due, |r.log|)))
  {
    hide NonceMap, WellWritten, MessageKey;
    forall i | 0 <= i < |due| ensures WellDue(c.w, due[i]) { assert Good(c, r, due[i], kept(i)); }
    forall i, j | 0 <= i < j < |due| ensures due[i].inbox != due[j].inbox { assert Apart(due[i], due[j]); }
  }

  /** Each entry is paired with its own message, where no two are one. */
  lemma {:induction false} PagePairs(r: Record, due: seq<Due>)
    ensures Distinct(BatchInbox(Built(due, |r.log|))) ==>
              forall i | 0 <= i < |due| ::
                var inbox := Paired(r.inbox, BatchInbox(Built(due, |r.log|)), |r.log|);
                due[i].inbox in inbox && inbox[due[i].inbox] == |r.log| + 1 + i
    decreases |due|
  {
    if due != [] && Distinct(BatchInbox(Built(due, |r.log|))) {
      var n := |due| - 1;
      var keys := BatchInbox(Built(due, |r.log|));
      assert keys[..n] == BatchInbox(Built(due[..n], |r.log|));
      PagePairs(r, due[..n]);
      assert forall i | 0 <= i < n :: keys[i] != keys[n] && due[..n][i] == due[i];
    }
  }

  lemma PageLeaves(c: Config, r: Record, due: seq<Due>, p: Pass)
    requires AllTaken(r, 0, due, p) && Serializes(p.batch) && Distinct(BatchInbox(Built(due, |r.log|)))
    ensures PageOut(r, due, Sound(Extended(c, r.(keys := p.keys), p.batch), 0))
  {
    PagePairs(r, due);
    hide TableAfter, Paired, Distinct, BatchInbox;
    var after := Extended(c, r.(keys := p.keys), p.batch);
    assert after.log == r.log + Jsons(p.batch) && |p.batch| == |due|;
    forall i | 0 <= i < |due|
      ensures due[i].build(|r.log| + 1 + i).json == Some(after.log[|r.log| + i])
      ensures due[i].account in after.keys && due[i].signer == Some(after.keys[due[i].account])
    {
      assert p.batch[i] == Entry(Some(due[i].inbox), due[i].build(|r.log| + 1 + i));
      assert due[i] in due;
    }
  }

  // ---------------------------------------------------------------------------
  // Over a life
  // ---------------------------------------------------------------------------

  /** The log only grows, no account's key changes, and no budget of accounts is passed. */
  ghost predicate Extends(c: Config, life: Life, after: Life) {
    after.Sound? ==>
      && life.Sound? && life.record.log <= after.record.log
      && KeysKept(life.record.keys, after.record.keys)
      && (|life.record.keys| <= c.limits.maxAccounts ==> |after.record.keys| <= c.limits.maxAccounts)
  }

  lemma StepExtends(c: Config, life: Life, step: Step)
    ensures Extends(c, life, After(c, life, step))
  {
    hide Takes, Lands, Drained, Generated, Submitted, TableAfter;
    match step
    case Tick(count, build, commits) => GroupExtends(c, life, Generated(c, life, count, build), commits);
    case Order(key, build, commits) => GroupExtends(c, life, Submitted(c, life, key, build), commits);
    case Page(due, kept, commits) => PageExtends(c, life, due, kept, commits);
    case Pin(account, key, commits) =>
      if life.Sound? {
        FirstKeyIsKept(c, life.record, life.lost, account, key, commits);
        PinKeeps(life.record.keys, account, key);
      }
    case Restart(_) =>
  }

  /** No step publishes more than one batch's worth. */
  lemma StepIsOneBatch(c: Config, life: Life, step: Step)
    ensures life.Sound? && After(c, life, step).Sound? ==>
              |After(c, life, step).record.log| <= |life.record.log| + c.limits.maxBatch
  {
    hide Takes, Lands, Drained, Generated, Submitted, TableAfter, PinFits;
    if life.Sound? {
      var batch := GroupOf(c, life, step);
      TakenIsOneBatch(c, life.record, batch);
      if step.Page? {
        OtherKeys(c, life.record, Drained(c, life.record, life.lost, step.due, step.kept).keys, batch);
      }
    }
  }

  lemma TakenIsOneBatch(c: Config, r: Record, batch: seq<Entry>)
    ensures Takes(c, r, batch) ==> |batch| <= c.limits.maxBatch
  {
    hide NonceMap, Fresh;
  }

  lemma PinKeeps(keys: map<nat, string>, account: nat, key: string)
    ensures account !in keys ==> |keys[account := key]| == |keys| + 1 && KeysKept(keys, keys[account := key])
  {
    if account !in keys { Insertion(keys, account, key); }
  }

  lemma GroupExtends(c: Config, life: Life, batch: seq<Entry>, commits: bool)
    ensures Extends(c, life, Committed(c, life, batch, commits))
  {
    hide Takes, Lands, TableAfter;
    if life.Sound? && !Serializes(batch) { NotTaken(c, life.record, batch); }
  }

  lemma PageExtends(c: Config, life: Life, due: seq<Due>, kept: nat -> bool, commits: bool)
    ensures Extends(c, life, AfterDrain(c, life, due, kept, commits))
  {
    if life.Sound? {
      var p := Drained(c, life.record, life.lost, due, kept);
      DrainKeepsKeys(c, life.record, life.lost, due, kept);
      GroupExtends(c, Sound(life.record.(keys := p.keys), life.lost), p.batch, commits);
    }
    hide Committed, Drained;
  }

  lemma {:induction false} DrainKeepsKeys(c: Config, r: Record, lost: nat, due: seq<Due>, kept: nat -> bool)
    ensures var keys := Drained(c, r, lost, due, kept).keys;
            KeysKept(r.keys, keys) && (|r.keys| <= c.limits.maxAccounts ==> |keys| <= c.limits.maxAccounts)
  {
    hide TakeOne;
    if due != [] {
      var n := |due| - 1;
      DrainKeepsKeys(c, r, lost, due[..n], kept);
      var p := Drained(c, r, lost, due[..n], kept);
      OneKeepsKeys(c, r, lost, p, due[n], kept(n));
    }
  }

  lemma OneKeepsKeys(c: Config, r: Record, lost: nat, p: Pass, d: Due, kept: bool)
    ensures var next := DrainOne(c, r, lost, p, d, kept);
            KeysKept(p.keys, next.keys) && (|p.keys| <= c.limits.maxAccounts ==> |next.keys| <= c.limits.maxAccounts)
  {
    hide NonceMap, GrowthFits, BatchNonces;
    if d.signer.Some? { PinKeeps(p.keys, d.account, d.signer.value); }
  }

  /** Over any interleaving of writers, failures, crashes and restarts, what was published
      stays published, and the first key an account came with is the key it keeps. */
  lemma {:induction false} LifeExtends(c: Config, life: Life, steps: seq<Step>)
    ensures Extends(c, life, Lived(c, life, steps))
    decreases |steps|
  {
    hide After;
    if steps != [] {
      LifeExtends(c, life, steps[..|steps| - 1]);
      StepExtends(c, Lived(c, life, steps[..|steps| - 1]), steps[|steps| - 1]);
    }
  }
}
