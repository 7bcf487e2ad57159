/** The intake budgets: a group is refused whole, before anything changes, or every
    message in it has room. */
module Retention {
  import opened Common
  import opened Rfc9162
  import opened FeedModel

  /** A message as the producer builds it; `json` is None where it cannot be serialized. */
  datatype Message = Message(id: nat, account: nat, nonce: Option<string>, json: Option<Bytes>)

  datatype Entry = Entry(inbox: Option<InboxKey>, message: Message)

  /** `nonce_key`. */
  function MessageKey(w: Wire, m: Message): Option<NonceKey> {
    if m.nonce.None? then None else
    match w.canonicalNonce(m.nonce.value)
    case None => None
    case Some(nonce) => Some((m.account, nonce))
  }

  /** The bytes of a message say what the message says, and intake let its nonce in. */
  predicate WellWritten(w: Wire, m: Message) {
    m.json.Some? ==>
      && w.envelope(m.json.value) == Ok(Envelope(m.id, Some(m.account), m.nonce))
      && (m.nonce.Some? ==> w.canonicalNonce(m.nonce.value).Some?)
  }

  lemma WrittenReadsBack(w: Wire, m: Message)
    requires WellWritten(w, m) && m.json.Some?
    ensures Readable(w, m.json.value, m.id) && NonceOf(w, m.json.value) == MessageKey(w, m)
  {}

  function BatchNonces(w: Wire, batch: seq<Entry>): (keys: seq<Option<NonceKey>>)
    ensures |keys| == |batch|
  {
    seq(|batch|, i requires 0 <= i < |batch| => MessageKey(w, batch[i].message))
  }

  function BatchInbox(batch: seq<Entry>): (keys: seq<Option<InboxKey>>)
    ensures |keys| == |batch|
  {
    seq(|batch|, i requires 0 <= i < |batch| => batch[i].inbox)
  }

  /** Keys that are new, all different, and fit beside those already used. */
  ghost predicate Fresh<K>(keys: seq<Option<K>>, used: map<K, nat>, max: nat) {
    && Distinct(keys)
    && (forall i | 0 <= i < |keys| && keys[i].Some? :: keys[i].value !in used)
    && (Numbered(keys) == map[] || |used| + |Numbered(keys)| <= max)
  }

  /** One key more. */
  lemma FreshStep<K>(keys: seq<Option<K>>, used: map<K, nat>, max: nat, key: Option<K>)
    ensures Fresh(keys + [key], used, max)
            <==> Fresh(keys, used, max)
                 && (key.Some? ==> key.value !in used && key.value !in Numbered(keys)
                                   && |used| + |Numbered(keys)| < max)
    ensures key.Some? && key.value !in Numbered(keys) ==> |Numbered(keys + [key])| == |Numbered(keys)| + 1
    ensures key.None? ==> Numbered(keys + [key]) == Numbered(keys)
    ensures key.Some? ==> Numbered(keys + [key]).Keys == Numbered(keys).Keys + {key.value}
  {
    var all := keys + [key];
    assert all[..|keys|] == keys && all[|keys|] == key;
    assert forall i | 0 <= i < |keys| :: all[i] == keys[i];
    hide Distinct;
    assert Distinct(all) <==> Distinct(keys) && (key.Some? ==> key.value !in Numbered(keys)) by {
      DistinctStep(keys, key);
    }
    assert |Numbered(keys)| == |Numbered(keys).Keys|;
    assert |Numbered(all)| == |Numbered(all).Keys|;
  }

  /** The counts alone. */
  lemma FreshSize<K>(keys: seq<Option<K>>, used: map<K, nat>, max: nat, key: Option<K>)
    requires Fresh(keys + [key], used, max)
    ensures Fresh(keys, used, max)
    ensures match key
            case None => |Numbered(keys + [key])| == |Numbered(keys)|
            case Some(k) => k !in used && k !in Numbered(keys) && |used| + |Numbered(keys)| < max
                            && |Numbered(keys + [key])| == |Numbered(keys)| + 1
  {
    hide Fresh, Numbered, Distinct;
    FreshStep(keys, used, max, key);
  }

  lemma DistinctStep<K>(keys: seq<Option<K>>, key: Option<K>)
    ensures Distinct(keys + [key]) <==> Distinct(keys) && (key.Some? ==> key.value !in Numbered(keys))
  {
    var all := keys + [key];
    assert forall i | 0 <= i < |keys| :: all[i] == keys[i];
    if key.Some? && Distinct(all) { LastIsFresh(keys, key.value); }
    if key.Some? { NumberedKeys(keys, key.value); }
  }

  lemma {:induction false} FreshBefore<K>(keys: seq<Option<K>>, used: map<K, nat>, max: nat, n: nat)
    requires Fresh(keys, used, max) && n <= |keys|
    ensures Fresh(keys[..n], used, max)
    decreases |keys|
  {
    if n == |keys| {
      assert keys[..n] == keys;
    } else {
      var rest := keys[..|keys| - 1];
      assert keys == rest + [keys[|keys| - 1]];
      FreshStep(rest, used, max, keys[|keys| - 1]);
      assert rest[..n] == keys[..n];
      FreshBefore(rest, used, max, n);
    }
  }

  /** What the guard admits: `memory` is the tree size of a feed with no database. */
  ghost predicate Admits(c: Config, memory: Option<nat>, nonces: map<NonceKey, nat>, inbox: map<InboxKey, nat>,
                         batch: seq<Entry>)
  {
    && |batch| <= c.limits.maxBatch
    && (memory.Some? ==> memory.value + |batch| <= c.limits.maxMemory || batch == [])
    && Fresh(BatchNonces(c.w, batch), nonces, c.limits.maxNonces)
    && Fresh(BatchInbox(batch), inbox, c.limits.maxInbox)
  }

  /** The first `n` keys are new and fit, and `seen` holds them. */
  ghost predicate Seen<K>(keys: seq<Option<K>>, used: map<K, nat>, max: nat, n: nat, seen: set<K>) {
    n <= |keys| && Fresh(keys[..n], used, max) && seen == Numbered(keys[..n]).Keys
  }

  /** One key of a message beside those seen: new, and within the budget. */
  predicate KeyFits<K(==)>(key: K, used: map<K, nat>, max: nat, seen: set<K>) {
    key !in used && key !in seen && |seen + {key}| <= SaturatingSub(max, |used|)
  }

  /** The two checks on one key. */
  method SeeKey<K(==)>(key: Option<K>, used: map<K, nat>, max: nat, seen: set<K>) returns (r: Result<set<K>>)
    ensures r.Ok? <==> key.None? || KeyFits(key.value, used, max, seen)
    ensures r.Ok? ==> r.value == if key.None? then seen else seen + {key.value}
  {
    if key.None? { return Ok(seen); }
    if key.value in used || key.value in seen { return Err("already used; no batch messages were published"); }
    var more := seen + {key.value};
    if |more| > SaturatingSub(max, |used|) { return Err("capacity exhausted; what is spent is retained"); }
    r := Ok(more);
  }

  /** `check_retention_batch`. */
  method CheckRetentionBatch(c: Config, memory: Option<nat>, nonces: map<NonceKey, nat>, inbox: map<InboxKey, nat>,
                             batch: seq<Entry>)
    returns (r: Result<bool>)
    ensures r.Ok? <==> Admits(c, memory, nonces, inbox, batch)
  {
    hide Fresh, Seen, MessageKey, BatchNonces, BatchInbox, KeyFits;
    if |batch| > c.limits.maxBatch { return Err("batch capacity exceeded"); }
    if memory.Some? && |batch| > SaturatingSub(c.limits.maxMemory, memory.value) {
      return Err("RAM history capacity exhausted");
    }
    ghost var spent, taken := BatchNonces(c.w, batch), BatchInbox(batch);
    var newNonces: set<NonceKey>, newInbox: set<InboxKey> := {}, {};
    NoneSeen(spent, nonces, c.limits.maxNonces);
    NoneSeen(taken, inbox, c.limits.maxInbox);
    for n := 0 to |batch|
      invariant Seen(spent, nonces, c.limits.maxNonces, n, newNonces)
      invariant Seen(taken, inbox, c.limits.maxInbox, n, newInbox)
    {
      BatchKeys(c.w, batch, n);
      KeyStep(spent, nonces, c.limits.maxNonces, n, newNonces);
      var nonce := SeeKey(MessageKey(c.w, batch[n].message), nonces, c.limits.maxNonces, newNonces);
      if nonce.Err? { return Err(nonce.reason); }
      newNonces := nonce.value;
      KeyStep(taken, inbox, c.limits.maxInbox, n, newInbox);
      var key := SeeKey(batch[n].inbox, inbox, c.limits.maxInbox, newInbox);
      if key.Err? { return Err(key.reason); }
      newInbox := key.value;
    }
    AllSeen(spent, nonces, c.limits.maxNonces, newNonces);
    AllSeen(taken, inbox, c.limits.maxInbox, newInbox);
    r := Ok(true);
  }

  lemma BatchKeys(w: Wire, batch: seq<Entry>, n: nat)
    requires n < |batch|
    ensures BatchNonces(w, batch)[n] == MessageKey(w, batch[n].message) && BatchInbox(batch)[n] == batch[n].inbox
  {}

  lemma NoKeysAreFresh<K>(used: map<K, nat>, max: nat)
    ensures Fresh([], used, max) && Numbered<K>([]).Keys == {}
  {}

  lemma NoneSeen<K>(keys: seq<Option<K>>, used: map<K, nat>, max: nat)
    ensures Seen(keys, used, max, 0, {})
  {
    assert keys[..0] == [];
  }

  lemma AllSeen<K>(keys: seq<Option<K>>, used: map<K, nat>, max: nat, seen: set<K>)
    requires Seen(keys, used, max, |keys|, seen)
    ensures Fresh(keys, used, max)
  {
    hide Fresh, Numbered;
    assert keys[..|keys|] == keys;
  }

  lemma KeyStep<K>(keys: seq<Option<K>>, used: map<K, nat>, max: nat, n: nat, seen: set<K>)
    requires n < |keys| && Seen(keys, used, max, n, seen)
    ensures match keys[n]
            case None => Seen(keys, used, max, n + 1, seen)
            case Some(key) =>
              if KeyFits(key, used, max, seen) then Seen(keys, used, max, n + 1, seen + {key})
              else !Fresh(keys, used, max)
  {
    hide Fresh, Distinct, Numbered;
    FreshStep(keys[..n], used, max, keys[n]);
    assert keys[..n + 1] == keys[..n] + [keys[n]];
    if Fresh(keys, used, max) { FreshBefore(keys, used, max, n + 1); }
    assert |seen| == |Numbered(keys[..n])|;
  }

  /** `check_retention_growth`: the counts a writer checks before it takes an id. */
  predicate GrowthFits(c: Config, memory: Option<nat>, nonces: nat, inbox: nat, newMessages: nat, newNonces: nat,
                       newInbox: nat) {
    && newMessages <= c.limits.maxBatch
    && (memory.Some? ==> newMessages <= SaturatingSub(c.limits.maxMemory, memory.value))
    && newNonces <= SaturatingSub(c.limits.maxNonces, nonces)
    && newInbox <= SaturatingSub(c.limits.maxInbox, inbox)
  }

  /** `n` more of something fit where `used` are taken out of `max`. */
  predicate Beside(used: nat, n: nat, max: nat) {
    n == 0 || used + n <= max
  }

  /** The counts of the guard, budget by budget: a message that pairs no inbox entry does
      not need room for a pairing. */
  lemma GrowthIsBudgets(c: Config, memory: Option<nat>, nonces: nat, inbox: nat, newMessages: nat, newNonces: nat,
                        newInbox: nat)
    ensures GrowthFits(c, memory, nonces, inbox, newMessages, newNonces, newInbox)
            <==> && newMessages <= c.limits.maxBatch
                 && (memory.Some? ==> Beside(memory.value, newMessages, c.limits.maxMemory))
                 && Beside(nonces, newNonces, c.limits.maxNonces)
                 && Beside(inbox, newInbox, c.limits.maxInbox)
  {}

  lemma NumberedKeysGrow<K>(keys: seq<Option<K>>, key: Option<K>)
    ensures |Numbered(keys + [key])| <= |Numbered(keys)| + 1
  {
    var before, after := Numbered(keys), Numbered(keys + [key]);
    assert (keys + [key])[..|keys|] == keys;
    if key.Some? {
      assert after.Keys == before.Keys + {key.value};
      assert |after| == |after.Keys| && |before| == |before.Keys|;
    }
  }

  lemma {:induction false} NumberedSize<K>(keys: seq<Option<K>>)
    ensures |Numbered(keys)| <= |keys|
  {
    if keys != [] {
      var rest := keys[..|keys| - 1];
      NumberedSize(rest);
      assert keys == rest + [keys[|keys| - 1]];
      NumberedKeysGrow(rest, keys[|keys| - 1]);
    }
  }

  /** A writer that checked the counts first, and whose keys are new and all different,
      is never refused by the guard. */
  lemma PreflightSuffices(c: Config, memory: Option<nat>, nonces: map<NonceKey, nat>, inbox: map<InboxKey, nat>,
                          batch: seq<Entry>)
    requires GrowthFits(c, memory, |nonces|, |inbox|, |batch|, |batch|, |batch|)
    requires Distinct(BatchNonces(c.w, batch)) && Distinct(BatchInbox(batch))
    requires forall e | e in batch && MessageKey(c.w, e.message).Some? :: MessageKey(c.w, e.message).value !in nonces
    requires forall e | e in batch && e.inbox.Some? :: e.inbox.value !in inbox
    ensures Admits(c, memory, nonces, inbox, batch)
  {
    hide Distinct, Numbered, MessageKey;
    NumberedSize(BatchNonces(c.w, batch));
    NumberedSize(BatchInbox(batch));
    if batch == [] { NoKeysAreFresh(nonces, c.limits.maxNonces); NoKeysAreFresh(inbox, c.limits.maxInbox); }
  }
}
