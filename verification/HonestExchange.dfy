/** What the sender does with an exchange that keeps the rules: the matcher serves its
    claims by page, the feed signs its own tree, and no one signs for them. */
module HonestExchange {
  import opened Common
  import opened Rfc9162
  import opened Consistency
  import opened Anchoring
  import opened AnchorRuns

  // ---------------------------------------------------------------------------
  // The matcher's claims
  // ---------------------------------------------------------------------------

  /** The rows `claims_since` reads, before its limit. */
  function After(claims: seq<Claim>, since: nat): seq<Claim> {
    if claims == [] then []
    else if claims[0].fromMsg > since then [claims[0]] + After(claims[1..], since)
    else After(claims[1..], since)
  }

  /** `claims_since`: one page of claims, at most 1_000 of them. */
  function ClaimsSince(claims: seq<Claim>, since: nat): seq<Claim> {
    var rows := After(claims, since);
    if |rows| <= 1_000 then rows else rows[..1_000]
  }

  /** Claims in message order, none over more than 1_000 messages. */
  predicate InOrder(claims: seq<Claim>) {
    && (forall i | 0 <= i < |claims| :: 1 <= claims[i].fromMsg <= claims[i].toMsg < claims[i].fromMsg + 1_000)
    && (forall i | 0 < i < |claims| :: claims[i - 1].fromMsg < claims[i].fromMsg)
  }

  ghost predicate EndsAt(claims: seq<Claim>, cursor: nat) {
    exists i | 0 <= i < |claims| :: claims[i].toMsg == cursor
  }

  lemma {:induction false} AfterTakesAll(claims: seq<Claim>, since: nat)
    requires forall i | 0 <= i < |claims| :: claims[i].fromMsg > since
    ensures After(claims, since) == claims
  {
    if claims != [] {
      AfterTakesAll(claims[1..], since);
      assert claims == [claims[0]] + claims[1..];
    }
  }

  lemma {:induction false} AfterIsSuffix(claims: seq<Claim>, since: nat) returns (k: nat)
    requires InOrder(claims)
    ensures k <= |claims| && After(claims, since) == claims[k..]
    ensures forall i | 0 <= i < k :: claims[i].fromMsg <= since
    ensures k < |claims| ==> claims[k].fromMsg > since
    decreases |claims|
  {
    if claims == [] { return 0; }
    if claims[0].fromMsg > since {
      forall i | 0 <= i < |claims| ensures claims[i].fromMsg > since { Rises(claims, 0, i); }
      AfterTakesAll(claims, since);
      return 0;
    }
    InOrderTail(claims);
    k := AfterIsSuffix(claims[1..], since);
    hide InOrder;
    assert claims[1..][k..] == claims[k + 1..];
    assert forall i | 0 < i <= k :: claims[1..][i - 1] == claims[i];
    k := k + 1;
  }

  lemma InOrderTail(claims: seq<Claim>)
    requires InOrder(claims) && claims != []
    ensures InOrder(claims[1..])
  {}

  lemma {:induction false} Rises(claims: seq<Claim>, i: nat, j: nat)
    requires InOrder(claims) && i <= j < |claims|
    ensures claims[j].fromMsg >= claims[i].fromMsg + (j - i)
    decreases j
  {
    if i < j { Rises(claims, i, j - 1); }
  }

  /** The page that starts a page below the cursor holds a claim ending at the cursor
      if and only if the matcher has one, however many claims it has. */
  lemma PageReachesCursor(claims: seq<Claim>, cursor: nat)
    requires InOrder(claims)
    ensures EndsAt(ClaimsSince(claims, Since(cursor)), cursor) <==> EndsAt(claims, cursor)
    ensures forall c | c in ClaimsSince(claims, Since(cursor)) :: c in claims
  {
    var since := Since(cursor);
    var k := AfterIsSuffix(claims, since);
    var page := ClaimsSince(claims, since);
    assert forall i | 0 <= i < |page| :: page[i] == claims[k + i];
    if EndsAt(claims, cursor) {
      var i :| 0 <= i < |claims| && claims[i].toMsg == cursor;
      Rises(claims, k, i);
      assert page[i - k].toMsg == cursor;
    }
  }

  // ---------------------------------------------------------------------------
  // An exchange that keeps the rules is anchored
  // ---------------------------------------------------------------------------

  /** The exchange is at message `cursor` of the history `d`: the matcher pages through
      `claims`, all of them signed, and the feed signs the tree of `d`. */
  ghost predicate KeepsRules(env: Env, a: Answers, session: string, cursor: nat, claims: seq<Claim>, d: seq<Bytes>)
  {
    && a.envelope.Some? && a.envelope.value.session == session && a.envelope.value.cursor == cursor
    && |session| == 16 && session != NO_SESSION
    && (forall i | 0 <= i < 16 :: '0' <= session[i] <= '9' || 'a' <= session[i] <= 'f')
    && 0 < cursor <= |d|
    && InOrder(claims)
    && (forall c | c in claims ::
          c.rootAfter.Some?
          && env.verifies(a.envelope.value.matcherKey, ClaimStatement(session, c), c.signature))
    && (forall s :: a.page(s).Some? && a.page(s).value.claims == ClaimsSince(claims, s))
    && a.head.Some? && a.head.value.session == session
    && a.head.value.treeSize == |d| && a.head.value.root == Some(Mth(env.h, d))
    && (a.envelope.value.feedKey == "" || a.head.value.publicKey == a.envelope.value.feedKey)
    && env.verifies(a.head.value.publicKey,
                    TreeHeadStatement(session, a.head.value.timestamp, |d|, Mth(env.h, d)),
                    a.head.value.signature)
  }

  /** The contract holds an earlier size of the same history, and the feed proves it. */
  ghost predicate Extended(env: Env, onChain: AnchorState, a: Answers, session: string, cursor: nat, d: seq<Bytes>)
  {
    && onChain.session == session && onChain.lastId <= cursor && onChain.treeSize <= |d|
    && onChain.root == Mth(env.h, d[..onChain.treeSize])
    && (onChain.treeSize < |d| ==>
          exists p :: a.proof(onChain.treeSize, |d|) == Some(p)
                      && p.first == onChain.treeSize && p.second == |d| && Decoded(p.path)
                      && Values(p.path) == Proof(env.h, onChain.treeSize, d))
  }

  /** An exchange that keeps the rules is collected if and only if one of its claims ends
      at its own cursor, and what is collected is its own tree at that cursor. */
  lemma HonestIsCollected(env: Env, onChain: AnchorState, a: Answers, session: string, cursor: nat,
                          claims: seq<Claim>, d: seq<Bytes>)
    requires KeepsRules(env, a, session, cursor, claims, d)
    requires onChain.count == 0 || Extended(env, onChain, a, session, cursor, d)
    ensures (exists f :: Coherent(env, onChain, a, f)) <==> EndsAt(claims, cursor)
    ensures forall f | Coherent(env, onChain, a, f) ::
              && f.session == session && f.treeSize == |d| && f.root == Mth(env.h, d) && f.lastId == cursor
              && exists c :: c in claims && c.toMsg == cursor && c.rootAfter == Some(f.stateRoot)
  {
    PageReachesCursor(claims, cursor);
    forall f | Coherent(env, onChain, a, f)
      ensures EndsAt(claims, cursor)
      ensures && f.session == session && f.treeSize == |d| && f.root == Mth(env.h, d) && f.lastId == cursor
              && exists c :: c in claims && c.toMsg == cursor && c.rootAfter == Some(f.stateRoot)
    {
      CoherentIsOwn(env, onChain, a, session, cursor, claims, d, f);
    }
    hide Coherent, KeepsRules, Extended;
    if EndsAt(claims, cursor) {
      var f := HonestTuple(env, onChain, a, session, cursor, claims, d);
    }
  }

  lemma CoherentIsOwn(env: Env, onChain: AnchorState, a: Answers, session: string, cursor: nat,
                      claims: seq<Claim>, d: seq<Bytes>, f: Facts)
    requires KeepsRules(env, a, session, cursor, claims, d) && Coherent(env, onChain, a, f)
    ensures f.session == session && f.treeSize == |d| && f.root == Mth(env.h, d) && f.lastId == cursor
    ensures EndsAt(claims, cursor) && exists c :: c in claims && c.toMsg == cursor && c.rootAfter == Some(f.stateRoot)
  {
    hide Mth, Agrees, ProofShows, IsSessionHex, InOrder;
    OnPage(env, a, session, cursor, claims, d);
    var page := a.page(Since(cursor)).value.claims;
    var i: nat :| FirstClaimAt(page, cursor, i) && page[i].rootAfter == Some(f.stateRoot);
    assert page[i] in page;
    var j :| 0 <= j < |claims| && claims[j] == page[i];
    assert claims[j].toMsg == cursor;
  }

  lemma OnPage(env: Env, a: Answers, session: string, cursor: nat, claims: seq<Claim>, d: seq<Bytes>)
    requires KeepsRules(env, a, session, cursor, claims, d)
    ensures forall c | c in a.page(Since(cursor)).value.claims :: c in claims
  {
    PageReachesCursor(claims, cursor);
  }

  lemma HonestTuple(env: Env, onChain: AnchorState, a: Answers, session: string, cursor: nat,
                    claims: seq<Claim>, d: seq<Bytes>) returns (f: Facts)
    requires KeepsRules(env, a, session, cursor, claims, d) && EndsAt(claims, cursor)
    requires onChain.count == 0 || Extended(env, onChain, a, session, cursor, d)
    ensures Coherent(env, onChain, a, f)
  {
    PageReachesCursor(claims, cursor);
    var page := a.page(Since(cursor)).value.claims;
    var i := FirstEnding(page, cursor);
    f := Facts(session, |d|, Mth(env.h, d), cursor, page[i].rootAfter.value);
    HonestClaimBacks(env, a, session, cursor, claims, d, i, f);
    if onChain.count != 0 { HonestProofShows(env, onChain, a, session, cursor, d, f); }
    SessionNamed(env, a, session, cursor, claims, d);
    HonestHeadBacks(env, a, session, cursor, claims, d, f);
    hide Mth, InOrder, EndsAt, FirstClaimAt, ClaimBacks, ProofShows, Extended, HeadBacks, KeepsRules, IsSessionHex;
  }

  lemma SessionNamed(env: Env, a: Answers, session: string, cursor: nat, claims: seq<Claim>, d: seq<Bytes>)
    requires KeepsRules(env, a, session, cursor, claims, d)
    ensures IsSessionHex(session) && session != NO_SESSION && 0 < cursor <= |d|
  {}

  lemma HonestHeadBacks(env: Env, a: Answers, session: string, cursor: nat, claims: seq<Claim>, d: seq<Bytes>, f: Facts)
    requires KeepsRules(env, a, session, cursor, claims, d)
    requires f.session == session && f.treeSize == |d| && f.root == Mth(env.h, d)
    ensures HeadBacks(env, a, f)
  {
    hide Mth, InOrder;
  }

  lemma HonestClaimBacks(env: Env, a: Answers, session: string, cursor: nat, claims: seq<Claim>, d: seq<Bytes>,
                         i: nat, f: Facts)
    requires KeepsRules(env, a, session, cursor, claims, d)
    requires FirstClaimAt(a.page(Since(cursor)).value.claims, cursor, i)
    requires f.session == session && f.lastId == cursor
    requires a.page(Since(cursor)).value.claims[i].rootAfter == Some(f.stateRoot)
    ensures ClaimBacks(env, a, f)
  {
    OnPage(env, a, session, cursor, claims, d);
    hide Mth, InOrder;
  }

  lemma HonestProofShows(env: Env, onChain: AnchorState, a: Answers, session: string, cursor: nat, d: seq<Bytes>,
                         f: Facts)
    requires Extended(env, onChain, a, session, cursor, d)
    requires f.session == session && f.lastId == cursor && f.treeSize == |d| && f.root == Mth(env.h, d)
    ensures Agrees(onChain, f) && (onChain.treeSize < f.treeSize ==> ProofShows(env, onChain, a, f))
  {
    hide Mth, Proof, Accepts;
    if onChain.treeSize < |d| {
      Completeness(env.h, onChain.treeSize, d);
    } else {
      assert d[..|d|] == d;
    }
  }

  lemma {:induction false} FirstEnding(claims: seq<Claim>, cursor: nat) returns (i: nat)
    requires EndsAt(claims, cursor)
    ensures FirstClaimAt(claims, cursor, i)
    decreases |claims|
  {
    if claims[0].toMsg == cursor { return 0; }
    assert forall j | 0 < j < |claims| :: claims[1..][j - 1] == claims[j];
    i := FirstEnding(claims[1..], cursor);
    i := i + 1;
  }

  /** Such an exchange, once its log is longer than the anchored one, makes a tick send
      an anchor of its own tree, and the contract records it. */
  lemma HonestIsAnchored(env: Env, log: seq<Facts>, a: Answers, session: string, cursor: nat, claims: seq<Claim>,
                         d: seq<Bytes>) returns (f: Facts)
    requires Checked(env.h, log) && KeepsRules(env, a, session, cursor, claims, d) && EndsAt(claims, cursor)
    requires log != [] ==> Extended(env, Held(log), a, session, cursor, d) && Held(log).treeSize < |d|
    ensures Sends(env, Held(log), a, f) && Write(log, f) == log + [f]
    ensures f.treeSize == |d| && f.root == Mth(env.h, d) && f.lastId == cursor
  {
    hide Mth, Coherent, Checked, Extended, KeepsRules, EndsAt;
    SessionNamed(env, a, session, cursor, claims, d);
    f := HonestTuple(env, Held(log), a, session, cursor, claims, d);
    HonestIsCollected(env, Held(log), a, session, cursor, claims, d);
    SentFollows(env, log, a, f);
  }

  // ---------------------------------------------------------------------------
  // No one else can be anchored for it
  // ---------------------------------------------------------------------------

  /** The holder of `key` signed these statements, and no one can sign another. */
  ghost predicate OnlySigned(env: Env, key: string, signed: iset<Statement>) {
    forall s, signature | env.verifies(key, s, signature) :: s in signed
  }

  /** Whatever is served, a collected tuple joins a claim the matcher signed, ending at
      that cursor under that session, and a head the feed signed of that size and root. */
  lemma NothingForged(env: Env, onChain: AnchorState, a: Answers, f: Facts, byMatcher: iset<Statement>,
                      byFeed: iset<Statement>)
    requires Coherent(env, onChain, a, f) && a.envelope.Some? && a.envelope.value.feedKey != ""
    requires OnlySigned(env, a.envelope.value.matcherKey, byMatcher)
    requires OnlySigned(env, a.envelope.value.feedKey, byFeed)
    ensures exists c ::
              ClaimStatement(f.session, c) in byMatcher && c.toMsg == f.lastId && c.rootAfter == Some(f.stateRoot)
    ensures exists t :: TreeHeadStatement(f.session, t, f.treeSize, f.root) in byFeed
  {}
}
