/** Whole runs of the sender and the contract: what the record holds after any number
    of ticks, late transactions and lost ones. */
module AnchorRuns {
  import opened Common
  import opened Rfc9162
  import opened Consistency
  import opened Anchoring

  /** The four rules between two neighbouring anchors, and a path that shows the
      older tree is a prefix of the newer one. */
  ghost predicate Follows(h: Hasher, a: Facts, b: Facts) {
    && b.session == a.session && a.treeSize < b.treeSize && a.lastId <= b.lastId
    && exists path :: Accepts(h, a.treeSize, b.treeSize, a.root, b.root, path)
  }

  /** An anchor that names a session and holds its cursor inside its tree. */
  predicate Placed(f: Facts) {
    0 < f.lastId <= f.treeSize && IsSessionHex(f.session) && f.session != NO_SESSION
  }

  ghost predicate Checked(h: Hasher, log: seq<Facts>) {
    && (forall i | 0 <= i < |log| :: Placed(log[i]))
    && (forall i | 0 < i < |log| :: Follows(h, log[i - 1], log[i]))
  }

  /** The contract's record, and the transactions sent and not yet mined, oldest
      first: one writer's transactions land in the order it sent them. */
  datatype World = World(log: seq<Facts>, outstanding: seq<Facts>)

  function Deliver(log: seq<Facts>, fs: seq<Facts>): seq<Facts>
    decreases |fs|
  {
    if fs == [] then log else Deliver(Write(log, fs[0]), fs[1..])
  }

  /** What the record holds once everything outstanding is mined. */
  function Delivered(w: World): seq<Facts> {
    Deliver(w.log, w.outstanding)
  }

  /** A tick sends `f`, and it is mined or stays outstanding. */
  ghost predicate TickStep(env: Env, w: World, w': World) {
    exists a, f :: TickSends(env, w, w', a, f)
  }

  ghost predicate TickSends(env: Env, w: World, w': World, a: Answers, f: Facts) {
    && Sends(env, Held(w.log), a, f)
    && (w' == World(w.log, w.outstanding + [f]) || w' == World(Deliver(w.log, w.outstanding + [f]), []))
  }

  /** The oldest outstanding transaction is mined. */
  ghost predicate LateStep(w: World, w': World) {
    w.outstanding != [] && w' == World(Write(w.log, w.outstanding[0]), w.outstanding[1..])
  }

  /** An outstanding transaction is dropped and will never be mined. */
  ghost predicate DropStep(w: World, w': World) {
    exists i | 0 <= i < |w.outstanding| :: w' == World(w.log, w.outstanding[..i] + w.outstanding[i + 1..])
  }

  /** Something other than a tick. */
  ghost predicate QuietStep(w: World, w': World) {
    w' == w || LateStep(w, w') || DropStep(w, w')
  }

  ghost predicate IsRun(env: Env, trace: seq<World>) {
    && trace != [] && trace[0] == World([], [])
    && forall i | 0 < i < |trace| :: QuietStep(trace[i - 1], trace[i]) || TickStep(env, trace[i - 1], trace[i])
  }

  /** No tick starts while a transaction is outstanding. */
  ghost predicate OneAtATime(trace: seq<World>) {
    forall i | 0 < i < |trace| && trace[i - 1].outstanding != [] :: QuietStep(trace[i - 1], trace[i])
  }

  // ---------------------------------------------------------------------------
  // Whole-run safety
  // ---------------------------------------------------------------------------

  /** What is sent satisfies all four rules and extends the newest anchor. */
  lemma SentFollows(env: Env, log: seq<Facts>, a: Answers, f: Facts)
    requires Sends(env, Held(log), a, f) && Checked(env.h, log)
    ensures Write(log, f) == log + [f] && Checked(env.h, log + [f])
  {
    if log != [] {
      assert Follows(env.h, log[|log| - 1], f);
    }
  }

  /** The record is checked, and stays so when the outstanding transaction lands. */
  ghost predicate Sound(h: Hasher, w: World) {
    && Checked(h, w.log)
    && |w.outstanding| <= 1
    && Delivered(w) == w.log + w.outstanding
    && Checked(h, w.log + w.outstanding)
  }

  lemma TickKeepsSound(env: Env, w: World, w': World, a: Answers, f: Facts)
    requires Sound(env.h, w) && w.outstanding == [] && TickSends(env, w, w', a, f)
    ensures Sound(env.h, w')
  {
    SentFollows(env, w.log, a, f);
    assert w.outstanding + [f] == [f];
    hide Checked, Sends;
    assert Deliver(w.log, [f]) == Deliver(Write(w.log, f), []);
  }

  lemma QuietKeepsSound(h: Hasher, w: World, w': World)
    requires Sound(h, w) && QuietStep(w, w')
    ensures Sound(h, w')
  {
    hide Checked;
    if LateStep(w, w') {
      assert w.outstanding == [w.outstanding[0]];
    } else if DropStep(w, w') {
      assert w'.outstanding == [];
      assert w'.log + [] == w'.log;
    }
  }

  /** Against any exchange, a run with one transaction at a time records only
      anchors that satisfy the four rules and extend each other, and the contract
      refuses none of them, whether they land at once, late or never. */
  lemma {:induction false} RunsStaySound(env: Env, trace: seq<World>)
    requires IsRun(env, trace) && OneAtATime(trace)
    ensures Sound(env.h, trace[|trace| - 1])
  {
    hide Sound, QuietStep, TickStep;
    if |trace| == 1 {
      NothingIsSound(env.h);
    } else {
      RunsStaySound(env, trace[..|trace| - 1]);
      StepStaysSound(env, trace[|trace| - 2], trace[|trace| - 1]);
    }
  }

  lemma NothingIsSound(h: Hasher)
    ensures Sound(h, World([], []))
  {
    var none: seq<Facts> := [];
    assert none + none == none;
  }

  lemma StepStaysSound(env: Env, w: World, w': World)
    requires Sound(env.h, w) && (QuietStep(w, w') || TickStep(env, w, w'))
    requires w.outstanding != [] ==> QuietStep(w, w')
    ensures Sound(env.h, w')
  {
    hide Sound, QuietStep, TickSends;
    if QuietStep(w, w') {
      QuietKeepsSound(env.h, w, w');
    } else {
      var a, f :| TickSends(env, w, w', a, f);
      TickKeepsSound(env, w, w', a, f);
    }
  }

  // ---------------------------------------------------------------------------
  // What the contract alone enforces
  // ---------------------------------------------------------------------------

  /** Any two anchors of a record name one session, the later one a larger tree and no
      earlier cursor, and each cursor lies inside its tree. */
  ghost predicate Rising(log: seq<Facts>) {
    && (forall i | 0 <= i < |log| ::
          log[i].session != "0000000000000000" && 0 < log[i].treeSize && log[i].lastId <= log[i].treeSize)
    && (forall i, j | 0 <= i < j < |log| ::
          && log[i].session == log[j].session
          && log[i].treeSize < log[j].treeSize && log[i].lastId <= log[j].lastId)
  }

  lemma RulesKeepRising(log: seq<Facts>, f: Facts)
    requires Rising(log) && Rules(Held(log), f)
    ensures Rising(log + [f])
  {
    var next := log + [f];
    forall i, j | 0 <= i < j < |next|
      ensures next[i].session == next[j].session
      ensures next[i].treeSize < next[j].treeSize && next[i].lastId <= next[j].lastId
    {
      if j == |log| && i < j - 1 { assert log[i].treeSize < log[j - 1].treeSize; }
    }
  }

  lemma RisingMeetsRules(log: seq<Facts>, f: Facts)
    requires Rising(log + [f])
    ensures Rules(Held(log), f)
  {
    var next := log + [f];
    assert next[|log|] == f;
    if log != [] { assert next[|log| - 1].treeSize < next[|log|].treeSize; }
  }

  /** A transaction is recorded if and only if the record stays so, and else reverts. */
  lemma RecordedIffRising(log: seq<Facts>, f: Facts)
    requires Rising(log)
    ensures Write(log, f) == if Rising(log + [f]) then log + [f] else log
  {
    hide Rising, Rules;
    if Rules(Held(log), f) { RulesKeepRising(log, f); }
    if Rising(log + [f]) { RisingMeetsRules(log, f); }
  }

  /** Whoever sends what, the record rises. */
  lemma {:induction false} RecordsRise(log: seq<Facts>, fs: seq<Facts>)
    requires Rising(log)
    ensures Rising(Deliver(log, fs))
    decreases |fs|
  {
    hide Rising;
    if fs != [] {
      RecordedIffRising(log, fs[0]);
      RecordsRise(Write(log, fs[0]), fs[1..]);
    }
  }

  // ---------------------------------------------------------------------------
  // What a checked record proves
  // ---------------------------------------------------------------------------

  /** An anchor of a list: its root is the list's tree hash. */
  predicate Anchors(h: Hasher, f: Facts, d: seq<Bytes>) {
    f.treeSize == |d| && f.root == Mth(h, d)
  }

  lemma FollowsIsPrefix(h: Hasher, a: Facts, b: Facts, d: seq<Bytes>)
    requires NodeInjective(h) && Follows(h, a, b) && Anchors(h, b, d)
    ensures a.treeSize <= |d| && Anchors(h, a, d[..a.treeSize])
  {
    hide Mth, Accepts, Proof;
    var path :| Accepts(h, a.treeSize, b.treeSize, a.root, b.root, path);
    Soundness(h, a.treeSize, d, a.root, path);
  }

  /** If any anchor's root is the tree hash of a list, every earlier anchor holds
      the tree hash of that list's prefix at its own size. */
  lemma {:induction false} EarlierAnchorsArePrefixes(h: Hasher, log: seq<Facts>, i: nat, j: nat, d: seq<Bytes>)
    requires NodeInjective(h) && Checked(h, log) && i <= j < |log| && Anchors(h, log[j], d)
    ensures log[i].treeSize <= |d| && Anchors(h, log[i], d[..log[i].treeSize])
    decreases j - i
  {
    hide Mth, Follows;
    if i == j {
      assert d[..|d|] == d;
    } else {
      assert Follows(h, log[j - 1], log[j]);
      FollowsIsPrefix(h, log[j - 1], log[j], d);
      var before := d[..log[j - 1].treeSize];
      EarlierAnchorsArePrefixes(h, log, i, j - 1, before);
      assert before[..log[i].treeSize] == d[..log[i].treeSize];
    }
  }

  /** Along a checked record the sizes rise, the cursors do not fall, and the session
      stays. */
  lemma {:induction false} RecordRises(h: Hasher, log: seq<Facts>, i: nat, j: nat)
    requires Checked(h, log) && i < j < |log|
    ensures log[i].treeSize < log[j].treeSize && log[i].lastId <= log[j].lastId && log[i].session == log[j].session
    decreases j - i
  {
    assert Follows(h, log[j - 1], log[j]);
    if i + 1 < j { RecordRises(h, log, i, j - 1); }
  }

  // ---------------------------------------------------------------------------
  // A tick while a transaction is outstanding
  // ---------------------------------------------------------------------------

  ghost predicate ClaimSigned(env: Env, session: string, c: Claim, key: string, signature: string) {
    env.verifies(key, ClaimStatement(session, c.(signature := signature)), signature)
  }

  ghost predicate CanSignClaim(env: Env, session: string, c: Claim) {
    exists key, signature :: ClaimSigned(env, session, c, key, signature)
  }

  ghost predicate CanSignHead(env: Env, s: Statement) {
    exists key, signature :: env.verifies(key, s, signature)
  }

  /** Whoever serves the answers holds keys that can sign any claim and any head. */
  ghost predicate CanSign(env: Env) {
    && (forall session, c :: CanSignClaim(env, session, c))
    && (forall s: Statement | s.TreeHeadStatement? :: CanSignHead(env, s))
  }

  /** The hypotheses below can be met together. */
  lemma SigningExchangeExists() returns (env: Env)
    ensures CanSign(env) && NodeInjective(env.h) && LeafInjective(env.h)
  {
    CollisionFreeHashingExists();
    env := Env(FreeHasher, (_, _, _) => true);
    forall session, c ensures CanSignClaim(env, session, c) { assert ClaimSigned(env, session, c, "", ""); }
    forall s: Statement ensures CanSignHead(env, s) { assert env.verifies("", s, ""); }
  }

  /** One list of a given length has one tree hash of its own. */
  lemma {:induction false} MthFixesList(h: Hasher, a: seq<Bytes>, b: seq<Bytes>)
    requires NodeInjective(h) && LeafInjective(h) && |a| == |b| && Mth(h, a) == Mth(h, b)
    ensures a == b
    decreases |a|
  {
    if |a| == 1 {
      assert a == [a[0]] && b == [b[0]];
    } else if |a| > 1 {
      var k := Split(|a|);
      MthSplits(h, a);
      MthSplits(h, b);
      hide Mth, LeafInjective, Split;
      MthFixesList(h, a[..k], b[..k]);
      MthFixesList(h, a[k..], b[k..]);
      assert a == a[..k] + a[k..] && b == b[..k] + b[k..];
    }
  }

  /** The answers of an exchange that serves the messages `d` and signs the anchor `f`
      of them, to a sender that asks for a proof from the anchored size `m`. */
  function Serving(h: Hasher, m: nat, d: seq<Bytes>, f: Facts, page: ClaimsPage, key: string,
                   signature: string): Answers
    requires m <= |d|
  {
    var proof := Proof(h, m, d);
    var path := seq(|proof|, i requires 0 <= i < |proof| => Some(proof[i]));
    Answers(Some(page), since => Some(page), Some(SignedTreeHead(f.session, 0, |d|, Some(f.root), key, signature)),
            (first, second) => Some(ConsistencyProof(m, |d|, path)))
  }

  lemma ServedProofShows(env: Env, onChain: AnchorState, a: Answers, d: seq<Bytes>, f: Facts, page: ClaimsPage,
                         key: string, signature: string)
    requires onChain.treeSize <= |d| && Anchors(env.h, f, d) && onChain.root == Mth(env.h, d[..onChain.treeSize])
    requires a == Serving(env.h, onChain.treeSize, d, f, page, key, signature)
    ensures ProofShows(env, onChain, a, f)
  {
    Completeness(env.h, onChain.treeSize, d);
    hide Mth, Proof, Accepts;
    assert Values(a.proof(onChain.treeSize, f.treeSize).value.path) == Proof(env.h, onChain.treeSize, d);
  }

  lemma ServedClaimBacks(env: Env, a: Answers, f: Facts, claim: Claim, key: string)
    requires a.envelope == Some(ClaimsPage(f.session, f.lastId, key, "", [claim]))
    requires forall since :: a.page(since) == a.envelope
    requires claim.toMsg == f.lastId && claim.rootAfter == Some(f.stateRoot)
    requires env.verifies(key, ClaimStatement(f.session, claim), claim.signature)
    ensures ClaimBacks(env, a, f)
  {
    assert FirstClaimAt(a.page(Since(f.lastId)).value.claims, f.lastId, 0);
  }

  lemma SignedClaim(env: Env, session: string, c: Claim) returns (key: string, signature: string)
    requires CanSign(env)
    ensures ClaimSigned(env, session, c, key, signature)
  {
    assert CanSignClaim(env, session, c);
    key, signature :| ClaimSigned(env, session, c, key, signature);
  }

  lemma SignedHead(env: Env, s: Statement) returns (key: string, signature: string)
    requires CanSign(env) && s.TreeHeadStatement?
    ensures env.verifies(key, s, signature)
  {
    assert CanSignHead(env, s);
    key, signature :| env.verifies(key, s, signature);
  }

  /** An exchange serving the messages `d` makes a tick send an anchor of `d`, from
      any record whose newest anchor is of a shorter prefix. */
  lemma ServingSends(env: Env, log: seq<Facts>, d: seq<Bytes>, f: Facts) returns (a: Answers)
    requires CanSign(env) && Placed(f) && Anchors(env.h, f, d)
    requires log != [] ==>
               var last := log[|log| - 1];
               && last.session == f.session && last.lastId <= f.lastId && last.treeSize < |d|
               && Anchors(env.h, last, d[..last.treeSize])
    ensures Sends(env, Held(log), a, f)
  {
    hide CanSign, Mth, Proof, Accepts, ClaimBacks, ProofShows, IsSessionHex;
    var claim := Claim(1, f.lastId, "", Some(f.stateRoot), 0, "");
    var ck, cs := SignedClaim(env, f.session, claim);
    var hk, hs := SignedHead(env, TreeHeadStatement(f.session, 0, |d|, f.root));
    var page := ClaimsPage(f.session, f.lastId, ck, "", [claim.(signature := cs)]);
    var onChain := Held(log);
    a := Serving(env.h, onChain.treeSize, d, f, page, hk, hs);
    ServedClaimBacks(env, a, f, claim.(signature := cs), ck);
    if log != [] { ServedProofShows(env, onChain, a, d, f, page, hk, hs); }
  }

  /** Another list with the same first `m` messages, one longer, that `e` is not a
      prefix of. */
  function Forked(e: seq<Bytes>, m: nat): (d: seq<Bytes>)
    requires m < |e|
    ensures |d| == |e| + 1 && d[..m] == e[..m] && d[..|e|] != e
  {
    var d := e[..m] + [e[m] + "x"] + e[m + 1..] + ["x"];
    assert d[m] == e[m] + "x" && d[..|e|][m] == d[m];
    d
  }

  lemma {:induction false} DeliverAppend(log: seq<Facts>, fs: seq<Facts>, f: Facts)
    ensures Deliver(log, fs + [f]) == Write(Deliver(log, fs), f)
    decreases |fs|
  {
    if fs == [] {
      assert [] + [f] == [f];
    } else {
      assert (fs + [f])[1..] == fs[1..] + [f];
      DeliverAppend(Write(log, fs[0]), fs[1..], f);
    }
  }

  /** The record and what is outstanding, all of it acceptable, ending in an anchor of
      the list `e`. */
  ghost predicate Pending(h: Hasher, w: World, e: seq<Bytes>) {
    var all := w.log + w.outstanding;
    && Delivered(w) == all && Checked(h, all)
    && (all != [] ==> Anchors(h, all[|all| - 1], e))
  }

  /** A tick that starts while any transaction is outstanding can be made to fork the
      record, from every such record of tree hashes. */
  lemma PendingTickForks(env: Env, w: World, e: seq<Bytes>) returns (w': World, a: Answers, f: Facts)
    requires CanSign(env) && NodeInjective(env.h) && LeafInjective(env.h)
    requires Pending(env.h, w, e) && w.outstanding != []
    ensures TickSends(env, w, w', a, f) && !Checked(env.h, Delivered(w'))
    ensures w' == World(w.log, w.outstanding + [f])
  {
    hide Mth, Accepts, IsSessionHex, CanSign, NodeInjective, LeafInjective;
    var all := w.log + w.outstanding;
    var last := all[|all| - 1];
    var m := Held(w.log).treeSize;
    assert Placed(last) && e != [];
    if w.log != [] {
      var n := |w.log| - 1;
      assert all[n] == w.log[n];
      RecordRises(env.h, all, n, |all| - 1);
      EarlierAnchorsArePrefixes(env.h, all, n, |all| - 1, e);
    }
    var d := Forked(e, m);
    f := Facts(last.session, |d|, Mth(env.h, d), last.lastId, Zero);
    assert |d| == |e| + 1;
    a := ServingSends(env, w.log, d, f);
    w' := World(w.log, w.outstanding + [f]);
    DeliverAppend(w.log, w.outstanding, f);
    assert Delivered(w') == all + [f] by { assert Rules(Held(all), f); }
    ForkedIsNotChecked(env.h, all, e, d, f);
  }

  lemma ForkedIsNotChecked(h: Hasher, all: seq<Facts>, e: seq<Bytes>, d: seq<Bytes>, f: Facts)
    requires NodeInjective(h) && LeafInjective(h) && all != []
    requires Anchors(h, all[|all| - 1], e) && Anchors(h, f, d) && |e| <= |d| && d[..|e|] != e
    ensures !Checked(h, all + [f])
  {
    hide Mth, NodeInjective, LeafInjective, Placed;
    if Checked(h, all + [f]) {
      var next := all + [f];
      assert Follows(h, next[|all| - 1], next[|all|]);
      FollowsIsPrefix(h, all[|all| - 1], f, d);
      MthFixesList(h, d[..|e|], e);
    }
  }

  /** The exact condition, checked before a tick: over records of tree hashes, every
      tick is safe against every exchange if and only if nothing is outstanding. */
  lemma TickIsSafeIffNothingOutstanding(env: Env, w: World, e: seq<Bytes>)
    requires CanSign(env) && NodeInjective(env.h) && LeafInjective(env.h) && Pending(env.h, w, e)
    ensures (forall w', a, f | TickSends(env, w, w', a, f) :: Checked(env.h, Delivered(w'))) <==> w.outstanding == []
  {
    hide CanSign, NodeInjective, LeafInjective, Checked, Sends, Anchors;
    if w.outstanding == [] {
      assert w.log + [] == w.log;
      forall w', a, f | TickSends(env, w, w', a, f) ensures Checked(env.h, Delivered(w')) {
        SentFollows(env, w.log, a, f);
        assert w.outstanding + [f] == [f];
        assert Deliver(w.log, [f]) == Deliver(Write(w.log, f), []);
      }
    } else {
      var w', a, f := PendingTickForks(env, w, e);
      assert TickSends(env, w, w', a, f);
    }
  }

  /** Any run that stands at such a record goes on to one that forks, in one tick. */
  lemma PendingRunForks(env: Env, trace: seq<World>, e: seq<Bytes>) returns (w': World)
    requires CanSign(env) && NodeInjective(env.h) && LeafInjective(env.h) && IsRun(env, trace)
    requires Pending(env.h, trace[|trace| - 1], e) && trace[|trace| - 1].outstanding != []
    ensures IsRun(env, trace + [w']) && !OneAtATime(trace + [w']) && !Checked(env.h, Delivered(w'))
  {
    hide CanSign, NodeInjective, LeafInjective, Checked, Sends, Anchors;
    var w := trace[|trace| - 1];
    var a, f;
    w', a, f := PendingTickForks(env, w, e);
    var more := trace + [w'];
    assert TickStep(env, w, w');
    forall i | 0 < i < |more| ensures QuietStep(more[i - 1], more[i]) || TickStep(env, more[i - 1], more[i]) {
      if i < |trace| { assert more[i - 1] == trace[i - 1] && more[i] == trace[i]; }
    }
    if OneAtATime(more) {
      assert QuietStep(more[|trace| - 1], more[|trace|]);
      QuietNeverGrows(w, w');
    }
  }

  lemma QuietNeverGrows(w: World, w': World)
    requires QuietStep(w, w')
    ensures |w'.log| + |w'.outstanding| <= |w.log| + |w.outstanding|
  {}

  const SESSION := "0123456789abcdef"

  function AnchorOf(h: Hasher, d: seq<Bytes>): Facts {
    Facts(SESSION, |d|, Mth(h, d), 1, Zero)
  }

  /** Such runs exist: for every list and every longer one, a run anchors the first and
      leaves an anchor of the second outstanding. */
  lemma PendingRunExists(env: Env, d: seq<Bytes>, e: seq<Bytes>) returns (trace: seq<World>)
    requires CanSign(env) && d != [] && d < e
    ensures IsRun(env, trace) && OneAtATime(trace)
    ensures trace[|trace| - 1] == World([AnchorOf(env.h, d)], [AnchorOf(env.h, e)])
    ensures Pending(env.h, trace[|trace| - 1], e)
  {
    hide Mth, CanSign, Sends;
    var f, g := AnchorOf(env.h, d), AnchorOf(env.h, e);
    var a := ServingSends(env, [], d, f);
    assert e[..|d|] == d;
    var b := ServingSends(env, [f], e, g);
    var w0, w1, w2 := World([], []), World([f], []), World([f], [g]);
    assert [] + [f] == [f] && Deliver([], [f]) == Deliver([f], []);
    assert TickSends(env, w0, w1, a, f);
    assert [] + [g] == [g];
    assert TickSends(env, w1, w2, b, g);
    trace := [w0, w1, w2];
    assert TickStep(env, w0, w1) && TickStep(env, w1, w2);
    RunsStaySound(env, trace);
    assert [f] + [g] == [f, g];
  }
}
