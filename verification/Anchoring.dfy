/** The anchor contract and the sender that writes to it, against an exchange
    whose answers are arbitrary. */
module Anchoring {
  import opened Common
  import opened Rfc9162
  import opened Consistency

  // ---------------------------------------------------------------------------
  // The contract
  // ---------------------------------------------------------------------------

  /** What one anchor commits to. A `bytes8` session is its 16 hex characters. */
  datatype Facts = Facts(session: string, treeSize: nat, root: Digest, lastId: nat, stateRoot: Digest)

  /** What `latest()` returns, the block time aside. */
  datatype AnchorState = AnchorState(
    treeSize: nat, lastId: nat, session: string, root: Digest, stateRoot: Digest, count: nat)
  {
    predicate Empty() { count == 0 }
  }

  const NO_SESSION := "0000000000000000"

  /** The four rules of the contract: one session, sizes and cursors that only move
      forward, and no cursor outside its tree. */
  predicate Rules(held: AnchorState, f: Facts) {
    && f.session != NO_SESSION
    && (held.session != NO_SESSION ==> f.session == held.session)
    && held.treeSize < f.treeSize
    && held.lastId <= f.lastId <= f.treeSize
  }

  /** What the contract holds after a list of anchors. */
  function Held(log: seq<Facts>): AnchorState {
    if log == [] then AnchorState(0, 0, NO_SESSION, Zero, Zero, 0)
    else
      var f := log[|log| - 1];
      AnchorState(f.treeSize, f.lastId, f.session, f.root, f.stateRoot, |log|)
  }

  /** One transaction against the contract: recorded, or reverted. */
  function Write(log: seq<Facts>, f: Facts): seq<Facts> {
    if Rules(Held(log), f) then log + [f] else log
  }

  class RootAnchor {
    const writer: string
    var treeSize: nat
    var lastId: nat
    var session: string
    var rootHash: Digest
    var stateRoot: Digest
    var anchoredAt: nat
    var count: nat
    /** The `AnchoredRoot` events, oldest first. */
    ghost var log: seq<Facts>

    ghost predicate Valid()
      reads this
    {
      Latest() == Held(log) && (log != [] ==> session != NO_SESSION)
    }

    constructor (sender: string)
      ensures Valid() && log == [] && writer == sender
    {
      writer, anchoredAt := sender, 0;
      treeSize, lastId, session, rootHash, stateRoot, count := 0, 0, NO_SESSION, Zero, Zero, 0;
      log := [];
    }

    function Latest(): AnchorState
      reads this
    {
      AnchorState(treeSize, lastId, session, rootHash, stateRoot, count)
    }

    /** `anchor`, called by `sender` in a block of time `now`. A revert changes nothing. */
    method Anchor(sender: string, now: nat, f: Facts) returns (r: Result<nat>)
      requires Valid()
      modifies this
      ensures Valid()
      ensures r.Ok? <==> sender == writer && Rules(Held(old(log)), f)
      ensures r.Ok? ==> r.value == |log| && log == old(log) + [f] && anchoredAt == now
      ensures r.Err? ==> unchanged(this)
    {
      if sender != writer { return Err("NotWriter"); }
      if f.session == NO_SESSION { return Err("NoSession"); }
      if session != NO_SESSION && f.session != session { return Err("SessionChanged"); }
      if f.treeSize <= treeSize { return Err("NotNewer"); }
      if f.lastId > f.treeSize { return Err("CursorOutsideTree"); }
      if f.lastId < lastId { return Err("CursorWentBack"); }
      session := f.session;
      treeSize, lastId, rootHash, stateRoot := f.treeSize, f.lastId, f.root, f.stateRoot;
      anchoredAt := now;
      count := count + 1;
      log := log + [f];
      return Ok(count);
    }
  }

  // ---------------------------------------------------------------------------
  // What the exchange serves
  // ---------------------------------------------------------------------------

  /** A claim. `rootAfter` is None where the served text is not 32 hex bytes. */
  datatype Claim = Claim(fromMsg: nat, toMsg: nat, rootBefore: string, rootAfter: Option<Digest>,
                         tradesTotal: nat, signature: string)

  datatype ClaimsPage = ClaimsPage(session: string, cursor: nat, matcherKey: string, feedKey: string,
                                   claims: seq<Claim>)

  datatype SignedTreeHead = SignedTreeHead(session: string, timestamp: nat, treeSize: nat,
                                           root: Option<Digest>, publicKey: string, signature: string)

  datatype ConsistencyProof = ConsistencyProof(first: nat, second: nat, path: seq<Option<Digest>>)

  /** One tick's answers, chosen freely by whoever serves them. None is a request
      that failed. */
  datatype Answers = Answers(
    envelope: Option<ClaimsPage>,
    page: nat -> Option<ClaimsPage>,
    head: Option<SignedTreeHead>,
    proof: (nat, nat) -> Option<ConsistencyProof>)

  datatype Statement =
    | ClaimStatement(session: string, claim: Claim)
    | TreeHeadStatement(session: string, timestamp: nat, treeSize: nat, root: Digest)

  /** The hash functions and the signature check of this deployment. */
  datatype Env = Env(h: Hasher, verifies: (string, Statement, string) -> bool)

  const PAGE_LIMIT := 1000

  function Since(cursor: nat): nat {
    if cursor > PAGE_LIMIT then cursor - PAGE_LIMIT else 0
  }

  predicate IsSessionHex(s: string) {
    |s| == 16 && forall i | 0 <= i < |s| :: '0' <= s[i] <= '9' || 'a' <= s[i] <= 'f'
  }

  // ---------------------------------------------------------------------------
  // What a collected tuple rests on
  // ---------------------------------------------------------------------------

  /** The claim at `i` is the first one that ends at the cursor. */
  ghost predicate FirstClaimAt(claims: seq<Claim>, cursor: nat, i: nat) {
    && i < |claims| && claims[i].toMsg == cursor
    && forall j | 0 <= j < i :: claims[j].toMsg != cursor
  }

  /** The state root is one the matcher signed at its own cursor. */
  ghost predicate ClaimBacks(env: Env, a: Answers, f: Facts) {
    && a.envelope.Some?
    && var e := a.envelope.value;
    && e.session == f.session && e.cursor == f.lastId
    && a.page(Since(e.cursor)).Some?
    && var claims := a.page(Since(e.cursor)).value.claims;
    && exists i: nat ::
         && FirstClaimAt(claims, e.cursor, i)
         && env.verifies(e.matcherKey, ClaimStatement(f.session, claims[i]), claims[i].signature)
         && claims[i].rootAfter == Some(f.stateRoot)
  }

  /** The root is one the feed signed at this size, under the key this run pinned. */
  ghost predicate HeadBacks(env: Env, a: Answers, f: Facts) {
    && a.envelope.Some? && a.head.Some?
    && var sth := a.head.value;
    && sth.session == f.session && sth.treeSize == f.treeSize && sth.root == Some(f.root)
    && (a.envelope.value.feedKey != "" ==> sth.publicKey == a.envelope.value.feedKey)
    && env.verifies(sth.publicKey, TreeHeadStatement(f.session, sth.timestamp, f.treeSize, f.root), sth.signature)
  }

  /** The values on chain and the new head do not contradict each other. */
  predicate Agrees(onChain: AnchorState, f: Facts) {
    && f.session == onChain.session
    && onChain.treeSize <= f.treeSize
    && (onChain.treeSize == f.treeSize ==> onChain.root == f.root)
    && onChain.lastId <= f.lastId
  }

  /** The served proof shows the anchored tree is a prefix of the new one. */
  ghost predicate ProofShows(env: Env, onChain: AnchorState, a: Answers, f: Facts) {
    && a.proof(onChain.treeSize, f.treeSize).Some?
    && var p := a.proof(onChain.treeSize, f.treeSize).value;
    && p.first == onChain.treeSize && p.second == f.treeSize && Decoded(p.path)
    && Accepts(env.h, onChain.treeSize, f.treeSize, onChain.root, f.root, Values(p.path))
  }

  /** Everything `Collect` establishes before it returns a tuple. */
  ghost predicate Coherent(env: Env, onChain: AnchorState, a: Answers, f: Facts) {
    && IsSessionHex(f.session) && f.session != NO_SESSION
    && 0 < f.lastId <= f.treeSize
    && ClaimBacks(env, a, f)
    && HeadBacks(env, a, f)
    && (!onChain.Empty() ==>
          && Agrees(onChain, f)
          && (onChain.treeSize < f.treeSize ==> ProofShows(env, onChain, a, f)))
  }

  // ---------------------------------------------------------------------------
  // The sender
  // ---------------------------------------------------------------------------

  /** `treeHead`. */
  method TreeHead(env: Env, session: string, pinnedKey: string, served: Option<SignedTreeHead>)
    returns (r: Result<SignedTreeHead>)
    ensures r.Ok? <==>
            && served.Some? && served.value.session == session && served.value.root.Some?
            && (pinnedKey != "" ==> served.value.publicKey == pinnedKey)
            && env.verifies(served.value.publicKey,
                            TreeHeadStatement(session, served.value.timestamp, served.value.treeSize,
                                              served.value.root.value), served.value.signature)
    ensures r.Ok? ==> r.value == served.value
  {
    if served.None? { return Err("no tree head"); }
    var sth := served.value;
    if sth.session != session { return Err("two different histories"); }
    if pinnedKey != "" && sth.publicKey != pinnedKey { return Err("not the pinned feed key"); }
    if sth.root.None? { return Err("the root is not 32 hex bytes"); }
    if !env.verifies(sth.publicKey, TreeHeadStatement(sth.session, sth.timestamp, sth.treeSize, sth.root.value),
                     sth.signature) {
      return Err("the tree head does not verify");
    }
    return Ok(sth);
  }

  /** `extends`. */
  method Extends(env: Env, onChain: AnchorState, a: Answers, f: Facts) returns (r: Result<()>)
    ensures r.Ok? <==> ProofShows(env, onChain, a, f)
    ensures r.Ok? ==>
              var served := a.proof(onChain.treeSize, f.treeSize);
              served.Some? && served.value.first == onChain.treeSize && served.value.second == f.treeSize
  {
    var answer := a.proof(onChain.treeSize, f.treeSize);
    if answer.None? { return Err("no proof"); }
    var proof := answer.value;
    if proof.first != onChain.treeSize || proof.second != f.treeSize { return Err("another proof"); }
    var path: seq<Digest> := [];
    for i := 0 to |proof.path|
      invariant |path| == i && forall j | 0 <= j < i :: proof.path[j] == Some(path[j])
    {
      if proof.path[i].None? { return Err("a node is not 32 hex bytes"); }
      path := path + [proof.path[i].value];
    }
    assert path == Values(proof.path);
    var shown := VerifyConsistency(env.h, onChain.treeSize, f.treeSize, onChain.root, f.root, path);
    if !shown { return Err("not a prefix"); }
    return Ok(());
  }

  /** `checkAgainstChain`. */
  function CheckAgainstChain(onChain: AnchorState, f: Facts): (r: Result<()>)
    ensures r.Ok? <==> Agrees(onChain, f)
  {
    if f.session != onChain.session then Err("the history was replaced")
    else if f.treeSize < onChain.treeSize then Err("the log lost entries")
    else if f.treeSize == onChain.treeSize && f.root != onChain.root then Err("the entries were rewritten")
    else if f.lastId < onChain.lastId then Err("the execution was rewound")
    else Ok(())
  }

  /** `Collect`: the one coherent tuple, or an error where there is none. */
  method Collect(env: Env, onChain: AnchorState, a: Answers) returns (r: Result<Facts>)
    ensures forall f :: Coherent(env, onChain, a, f) <==> r == Ok(f)
    ensures r.Ok? ==> |r.value.session| == 16 && r.value.session != "0000000000000000"
    ensures r.Ok? ==> forall c | c in r.value.session :: '0' <= c <= '9' || 'a' <= c <= 'f'
    ensures r.Ok? ==> 0 < r.value.lastId <= r.value.treeSize
    // Nothing collected contradicts what is anchored.
    ensures r.Ok? && onChain.count > 0 ==>
              && r.value.session == onChain.session && onChain.lastId <= r.value.lastId
              && (r.value.treeSize > onChain.treeSize
                  || (r.value.treeSize == onChain.treeSize && r.value.root == onChain.root))
  {
    if a.envelope.None? { return Err("cannot reach the matcher"); }
    var envelope := a.envelope.value;
    var session, cursor := envelope.session, envelope.cursor;
    if !IsSessionHex(session) { return Err("skip: no feed session"); }
    if session == NO_SESSION { return Err("the session is all zeroes"); }
    if cursor == 0 { return Err("skip: no committed messages"); }
    var page := a.page(Since(cursor));
    if page.None? { return Err("cannot reach the matcher"); }
    var claims := page.value.claims;
    var i := 0;
    while i < |claims| && claims[i].toMsg != cursor
      invariant 0 <= i <= |claims|
      invariant forall j | 0 <= j < i :: claims[j].toMsg != cursor
    {
      i := i + 1;
    }
    if i == |claims| { return Err("no claim at the cursor"); }
    assert FirstClaimAt(claims, cursor, i);
    var claim := claims[i];
    if !env.verifies(envelope.matcherKey, ClaimStatement(session, claim), claim.signature) {
      return Err("the claim does not verify");
    }
    if claim.rootAfter.None? { return Err("the state root is not 32 hex bytes"); }
    var head := TreeHead(env, session, envelope.feedKey, a.head);
    if head.Err? { return Err(head.reason); }
    var sth := head.value;
    var f := Facts(session, sth.treeSize, sth.root.value, cursor, claim.rootAfter.value);
    if sth.treeSize < cursor { return Err("the state root stands outside the tree"); }
    if !onChain.Empty() {
      var agrees := CheckAgainstChain(onChain, f);
      if agrees.Err? { return Err(agrees.reason); }
      if sth.treeSize > onChain.treeSize {
        var shown := Extends(env, onChain, a, f);
        if shown.Err? { return Err(shown.reason); }
      }
    }
    return Ok(f);
  }

  // ---------------------------------------------------------------------------
  // One tick
  // ---------------------------------------------------------------------------

  /** What a tick sends when the contract holds `onChain`. */
  ghost predicate Sends(env: Env, onChain: AnchorState, a: Answers, f: Facts) {
    Coherent(env, onChain, a, f) && onChain.treeSize < f.treeSize
  }

  /** What becomes of one transaction: never sent, mined while the sender waits, or
      still outstanding when it gives up waiting. */
  datatype Landing = NotSent | Mined | Outstanding

  /** `tick`: read, check, skip or send. The contract accepts what is sent. */
  method Tick(env: Env, c: RootAnchor, a: Answers, landing: Landing, now: nat) returns (sent: Option<Facts>)
    requires c.Valid()
    modifies c
    ensures c.Valid()
    ensures landing != NotSent ==> forall f :: Sends(env, Held(old(c.log)), a, f) <==> sent == Some(f)
    ensures landing == NotSent ==> sent == None
    ensures c.log == if sent.Some? && landing == Mined then old(c.log) + [sent.value] else old(c.log)
  {
    var onChain := c.Latest();
    var collected := Collect(env, onChain, a);
    if collected.Err? { return None; }
    var f := collected.value;
    if f.treeSize <= onChain.treeSize { return None; }
    if landing == NotSent { return None; }
    if landing == Mined {
      var receipt := c.Anchor(c.writer, now, f);
    }
    return Some(f);
  }
}
