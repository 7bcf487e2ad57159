/** The auditor's two checks of one anchored root: by folding the served messages,
    and by a consistency proof against the head the feed signs now. */
module Auditor {
  import opened Common
  import opened Rfc9162
  import opened Consistency
  import opened NodeStore

  datatype AnchorRecord = AnchorRecord(index: nat, session: string, treeSize: nat, root: Digest)

  datatype TreeHead = TreeHead(session: string, treeSize: nat, root: Digest)

  /** What `GET /proof/consistency` serves; a node is None where it is not 32 hex bytes. */
  datatype ServedProof = ServedProof(first: nat, second: nat, path: seq<Option<Digest>>)

  /** The root over the served messages at one size; None past their end. */
  datatype FoldedRoot = FoldedRoot(root: Option<Digest>, served: nat)

  datatype RootCheck = Holds | Fails | NotChecked

  /** `FoldedRoot::of`. */
  function Folded(h: Hasher, nodes: Nodes, served: nat, size: nat): FoldedRoot {
    FoldedRoot(if size <= served then Root(h, nodes, size) else None, served)
  }

  function CheckRootByFolding(anchor: AnchorRecord, ours: FoldedRoot): RootCheck {
    match ours.root
    case Some(root) => if root == anchor.root then Holds else Fails
    case None => Fails
  }

  /** The three answers the two sizes and sessions settle alone; None where a proof
      is needed. */
  function ConsistencyVerdict(anchor: AnchorRecord, head: TreeHead): Option<RootCheck> {
    if head.session != anchor.session then Some(Fails)
    else if head.treeSize < anchor.treeSize then Some(Fails)
    else if head.treeSize == anchor.treeSize then Some(if head.root == anchor.root then Holds else Fails)
    else None
  }

  function CheckConsistencyPath(h: Hasher, anchor: AnchorRecord, head: TreeHead, path: seq<Digest>): RootCheck {
    if Accepts(h, anchor.treeSize, head.treeSize, anchor.root, head.root, path) then Holds else Fails
  }

  /** `check_root_by_consistency`, with the feed's answer as an argument. */
  function CheckRootByConsistency(h: Hasher, anchor: AnchorRecord, head: TreeHead,
                                  answer: Option<ServedProof>): RootCheck {
    match ConsistencyVerdict(anchor, head)
    case Some(verdict) => verdict
    case None =>
      match answer
      case None => NotChecked
      case Some(proof) =>
        if proof.first != anchor.treeSize || proof.second != head.treeSize then NotChecked
        else if !Decoded(proof.path) then NotChecked
        else CheckConsistencyPath(h, anchor, head, Values(proof.path))
  }

  /** The proof an honest feed serves over the messages `d`. */
  function HonestAnswer(h: Hasher, d: seq<Bytes>, first: nat): Option<ServedProof> {
    if first > |d| then None
    else
      var proof := Proof(h, first, d);
      Some(ServedProof(first, |d|, seq(|proof|, i requires 0 <= i < |proof| => Some(proof[i]))))
  }

  /** The head is the signed tree hash of the served messages. */
  ghost predicate HeadOver(h: Hasher, head: TreeHead, d: seq<Bytes>) {
    head.treeSize == |d| && head.root == Mth(h, d)
  }

  /** Folding decides whether the anchor holds the tree hash of the served prefix. */
  lemma FoldingDecides(h: Hasher, nodes: Nodes, d: seq<Bytes>, anchor: AnchorRecord)
    requires Faithful(h, nodes, d)
    ensures CheckRootByFolding(anchor, Folded(h, nodes, |d|, anchor.treeSize))
            == if anchor.treeSize <= |d| && anchor.root == Mth(h, d[..anchor.treeSize]) then Holds else Fails
  {
    if anchor.treeSize <= |d| { FaithfulRoot(h, nodes, d, anchor.treeSize); }
  }

  /** The answer a check needs and did not get: none, one for other sizes, or a path
      with a node that is not 32 hex bytes. */
  predicate Unusable(anchor: AnchorRecord, head: TreeHead, answer: Option<ServedProof>) {
    || answer.None?
    || answer.value.first != anchor.treeSize || answer.value.second != head.treeSize
    || exists i | 0 <= i < |answer.value.path| :: answer.value.path[i].None?
  }

  /** For any hash, head and answer: another session or a shrunken log fails, and the
      check is left open exactly where a proof is needed and no usable one is served. */
  lemma OpenIffUnusable(h: Hasher, anchor: AnchorRecord, head: TreeHead, answer: Option<ServedProof>)
    ensures head.session != anchor.session ==> CheckRootByConsistency(h, anchor, head, answer) == Fails
    ensures head.treeSize < anchor.treeSize ==> CheckRootByConsistency(h, anchor, head, answer) == Fails
    ensures CheckRootByConsistency(h, anchor, head, answer) == NotChecked
            <==> head.session == anchor.session && anchor.treeSize < head.treeSize && Unusable(anchor, head, answer)
  {
    hide Accepts;
  }

  /** The whole decision against a true head, whatever is served: Holds for the tree
      hash of the served prefix under one session, and below the head's own size only
      with the one honest proof; open as above; Fails for everything else. */
  lemma ConsistencyDecides(h: Hasher, d: seq<Bytes>, anchor: AnchorRecord, head: TreeHead,
                           answer: Option<ServedProof>)
    requires NodeInjective(h) && HeadOver(h, head, d)
    ensures CheckRootByConsistency(h, anchor, head, answer) == Holds
            <==> head.session == anchor.session
                 && anchor.treeSize <= |d| && anchor.root == Mth(h, d[..anchor.treeSize])
                 && (anchor.treeSize < |d| ==> answer == HonestAnswer(h, d, anchor.treeSize))
  {
    hide Mth, Accepts, Proof;
    if anchor.treeSize < |d| {
      if answer.Some? && Decoded(answer.value.path) {
        Soundness(h, anchor.treeSize, d, anchor.root, Values(answer.value.path));
        DecodedIs(answer.value.path, Proof(h, anchor.treeSize, d));
      }
    } else if anchor.treeSize == |d| {
      assert d[..|d|] == d;
    }
  }

  lemma DecodedIs(path: seq<Option<Digest>>, honest: seq<Digest>)
    requires Decoded(path)
    ensures Values(path) == honest
            <==> path == seq(|honest|, i requires 0 <= i < |honest| => Some(honest[i]))
  {
    if Values(path) == honest {
      assert forall i | 0 <= i < |path| :: path[i] == Some(Values(path)[i]);
    } else if |path| == |honest| {
      var i :| 0 <= i < |path| && Values(path)[i] != honest[i];
    }
  }

  /** Whatever proof the feed serves, Holds by consistency is Holds by folding, under
      the session the anchor names. */
  lemma ConsistencyImpliesFolding(h: Hasher, nodes: Nodes, d: seq<Bytes>, anchor: AnchorRecord, head: TreeHead,
                                  answer: Option<ServedProof>)
    requires NodeInjective(h) && Faithful(h, nodes, d) && HeadOver(h, head, d)
    requires CheckRootByConsistency(h, anchor, head, answer) == Holds
    ensures head.session == anchor.session
    ensures CheckRootByFolding(anchor, Folded(h, nodes, |d|, anchor.treeSize)) == Holds
  {
    FoldingDecides(h, nodes, d, anchor);
    hide Mth, Accepts, Proof, Faithful, Folded;
    ConsistencyDecides(h, d, anchor, head, answer);
  }

  /** With the honest prover's path the two checks give one verdict, for every
      anchored size: smaller, equal, past the end, and zero. */
  lemma ChecksAgree(h: Hasher, nodes: Nodes, d: seq<Bytes>, anchor: AnchorRecord, head: TreeHead)
    requires NodeInjective(h) && Faithful(h, nodes, d) && HeadOver(h, head, d) && head.session == anchor.session
    ensures CheckRootByConsistency(h, anchor, head, HonestAnswer(h, d, anchor.treeSize))
            == CheckRootByFolding(anchor, Folded(h, nodes, |d|, anchor.treeSize))
  {
    FoldingDecides(h, nodes, d, anchor);
    hide Mth, Accepts, Proof, Faithful, Folded;
    if anchor.treeSize < |d| {
      Soundness(h, anchor.treeSize, d, anchor.root, Proof(h, anchor.treeSize, d));
      assert Values(HonestAnswer(h, d, anchor.treeSize).value.path) == Proof(h, anchor.treeSize, d);
    } else if anchor.treeSize == |d| {
      assert d[..|d|] == d;
    }
  }
}
