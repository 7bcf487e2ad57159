# Verification model

A Dafny model of the parts of this exchange that have to be right for anyone to
check it: the Merkle consistency proof and the anchors built on it, the funded
spot ledger, the sequencer's durable log, and the bot's exposure cap.
`dafny verify dfyconfig.toml` checks everything.

Hash functions are a value (`Rfc9162.Hasher`). Nothing is assumed about them
except where a theorem says `NodeInjective`, `LeafInjective` or `LinkInjective`,
the collision hypotheses, and `CollisionFreeHashingExists` shows that all three
can be met together.
Signatures are a `sign` and a `verify` function; where a theorem needs that
nobody forged one it says so (`Unforged`, over the signatures in one file).

| file | models |
|---|---|
| Common.dfy | option, result, integer widths |
| Rfc9162.dfy | tree hash and prover of RFC 9162 |
| Consistency.dfy | the verifier as loops, its soundness and completeness |
| NodeStore.dfy, TreeEdge.dfy, TreeRoom.dfy, ServedProofs.dfy | the stored tree, its root, the right edge, where appends fail, and the proofs read from it |
| Anchoring.dfy, AnchorRuns.dfy | the anchor contract, the sender, and whole runs of the two |
| HonestExchange.dfy | what the sender does with an exchange that keeps the rules, and with keys no one else holds |
| Auditor.dfy, RootFold.dfy, LogScan.dfy | the auditor's two checks, its one-pass tree, and its scan of the event log |
| Sums.dfy, Orders.dfy | sums over sets, sorting |
| LedgerModel.dfy, LedgerProofs.dfy, LedgerRuns.dfy, FundingBound.dfy | the ledger's rules, its invariant, runs, and the funding bound |
| LedgerTerms.dfy | which reserves, fills and configurations are taken, said of orders and balances |
| FundedLedger.dfy | the ledger updated in place |
| LedgerChecks.dfy, LedgerSnapshots.dfy, OrderFlows.dfy | the checkers, recovery, and where each order's units go |
| FeedModel.dfy | what is on disk and in memory, as functions of the log |
| FeedStartup.dfy, FeedRecovery.dfy | opening any database, and what an accepted one proves |
| Retention.dfy, Publishing.dfy, FeedPages.dfy, FeedState.dfy | budgets, the transaction, pages, and the sequencer itself |
| FeedLives.dfy | its writers, and whole lives over lost numbers, crashes and restarts |
| IntakeRules.dfy | who gets into the log: orders, ticks, first keys and whole pages |
| TreeHeads.dfy | the clock of the signed tree heads |
| BotExposure.dfy, BotDecisions.dfy, BotPrices.dfy | what the bot has committed, what it decides, and what that means in prices |
| BotRuns.dfy, TradingBot.dfy | whole runs under the cap, and the bot updated in place |

## What the proofs found

- A record of anchors can fork if a tick starts while an earlier transaction is
  still outstanding. `anchor/contract.go:250-277` gives up waiting after a
  timeout and the next tick starts from the same on-chain anchor; the contract's
  four rules do not compare roots. Nothing outstanding when a tick starts is the
  exact condition (`TickIsSafeIffNothingOutstanding`): without it every such
  record can be forked in one tick (`PendingRunForks`), such records exist
  (`PendingRunExists`, `SigningExchangeExists`), and with it every run is safe
  (`RunsStaySound`), also one that lost a transaction on the way.
- A ledger funded past an i64 in one asset can refuse a fill that passes every
  guard (`CreditsCanOverflow`). Funding that fits rules it out
  (`NoSpuriousFailure`).
- The startup check of the stored tree sees the right edge of the tree and
  nothing else (`RewrittenNodeDecided`). A node below the edge can be rewritten
  and the start accepts it. Exactly the consistency proofs that read that node
  are then refused (`RewrittenNodeSpoilsProofs`). Every root the feed signs is
  still right, also after any number of later appends (`GrowKeepsEdge`).
- The inbox pairings and the pinned account keys are covered by no signature and
  by no message. A start takes both from their tables as they are, and refuses
  only too many of them or a key it cannot read (`PairingsAndPinsAreUnsigned`).
- A start accepts a table with rows outside the tree of its messages, and such a
  row stops the feed for good at the message whose node would stand there
  (`AcceptedTableStops`). A file can be gone on from exactly where its table holds
  no such row (`GoesOnIffNoRowOutside`).
- A group that `sequence` refuses before its write keeps its numbers taken; only a
  failed write gives them back. The drain takes numbers after the counts and the
  nonces, and never checks that a page names an inbox entry once. A page that names
  one twice, with two signed nonces, is refused whole and its numbers are lost
  (`RepeatedEntryLosesTwo`). The next commit then leaves a file no start ever opens
  (`RepeatedEntryRuins`, `SkippedIsRefused`); a restart before it finds the numbers
  again (`Reopen`). A pass loses numbers if and only if the entries it takes repeat
  one (`SequenceDrained`), and nothing else a writer does loses any, but a message
  that cannot be serialized (`StepLosesIff`).
- The comment at `services/src/feed.rs:1964` says a tree head is served again
  while the clock reading is unchanged. The code serves it again while the
  reading is at or below the last timestamp, which a burst of publishes can put
  ahead of the clock. The model follows the code.
- The live bot notes an order only when it can read the answer to its request.
  An order that was published all the same is never counted, and the position can
  then reach twice the cap, in a run with two decisions (`LostAnswerPassesCap`). It
  passes the cap by at most what was lost that way (`PositionPassesCapByLostAtMost`),
  so never if every answer was read (`PositionNeverPassesCap`). Whatever messages
  the log holds next, it stays within the cap if and only if the bot's own count
  leaves room for the orders it does not count (`CapHoldsIffUnnotedFit`).

## Model

| member | source | states |
|---|---|---|
| Rfc9162.CollisionFreeHashingExists | anchor/merkle.go:32-58 | Hash functions that meet all three collision hypotheses exist, so no theorem below is about nothing. |
| Consistency.FoldPath | anchor/merkle.go:99-141 | The shifting loops compute the two roots that reading the path along the RFC 9162 splits gives, or refuse exactly where that reading refuses. |
| Consistency.VerifyConsistency | anchor/merkle.go:67-142 | The verifier says yes exactly where the top-down reading of the path gives the two claimed roots, over all sizes; a first size past the second is refused, and equal sizes need equal roots and no path. |
| Consistency.ClimbIsRebuild | anchor/merkle.go:99-141 | The index arithmetic over `fnode` and `snode` is the recursive split of section 2.1.1, for every path and every pair of sizes. |
| Consistency.ProofIsHonest | anchor/merkle.go:90-97 | The prover of section 2.1.4.1 leaves out exactly the node that step 2 of the verifier puts back. |
| Consistency.Completeness | anchor/merkle.go:67-142 | For every list and every prefix size the proof of section 2.1.4.1 is accepted against the two true roots, with any hash functions. |
| Consistency.Soundness | anchor/merkle.go:67-142 | Against the tree hash of a list, the verifier accepts a first size, a first root and a path if and only if the size is one of the list, and the root and path are the tree hash of that prefix and the honest proof. So the old root is right and no second path exists. |
| Consistency.PathLength | anchor/merkle.go:99-141 | An accepted path's length is a function of the two sizes and is at most ceil(log2 n) + 1. |
| NodeStore.NodeAtIsMth | services/src/feed/tree.rs:12-19 | The node stored at (level, index) is the tree hash of its 2^level leaves. |
| NodeStore.RightNodesGiveMth | services/src/merkle.rs:530-555 | A root folded over stored nodes is the tree hash whenever the nodes it reads are right. |
| NodeStore.TrueRootFixesReads | services/src/feed.rs:1360-1377 | With collision-free nodes a true root certifies every node it was folded from. |
| NodeStore.FaithfulRoot | services/src/merkle.rs:263-269 | A faithful table gives the true root of every earlier size too. |
| NodeStore.AppendLeaf | services/src/merkle.rs:338-358 | The append loop writes what the recursive append writes, and fails where it fails: on a missing sibling or a position already taken. |
| NodeStore.AppendKeepsStored | services/src/merkle.rs:338-410 | On the whole tree of a log an append never fails and leaves the whole tree of the longer log, with `2n - popcount(n)` rows. |
| NodeStore.AppendLeaves | services/src/feed/tree.rs:191-217 | A group's leaves are appended in order, all of them or none. |
| NodeStore.GrowKeepsStored | services/src/feed/tree.rs:191-217 | A whole tree stays whole through any group. |
| TreeEdge.EdgeIsReads | services/src/feed/tree.rs:164-179 | A root reads exactly the full subtrees on the right edge, one for each set bit of the size. |
| TreeEdge.TrueRootIffEdgeRight | services/src/feed.rs:1360-1409 | The stored root equals the true one if and only if every node on the right edge is right. |
| TreeEdge.EdgeGivesRoot | services/src/feed.rs:2021-2023 | A table right on its edge gives the true root, whatever its other rows hold. |
| TreeEdge.AppendKeepsEdge | services/src/merkle.rs:338-358 | An append that succeeds over a table right on its edge leaves one right on its new edge. |
| TreeEdge.GrowKeepsEdge | services/src/feed/tree.rs:191-217 | So every later root is true even over a table whose inner nodes were rewritten. |
| TreeEdge.AppendKeepsShape | services/src/feed/tree.rs:303-309 | An append over a table of any contents leaves exactly one leaf row more, so the leaf count a start reads is right. |
| TreeEdge.GrowKeepsShape | services/src/feed/tree.rs:191-217 | The same over any group. |
| TreeRoom.AppendedAt | services/src/merkle.rs:384-396 | The positions a leaf fills are its own and one for each perfect subtree it completes, one a level, lowest first. |
| TreeRoom.FilledOnce | services/src/merkle.rs:384-396 | No position is filled by two leaves. |
| TreeRoom.AppendTakesIffRoom | services/src/merkle.rs:338-358 | When an append over a right edge fails: if and only if a position it fills is taken, since no sibling it reads is ever missing. |
| TreeRoom.GrowTakesIffRoom | services/src/feed/tree.rs:191-217 | The same over any group. |
| TreeRoom.StoredHasRoom | services/src/feed/tree.rs:191-217 | A whole tree has room for any group. |
| TreeRoom.AlwaysRoomIff | services/src/feed/tree.rs:191-217 | A table has room for every later group if and only if it holds no row outside its own tree. |
| ServedProofs.WalkIsSubProofIffRight | services/src/merkle.rs:591-623 | The proof read from the stored table is the proof of section 2.1.4.1 where every node it reads is right, and with collision-free nodes nowhere else. |
| ServedProofs.ServedProofVerdict | services/src/merkle.rs:298-324 | A served consistency proof is accepted by who holds the two true roots where every node it reads is right, with any hash functions, and with collision-free nodes nowhere else. |
| ServedProofs.WholeTreeServes | services/src/merkle.rs:298-324 | Out of a whole tree every served proof is accepted. |
| ServedProofs.RewrittenNodeSpoilsProofs | services/src/merkle.rs:298-324 | With one node rewritten, the proofs that are refused are exactly those that read it. |
| Anchoring.RootAnchor.Anchor | anchor/ExchangeRootAnchor.sol:145-173 | An anchor is recorded exactly where its writer sends it and the four rules hold against the newest one, with the time of its block; a revert changes nothing. |
| Anchoring.TreeHead | anchor/exchange.go:199-225 | A tree head is used only if it names the session, is under the pinned key if there is one, has a readable root and verifies. |
| Anchoring.Extends | anchor/exchange.go:239-269 | The step passes exactly where a proof for these two sizes was served, decodes, and is accepted. |
| Anchoring.CheckAgainstChain | anchor/exchange.go:410-445 | No error exactly where session, size, root at equal size and cursor do not contradict the chain. |
| Anchoring.Collect | anchor/exchange.go:309-401 | Against any answers, a tuple is returned if and only if it is coherent: signed claim at the cursor, signed head, cursor inside the tree, and no contradiction with the chain. At the anchored size it has the anchored root, and it never names another session, a smaller tree or an earlier cursor. |
| Anchoring.Tick | anchor/main.go:222-255 | A tick sends exactly a coherent tuple with a larger tree, and the contract then holds one more anchor; otherwise nothing changes. |
| AnchorRuns.SentFollows | anchor/README.md:375-391 | What a tick sends from the newest anchor meets all four rules, so the contract accepts it. |
| AnchorRuns.RunsStaySound | anchor/main.go:222-255 | Over every run against an arbitrary exchange with one transaction at a time, every recorded anchor meets the rules, extends the one before, and none is refused, whether it lands at once, late, or is dropped. |
| AnchorRuns.RecordedIffRising | anchor/ExchangeRootAnchor.sol:145-173 | The contract records a transaction if and only if any two anchors then still name one session, the later a larger tree and no earlier cursor, each cursor inside its tree; else it reverts. |
| AnchorRuns.RecordsRise | anchor/ExchangeRootAnchor.sol:145-173 | Whatever is sent, in any order, the record rises in that sense. |
| AnchorRuns.FollowsIsPrefix | anchor/exchange.go:227-269 | One recorded step: if the newer root is the tree hash of a list, the older root is the tree hash of its prefix. |
| AnchorRuns.EarlierAnchorsArePrefixes | anchor/exchange.go:309-445 | If any anchor's root is the tree hash of a list, every earlier anchor holds the tree hash of that list's prefix at its own size. |
| AnchorRuns.ServingSends | anchor/exchange.go:309-401 | Whoever holds the signing keys can make a tick send an anchor of any list that extends the newest anchored one. |
| AnchorRuns.MthFixesList | anchor/merkle.go:32-58 | With collision-free leaves and nodes a tree hash and a length fix every message. |
| AnchorRuns.PendingTickForks | anchor/contract.go:248-277 | From every record of tree hashes with anything outstanding, a tick can be made to send what forks the record, under all four rules. |
| AnchorRuns.TickIsSafeIffNothingOutstanding | anchor/contract.go:248-277 | The exact condition: over records of tree hashes, every tick is safe against every exchange if and only if no transaction is outstanding when it starts. |
| AnchorRuns.PendingRunForks | anchor/contract.go:248-277 | Every run that stands at such a record goes on to a forked one in one tick. |
| AnchorRuns.PendingRunExists | anchor/contract.go:248-277 | Such runs exist: for every list and every longer one, a run anchors the first and leaves the second outstanding. |
| HonestExchange.PageReachesCursor | anchor/exchange.go:332-351 | However many claims the matcher has, the one page a tick asks for holds a claim ending at the cursor if and only if the matcher has one, since no claim covers over 1,000 messages and a page holds 1,000 claims. |
| HonestExchange.HonestIsCollected | anchor/exchange.go:309-401 | An exchange that pages through its own signed claims and signs the tree of its own log is collected if and only if one of its claims ends at its cursor; what is collected is then its own tree, at that cursor. |
| HonestExchange.HonestIsAnchored | anchor/main.go:222-255 | So once its log is longer than the anchored one, a tick sends an anchor of its own tree and the contract records it. |
| HonestExchange.NothingForged | anchor/exchange.go:309-401 | Whatever is served, a collected tuple joins a claim the matcher's key holder signed, ending at that cursor under that session, and a head of that size and root the feed's key holder signed. |
| Auditor.FoldingDecides | services/src/anchor.rs:1462-1520 | The folding verdict is Holds exactly where the anchor holds the tree hash of the served prefix. |
| Auditor.OpenIffUnusable | services/src/anchor.rs:1638-1733 | For any hash, head and answer: another session fails, a log shorter than the anchored one fails, and the check is left open exactly where the anchor is smaller and no proof for these two sizes that decodes was served. |
| Auditor.ConsistencyDecides | services/src/anchor.rs:1638-1761 | Against a true head the check Holds if and only if the session is the anchor's, the anchored root is the tree hash of that prefix and, below the head's own size, the served proof is the honest one. With the row above this is the whole decision: everything else that is served fails. |
| Auditor.ConsistencyImpliesFolding | services/src/anchor.rs:1638-1761 | Whatever proof is served, Holds by consistency implies one session and Holds by folding. |
| Auditor.ChecksAgree | services/src/anchor.rs:1462-1761 | With the honest prover's path both checks give one verdict for every anchored size: smaller, equal, past the end, zero. |
| RootFolding.RootFold.PushEntry | services/src/merkle.rs:847-876 | One entry more leaves exactly the right edge of the longer history, each node with its own hash, and the root if its size was asked for; no node it reads is ever missing. |
| RootFolding.RootFold.RootAt | services/src/merkle.rs:888-890 | The tree hash of the prefix at every size asked for and reached, and None at every other. |
| RootFolding.RootFold.HoldsFewNodes | services/src/merkle.rs:760-787 | It holds at most one hash for each bit of the size. |
| RootFolding.EdgeSize | services/src/merkle.rs:797-799 | The right edge has one node for each set bit of the size. |
| RootFolding.FoldMessages | services/src/anchor.rs:1500-1519 | One pass over the served messages gives the root the whole tree of them gives, at every size asked for. |
| LogScan.TilesCoverOnce | services/src/anchor.rs:1112-1148 | Windows that tile a range hold every block of it once. |
| LogScan.AddLogs | services/src/anchor.rs:1120-1131 | One answer's logs are all added under the contract's own counter and nothing else changes, or the scan stops on one that does not decode. |
| LogScan.AnswerKeepsTruth | services/src/anchor.rs:1116-1137 | With a truthful endpoint one more window keeps: what is found is the chain's own, and all of it down to the window's start. |
| LogScan.ScanEvents | services/src/anchor.rs:1087-1159 | Through any number of halvings the windows answered tile `scanned_from..=head`; `complete` means every index is there; the budgets of 5,000 and 400 requests are kept. It errs only where the last request failed, served a log that does not decode, or was refused for 70 blocks or fewer. A truthful endpoint hides no event, and a scan of one that reaches its floor within the budget, at 70 blocks a window, is complete; no window is read once everything is found. |
| LedgerProofs.ReserveKeepsInv | services/src/ledger.rs:182-243 | A reserve keeps the invariant: balances nonnegative, totals at genesis, every reserved balance the sum of its reservations. |
| LedgerProofs.FillKeepsInv | services/src/ledger.rs:248-363 | A fill keeps it, self-trades and assets shared between markets included. |
| LedgerProofs.ReleaseKeepsInv | services/src/ledger.rs:382-408 | A release keeps it. |
| LedgerProofs.ReservationBacked | services/src/ledger.rs:385-404 | Every reservation is covered by its reserved balance, so the missing-balance and underflow branches of a release are unreachable. |
| LedgerProofs.FillFacts | services/src/ledger.rs:286-305 | The buyer pays no more than its limit, both sides' reserves cover the fill, and the products fit an i64. |
| LedgerProofs.FundingFitsMakesCreditsFit | services/src/ledger.rs:335-348 | If each asset's funding fits an i64, no credit of an allowed fill overflows. |
| LedgerRuns.DoKeepsValid | services/src/ledger.rs:182-422 | Every operation, allowed or refused, keeps the invariant and the configuration. |
| LedgerRuns.RunKeepsValid | services/src/ledger.rs:182-422 | So does every run of operations. |
| LedgerRuns.NoSpuriousFailure | services/src/ledger.rs:248-363 | With funding that fits, in every reachable state the guards of a fill are its only ways to fail. |
| LedgerTerms.LegalFillSettles | services/src/ledger.rs:248-363 | Said of the orders themselves: after any run whose funding fits, a fill settles if and only if it joins two open orders of one market and opposite sides, the taker that of the current message, at any price from the seller's limit to the buyer's and any positive quantity neither order lacks. |
| LedgerTerms.CoveredOrderReserves | services/src/ledger.rs:182-243 | After any run, an order is reserved if and only if it is the current message's, not reserved yet, of positive terms, and its cost, limit times quantity in quote or 100 a tenth in base, is available; it then moves exactly that cost from available to reserved. |
| LedgerTerms.ReserveThenRelease | services/src/ledger.rs:182-408 | Releasing an order that was just reserved takes the ledger back to where it was. |
| FundingBound.CreditsCanOverflow | services/src/ledger.rs:335-348 | The funding bound is needed: a reachable ledger with more funding refuses a fill that passes every guard. |
| FundedLedger.FillDeltasMove | services/src/ledger.rs:306-334 | Combining the four movements by balance first, as the code does, moves what moving them one by one does, also when the four keys coincide. |
| FundedLedger.NextBalancesDecide | services/src/ledger.rs:335-348 | The touched balances are all good exactly where the two credits fit. |
| FundedLedger.Ledger.Reserve | services/src/ledger.rs:182-243 | Succeeds exactly where the account can cover the terms, and then sets the units aside; a failure changes nothing. |
| FundedLedger.Ledger.SettleFill | services/src/ledger.rs:248-363 | Succeeds exactly where the guards pass and the credits fit, and then makes the four movements; a failure changes nothing. |
| FundedLedger.Ledger.NextBalances | services/src/ledger.rs:335-348 | The new balances of a fill, or an error where one is negative or does not fit. |
| FundedLedger.Ledger.StageReservedFills | services/src/ledger.rs:370-379 | A plan either applies whole on a copy or fails; the ledger itself never changes. |
| FundedLedger.ApplyAllStops | services/src/ledger.rs:370-379 | A plan with a refused fill has no result. |
| FundedLedger.Ledger.Release | services/src/ledger.rs:382-408 | Never fails, answers whether the order was open, and gives back what was set aside. |
| FundedLedger.Ledger.FinishSequence | services/src/ledger.rs:412-421 | Moves to the next message number and to no other. |
| LedgerChecks.ExpectedTotals | services/src/ledger.rs:501-504 | The first accumulator is the funding of every asset. |
| LedgerChecks.ActualTotals | services/src/ledger.rs:505-517 | The second is the total of every asset, or an error where a balance is bad or its asset unmapped. |
| LedgerChecks.SumObligations | services/src/ledger.rs:523-546 | The third is what the reservations of each account and asset add up to; on a sound ledger no sum overflows. |
| LedgerChecks.CheckReserved | services/src/ledger.rs:547-554 | True exactly where every reserved balance is its obligations and none is left over. |
| LedgerChecks.Validate | services/src/ledger.rs:493-556 | The checker answers Ok exactly where conservation, backing, mapped assets and reservation units hold as stated. |
| LedgerChecks.CountingIsPermutation | services/src/ledger.rs:560-587 | As many rows as reservations, distinct ids, each matching one: exactly a permutation of the active reservations. |
| LedgerChecks.ValidateObligations | services/src/ledger.rs:560-587 | The second checker answers Ok exactly for a sound ledger and such a permutation. |
| LedgerTerms.AcceptedLedgerSays | services/src/ledger.rs:493-556 | What the checkers let through: no balance negative, past an i64 or in an asset no market names; every open order in a known market, with the cost of what remains of it set aside in the asset it would pay with. |
| LedgerSnapshots.ValidateConfig | services/src/ledger.rs:590-627 | Ok exactly for a valid configuration, and then the set of its assets. |
| LedgerTerms.OneMarketConfig | services/src/ledger.rs:590-627 | One market alone is a configuration if and only if its three names are one to 32 characters of the allowed ones, its assets differ, and there is no fee. |
| LedgerTerms.MarketJoinsConfig | services/src/ledger.rs:604-616 | One market more keeps a configuration valid if and only if its names are such and its symbol is new. |
| LedgerTerms.GrantJoinsConfig | services/src/ledger.rs:617-625 | One grant more keeps it valid if and only if the amount is positive and fits an i64, the asset is one of some market, and the account has no grant of it yet. |
| LedgerSnapshots.Funded | services/src/ledger.rs:127-153 | Genesis succeeds exactly for a valid configuration. |
| LedgerSnapshots.GenesisIsValid | services/src/ledger.rs:127-153 | A funded ledger starts with the full invariant, at a message boundary, in canonical order. |
| LedgerSnapshots.FromSnapshot | services/src/ledger.rs:449-489 | A snapshot is accepted exactly where it is acceptable, and gives the ledger its rows describe. |
| LedgerSnapshots.SnapshotRoundTrip | services/src/ledger.rs:424-489 | At a message boundary `from_snapshot(snapshot(l))` is `l`. |
| LedgerSnapshots.AcceptedSnapshotIsReproduced | services/src/ledger.rs:424-489 | An accepted snapshot describes a ledger with the full invariant, and in canonical order that ledger writes the same snapshot. |
| LedgerSnapshots.ReachableRoundTrip | services/src/ledger.rs:412-489 | Every ledger reached from genesis at the end of a message comes back from its own snapshot unchanged. |
| OrderFlows.FillAccounts | services/src/ledger.rs:293-362 | One fill keeps both orders' accounts: reserved is paid, shipped, refunded, released or still reserved. |
| OrderFlows.OrdersAreAccounted | services/src/ledger.rs:182-408 | Over any run every order is accounted for; no buyer paid above its limit and no seller got less than its limit. |
| OrderFlows.RecordExplains | services/src/ledger.rs:182-408 | What the journal records of one operation is what that operation did to every available balance. |
| OrderFlows.JournalExplainsBalances | services/src/ledger.rs:182-408 | Over any run every available balance is where it started, less what its account's orders set aside, plus what they were refunded, released, paid and delivered. |
| FeedModel.ChainFixesLog | services/src/logchain.rs:83-88 | With a collision-free link a chain value and a length fix every message. |
| FeedModel.NumberedNames | services/src/feed.rs:1791-1793 | In a map built by inserting each key under its message's number, each key names exactly its own message. |
| FeedModel.TailGrows | services/src/feed.rs:1816-1823 | Dropping the oldest message of a full window and adding one keeps the window the last 10,000. |
| FeedStartup.ReadRow | services/src/feed.rs:942-1109 | One row is accepted exactly where its number, its bytes and its nonce are right, and is added to every accumulator. |
| FeedStartup.ReadRows | services/src/feed.rs:922-1110 | The pass accepts exactly rows that are messages 1..N of some history, and leaves the chain, window, nonces and first wrong link of that history. |
| FeedStartup.SealDecides | services/src/feed.rs:1160-1297 | The checkpoint block passes exactly where the checkpoint is this key's signature over exactly these messages, and over their tree if it names a root. |
| FeedStartup.CountLeaves | services/src/feed/tree.rs:303-309 | The leaf count is one past the highest leaf index stored. |
| FeedStartup.Rebuild | services/src/feed/tree.rs:350-411 | The tree over the missing messages is built, or nothing is; the second hashing of the chain always arrives where the first did. |
| FeedStartup.OpenTree | services/src/feed.rs:1332-1409 | The tree is kept, extended or built again, and accepted exactly where it exists and has the signed root. |
| FeedStartup.ReadPins | services/src/feed.rs:1461-1492 | The keys fixed to accounts are all loaded, or the start refuses where one is not readable. |
| FeedStartup.Startup | services/src/feed.rs:878-1513 | Any database is accepted exactly where it is acceptable, and the state is then the one its messages determine. |
| FeedRecovery.AcceptedTree | services/src/feed.rs:1332-1409 | Kept, extended or rebuilt, an accepted tree is right on its whole right edge. |
| FeedRecovery.AcceptedSettled | services/src/feed.rs:878-1513 | What a start accepts is left as a second start would leave it: that start keeps the same table. |
| FeedRecovery.GoesOnIffNoRowOutside | services/src/feed.rs:1332-1409 | An accepted file can take every later group if and only if its table holds no row outside the tree of its messages, which the start does not check. |
| FeedRecovery.AcceptedTableStops | services/src/feed.rs:1332-1409 | The input: over any two messages a table with one leaf missing and one row outside the tree is accepted under the true root, and no group of two or more is ever appended to it. |
| FeedRecovery.AcceptedIsPublished | services/src/feed.rs:942-1409 | If signatures exist only for published prefixes, an accepted database holds exactly a published prefix of the session it names, every stored link is the chain, and its root is the tree hash. |
| FeedRecovery.OwnDatabaseReopens | services/src/feed.rs:878-1513 | A feed's own database opens again to the same log, and under the same session once anything was signed. |
| FeedRecovery.KeptTreeDecided | services/src/feed.rs:1332-1409 | For a table of the right size the start refuses exactly a wrong right edge. |
| FeedRecovery.RewrittenNodeDecided | services/src/feed.rs:1332-1409 | A single rewritten node is refused if and only if it stands on the right edge; below it the start cannot see it. |
| FeedRecovery.PairingsAndPinsAreUnsigned | services/src/feed.rs:878-1513 | Any other pairings and pinned keys within the capacities are accepted in place of the stored ones, and taken as they are. |
| Retention.CheckRetentionBatch | services/src/feed/retention.rs:299-354 | The guard passes exactly a group whose nonces and pairings are new, all different, and within every budget. |
| Retention.PreflightSuffices | services/src/feed/retention.rs:256-296 | A writer that checked the counts, and whose keys are new and all different, is never refused by the guard. |
| Retention.GrowthIsBudgets | services/src/feed/retention.rs:256-296 | The counts pass exactly where each budget has room for what is new under it: an order that pairs no inbox entry does not depend on the pairing budget. |
| Retention.WrittenReadsBack | services/src/feed.rs:309-313 | The nonce a start reads from the bytes is the nonce the publish spent. |
| Publishing.Serialize | services/src/feed.rs:1647-1654 | Each message becomes bytes once; the group fails exactly where one cannot. |
| Publishing.HistoryGrows | services/src/feed.rs:1626-1795 | An admitted group keeps the history readable, its nonces unique and within budget. |
| Publishing.WriteGroup | services/src/feed.rs:1668-1758 | The transaction inserts the rows, links and pairings, appends the leaves and replaces session and checkpoint, or leaves nothing: where a number or a pairing is there already, the tree cannot take the leaves, or the disk fails. |
| Publishing.WrittenWhere | services/src/feed.rs:1668-1758 | Over the file of a log an admitted group is written exactly where the tree has room, whatever its numbers. |
| Publishing.WrittenInStep | services/src/feed.rs:1668-1758 | Under the next numbers what is written is exactly the file of the longer log. |
| Publishing.GroupSkips | services/src/feed.rs:1668-1698 | Under numbers past a lost one it leaves rows that run ahead of their count, and so does every group after it. |
| Publishing.SealCovers | services/src/feed.rs:644-664 | The checkpoint a publish writes is one a start accepts. |
| FeedPages.PageFromDisk | services/src/feed.rs:2123-2160 | The disk branch serves the rows found, with the chain stored beside the last. |
| FeedPages.DiskPageIsLogPage | services/src/feed.rs:2123-2160 | Read from the rows of a log, a page is the log's own page. |
| FeedPages.WindowPageIsLogPage | services/src/feed.rs:2101-2113 | Read from the window, a page is the log's own page. |
| FeedPages.PageSays | services/src/feed.rs:2092-2160 | A page is the next messages after `since` under their own numbers, `limit` of them or all there are, with the chain over everything up to its last. |
| FeedPages.ReadOnReadsAll | services/src/feed.rs:2092-2160 | A reader that asks again after the last message it has collects every message once and in order, under any limit. |
| Sequencer.FeedState.InRam | services/src/feed.rs:668-711 | A feed without a database starts at the empty log. |
| Sequencer.FeedState.Resume | services/src/feed.rs:1426-1513 | An accepted database gives a feed standing at the end of its log, with the account keys the file names. |
| Sequencer.FeedState.WindowFinds | services/src/feed.rs:1827-1865 | One subtraction finds a message exactly where it is in the last 10,000. |
| Sequencer.FeedState.PushWindow | services/src/feed.rs:1816-1823 | The window keeps its newest 10,000 messages and links. |
| Sequencer.FeedState.Absorb | services/src/feed.rs:1778-1795 | After a commit the window, links, nonces and pairings are those of the longer log. |
| Sequencer.FeedState.GrowStorage | services/src/feed.rs:1666-1811 | The storage after a group is what the transaction or the tree in memory leaves, or the write failed and is unchanged. |
| Sequencer.FeedState.Publish | services/src/feed.rs:1666-1811 | Past the guards a group is published whole or not at all, a failed write gives its numbers back, and a write past a lost number ruins the feed. |
| Sequencer.FeedState.Sequence | services/src/feed.rs:1626-1812 | From any state the writers can leave: a group is published exactly where it is admitted, serializes and is written; a failed write changes nothing and gives the numbers back; a refused group changes nothing and its numbers are lost. |
| Sequencer.FeedState.BeforePublish | services/src/feed.rs:1666-1811 | Before the write it is decided: under the next numbers it leaves the longer log, and past a lost number a file and a window whose numbers run ahead. |
| Sequencer.FeedState.TreeRootIsTrue | services/src/feed.rs:2021-2023 | The root read back is the tree hash of everything published. |
| Sequencer.FeedState.SignTreeHead | services/src/feed.rs:1979-2013 | Every head served is over the true root and the whole log; it is the last one again exactly while that still says everything, else a later one. |
| Sequencer.FeedState.ServePage | services/src/feed.rs:2092-2160 | Whichever branch answers, the page is the log's own page; only a feed with no database fails, exactly where more than the last 10,000 messages are asked for. |
| Sequencer.FeedState.ChainAt | services/src/feed.rs:2169-2186 | The chain after a message, from the window or from its row, and None exactly where neither holds it. |
| Sequencer.FeedState.StoredJson | services/src/feed.rs:1870-1888 | The bytes of a message, with the same two sources. |
| Sequencer.FeedState.PinOrCheckAccount | services/src/feed.rs:1525-1585 | A known account is let in if and only if the key is its own. An unknown one is let in, and its key recorded, if and only if fewer than the allowed accounts are known and the feed is in memory or the disk takes the record. |
| Sequencer.FeedState.Submit | services/src/feed/http.rs:1205-1238 | On any feed, one opened over rewritten inner nodes or with lost numbers included, a submission becomes a message exactly where its nonce is new, the budgets have room, no row stands where its leaf goes and the write commits. It never loses a number; on a feed that has, it is the commit that ruins it. |
| FeedLives.WithDb | services/src/feed.rs:878-1513 | On any file, with unforged signatures: what opens is a prefix this feed published under the session the file names, with the pairings and keys of the file and no number lost; a file with no signed root opens to a whole tree. |
| FeedLives.SkippedIsRefused | services/src/feed.rs:949-963 | No start opens a file whose rows skip a number. |
| FeedLives.Reopen | services/src/feed.rs:878-1513 | A crash keeps the file, the log, the nonces, the pairings and the account keys, and the session once anything was signed. A restart finds lost numbers again, and a feed that published past one never opens. |
| FeedLives.GeneratedTakes | services/src/feed/generate.rs:1194-1207 | A burst that passed the counts is refused only for a message that cannot be serialized. |
| FeedLives.Generate | services/src/feed/generate.rs:1194-1207 | One tick checks the counts, takes the numbers of the whole burst, and does to the feed what that group does. |
| FeedLives.DrainTakesIffNoRepeat | services/src/feed/drain.rs:320-502 | The guard takes what a drain built if and only if no inbox entry is in it twice, the one thing the drain does not check. |
| FeedLives.DrainEntry | services/src/feed/drain.rs:320-499 | One entry of a page: skipped, its account's key fixed, or a message under the next number, in the order of the checks. |
| FeedLives.SequenceDrained | services/src/feed/drain.rs:299-502 | Over any page: from a feed that has lost no number, none is lost if and only if the entries taken name no inbox entry twice. |
| FeedLives.DrainLosesIffRepeat | services/src/feed/drain.rs:299-502 | Where they do, nothing is published and exactly the numbers of the pass are lost. |
| FeedLives.DistinctPageIsCareful | services/src/feed/drain.rs:299-502 | A page that names no entry twice costs nothing. |
| FeedLives.StepLosesIff | services/src/feed.rs:1626-1812 | One step of any kind from a feed that has lost no number never ruins it, and loses numbers if and only if its group repeats an inbox entry or holds a message that cannot be serialized. |
| FeedLives.CarefulLifeLosesNone | services/src/feed.rs:1626-1812 | A life of such steps loses no number, so it is the life of a feed that never stopped. |
| FeedLives.RepeatedEntryLosesTwo | services/src/feed/drain.rs:455-502 | The input: one inbox entry listed twice with two signed nonces, on every feed with room for two, loses two numbers. |
| FeedLives.RepeatedEntryRuins | services/src/feed/drain.rs:455-502 | After that page the next order that commits ruins the feed, and a restart before it repairs the feed. |
| FeedLives.Live | services/src/feed.rs:1626-1812 | Over any interleaving of ticks, submissions, pinned keys, pages of the inbox service, failed writes, crashes and restarts the feed is exactly where `Lived` says. Its session never changes once anything was signed, and where `Lived` says ruined no start ever opens its file. |
| FeedLives.WholeLands | services/src/feed.rs:1730-1745 | A whole tree never makes a write fail. |
| FeedLives.WholeStays | services/src/feed.rs:1730-1745 | Over any life it stays whole. |
| IntakeRules.FirstKeyIsKept | services/src/feed.rs:1525-1585 | In a life: the first key an account comes with is recorded while there is room for an account and the disk takes it, and nothing else changes a key. |
| IntakeRules.OrderIsPublishedIff | services/src/feed/http.rs:1205-1238 | Over a whole tree an order is published under the next number if and only if its nonce is new, the nonces, the batch and the memory have room for one, and the disk commits; else nothing changes. |
| IntakeRules.TickIsPublishedIff | services/src/feed/generate.rs:1194-1207 | A tick publishes its whole burst if and only if the batch and the memory have room for it and the disk commits, however full the other budgets are. |
| IntakeRules.PageTakesOnlySigned | services/src/feed/drain.rs:320-499 | Whatever a page holds, every message of the pass is an entry not paired yet, valid, signed for this session by its account's key under an unused nonce; no known account's key changes, and a new account's key is one a valid entry of it was signed with. |
| IntakeRules.ValidEntryPins | services/src/feed/drain.rs:346-352 | A valid entry fixes the first key of its account, also where its session or nonce is then refused or a budget has no room. |
| IntakeRules.GoodPageIsPublished | services/src/feed/drain.rs:299-502 | A page of such entries, none twice, that the budgets have room for is published whole where the disk commits: first orders of new accounts included, in page order under the next numbers, each paired with its entry. |
| IntakeRules.StepIsOneBatch | services/src/feed/retention.rs:299-354 | No step of a life publishes more messages than one batch may hold. |
| IntakeRules.LifeExtends | services/src/feed.rs:1525-1812 | Over any interleaving of writers, failures, crashes and restarts what was published stays published, the first key an account came with is the key it keeps, and the account budget is never passed. |
| TreeHeads.HeadClock | services/src/feed.rs:1979-2013 | In any run each new head is later than all before it, a head is served twice only at one size, and its time is past the largest clock reading by at most the tree growths since the first head. |
| TreeHeads.GrowthsAreMessages | services/src/feed.rs:1969-1972 | The tree is seen to grow at most once a message. |
| BotExposure.HappenTotals | services/src/bot.rs:418-451 | A trade or a cancel never raises what is committed in either direction. |
| BotExposure.HappenAllLowers | services/src/bot.rs:399-415 | Whatever the engine does to the bot's orders in one message, it commits no more in either direction. |
| BotExposure.EnteredSame | services/src/bot.rs:399-415 | An order landing moves its quantity from in flight to resting. |
| BotExposure.MessageLowers | services/src/bot.rs:399-415 | A whole message of the log never raises what is committed. |
| BotExposure.PositionWithinCap | services/src/bot.rs:444-451 | While everything committed is within the cap, so is the position, in both directions. |
| BotExposure.WorstIsReached | services/src/bot.rs:418-451 | The engine can fill every resting order of the account on one side, noted or not. |
| BotDecisions.FloorToStep | services/src/bot.rs:282-284 | The highest whole number of steps at or below a price, negative prices included. |
| BotDecisions.CeilToStep | services/src/bot.rs:288-290 | The lowest at or above it. |
| TradingBot.Bot.RestingTenths | services/src/bot.rs:418-425 | The sum over the bot's resting orders of one side, in any order. |
| TradingBot.Bot.InflightTenths | services/src/bot.rs:428-434 | The sum over the orders sent and not yet seen. |
| TradingBot.Bot.Withdraw | services/src/bot.rs:501-515 | Cancels exactly the bot's own resting orders that fair value has caught up to. |
| TradingBot.Bot.Take | services/src/bot.rs:528-574 | Takes exactly where there is room and something is offered through the limit, for the least of all there is, all the room and the largest size. |
| TradingBot.Bot.Quote | services/src/bot.rs:596-658 | Rests an order exactly where one is due: on the shrinking side, with room, one a side, not crossing. |
| TradingBot.Bot.DecideSymbol | services/src/bot.rs:457-655 | The orders of one market together fit beside everything committed; each has a reason; all that is offered is taken as far as the room goes; a resting order that is due is sent unless the room ran out. |
| TradingBot.Bot.Decide | services/src/bot.rs:454-661 | The same over all markets, and orders no longer open are forgotten. |
| TradingBot.Bot.Observe | services/src/bot.rs:399-415 | A message read moves the book, the orders in flight and the known ids as stated; one the engine refuses changes nothing. |
| TradingBot.Bot.NoteSent | services/src/bot.rs:664-667 | An order sent under a new number raises what is committed by exactly its quantity, on its side of its market and nowhere else. |
| TradingBot.Bot.Poll | services/src/bot.rs:940-1050 | One poll of the live driver: what `decide` decides is sent one by one, each noted where an answer names its number, and refused or published without a readable answer otherwise; everything that can fill stays within the cap and what was lost that way. |
| TradingBot.Bot.PlayOne | services/src/bot.rs:1254-1292 | One action noted, then read back with everything the engine does on it, keeps what is committed and what is still to be sent within the cap. |
| TradingBot.Bot.Round | services/src/bot.rs:1250-1293 | One round of a backtest, each order landing before the next is noted, keeps everything committed within the cap. |
| BotDecisions.MarketDecided | services/src/bot.rs:454-661 | One market's decision takes no room from another's. |
| BotPrices.KeptIsGood | services/src/bot.rs:501-515 | After a decision no resting order of the bot that buys above, or sells below, the price fair value gives is kept; and of the orders at a whole step those alone are withdrawn. |
| BotPrices.WithdrawsOnlyOwn | services/src/bot.rs:501-515 | Only the bot's own open orders, in markets with a fair value, are ever withdrawn. |
| BotPrices.EveryOrderHasReason | services/src/bot.rs:528-658 | Every order decided is at a whole step and either takes an opposite quote at or inside the bot's price, for no more than is there, or rests inside its quote price without crossing, on the side that shrinks the position. |
| BotPrices.OfferIsTaken | services/src/bot.rs:528-574 | An offer through a whole step the bot would pay is taken while there is room, for the least of the room, the offer and the largest order. |
| BotPrices.DueIsQuoted | services/src/bot.rs:596-658 | A quote that would shrink the position and cross nothing, with none resting or on its way, is sent at the whole step next to its price if the room holds it. |
| BotRuns.DecideKeeps | services/src/bot.rs:454-661 | What `decide` decides on any view fits the cap beside everything committed. |
| BotRuns.SentRaises | services/src/bot.rs:664-667 | An order noted moves its quantity from the plan into what is committed. |
| BotRuns.SendKeeps | services/src/bot.rs:1010-1016 | One action sent, with the rest of the batch still to go, keeps commitments and plan within the cap. |
| BotRuns.LoseKeeps | services/src/bot.rs:1010-1030 | A lost answer moves its quantity from the plan to what the bot does not count. |
| BotRuns.HeardReach | services/src/bot.rs:399-415 | A message never raises what can fill, orders the bot never noted included. |
| BotRuns.HearKeeps | services/src/bot.rs:399-415 | A message read between two sends keeps commitments and the rest of the plan within the cap. |
| BotRuns.RunKeeps | services/src/bot.rs:940-1050 | Every interleaving of decisions, requests, answers, lost answers and messages keeps everything that can fill within the cap and what was lost. |
| BotRuns.PositionPassesCapByLostAtMost | services/src/bot.rs:940-1050 | From a new bot, in any run the position passes the cap by at most the quantity published without an answer the bot could read. |
| BotRuns.PositionNeverPassesCap | services/src/bot.rs:940-1050 | If every answer was read, the position stays within the cap in both directions. |
| BotRuns.ReachIsReached | services/src/bot.rs:418-451 | The log can land every order on its way and the engine then fill a whole side, orders the bot never noted included. |
| BotRuns.CapHoldsIffUnnotedFit | services/src/bot.rs:1011-1030 | The exact condition on any state: whatever messages the log holds next, the position stays within the cap if and only if the bot's own count leaves room for every order it does not count, resting or not read yet. |
| BotRuns.LostAnswerPassesCap | services/src/bot.rs:940-1050 | The run: in every market and under every cap, two decisions with one lost answer between them end at twice the cap. |

## Left out

- SHA-256, Ed25519 and Keccak: hashes and signatures are values with stated hypotheses, and hex decoding is an option that is None where it fails.
- The bit trick for a power of two and the 64-bit shifts of the verifier: written as a predicate and as halvings, on unbounded naturals.
- JSON-RPC, Ethereum transactions, gas, receipts, endpoint failover and block timestamps: what is served is arbitrary, and a transaction is mined, late, dropped or never sent.
- Error texts: an error is a reason string, and only whether there is one is stated.
- HTTP, rate limits, the operator's endpoint and the generator's own state (prices, open orders, random draws).
- The marks the drain sends to the separate service, its retries, and the tree head it signs for them; what it sequences is modelled whole.
- SQLite: a transaction commits whole or not at all, queries are functions of the rows, and a read never fails. Row numbers past an i64 and a page limit past an i64 are not modelled.
- The bytes of a message: an opaque text with an envelope reader; `WellWritten` says that reader finds the number, account and nonce the message was built with.
- Sequencer.WithDb: a database rolled back whole to an earlier publish is accepted, because its signatures are genuine; the theorem says prefix and not the newest history.
- FeedStartup.OpenTree: a stored node that is not 32 bytes is refused by the source and is not a value of the model, whose tables hold digests; a start that is refused leaves no trace in the model, where the source may already have committed the nodes it built again.
- Sequencer.FeedState.ServePage: what a feed serves after it published past a lost number is not stated, only that no start opens its file; the same holds of `ChainAt`, `StoredJson` and `SignTreeHead`.
- Signatures made inside a transaction that then failed count as never made, since nothing of it is kept or served.
- Locks, async workers, metrics and the process exit on a poisoned lock.
- Inclusion proofs and the node comparison of `services/src/merkle.rs`: they read the same stored nodes as the root and the consistency proofs.
- The signature on a tree head is not a statement of the model; its timestamp, size and root are.
- The ledger's canonical byte form and its JSON: a snapshot is a value, and rows are compared as values.
- The order of hash-map iteration: loops over maps pick any element, and every contract is independent of the order.
- LedgerChecks.Validate: modelled on the ledger's value, as the checker changes nothing.
- Matching: the ledger takes fills from a plan, and the bot's engine is any sequence of trades and ends of its orders that the order quantities allow.
- Floating point in the bot: fair value, thresholds and the rounding of quantities become integers of one poll, and each poll may bring any cap that is at most the bound. A quote size is never negative.
- A change of session in the bot (`services/src/bot.rs:690-755`): it discards everything and starts from the state `PositionNeverPassesCap` starts from.
- The clock of the tree heads across a restart: a new process starts with no last head, as the source says.
