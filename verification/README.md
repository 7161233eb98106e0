# Keeper bot: a verified model

The keeper publishes Merkle roots of what protocols and users have earned, serves the proofs, pays
milestone and leaderboard rewards into the ledger those roots are built from, unlocks and resets
issuance capacity, drives a visibility state machine, and cranks a mining game. This project models
those parts in Dafny and proves what they keep over every input and every run.

`dafny verify dfyconfig.toml` checks everything.

## How the model is built

- **Bytes, Merkle, MerkleSoundness.** The keccak tree: hashing, the level-by-level builder, proof
  extraction and the verifier. The hash is a parameter `H` about which nothing is assumed, so security
  statements hand back two concrete byte strings with the same digest instead of assuming there are
  none. The reference tree the loops are proved against is cut top-down at the largest power of two
  below the size; it knows nothing of levels, indices or odd tails.
- **Earnings.** The grouped read (`GROUP BY`/`ORDER BY`), the filter shared by publisher and endpoint,
  and the resulting entry list. Key parsing and printing and the text order of the database are
  parameters; of the first it is assumed that a key has one accepted spelling (base58), of the second
  that it is a strict total order.
- **RewardzRail, RewardzTheorems.** Publisher, database, chain account and proof endpoint as one step
  machine. Steps are labelled with everything the environment decides (which version of the account a
  read saw, whether it failed, when a transaction lands or expires, crashes, restarts, inserts, ops
  edits, requests), and a step that is not enabled changes nothing, so the theorems range over every list
  of steps. Of the on-chain program it is assumed only that it rejects an epoch not above the current
  one and that an initialised account is never closed; of the database, that each statement or
  transaction is atomic and that a row inserted after the cutoff was read has a later `created_at`.
- **RewardzRequests.** The proof endpoint from the request's text to its reply.
- **RewardzKeeper, InstructionData.** The publisher's and the endpoint's code as methods of a class,
  each proved equal to steps of the machine; what one attempt does and does not do under every outcome;
  the bytes of the instruction.
- **Milestones, Leaderboard, Ranking.** The two cron jobs that insert into the earnings ledger.
  **EarningsFeed** runs them beside the settlement rail. Protocol ids are taken to be unique.
- **Capacity.** Stake unlock and capacity reset on the same columns.
- **GameLoop.** The cranker against a chain that applies every transaction without checking it, each
  landing within its tick or never. **GameRace** takes that away: any number in flight, landing late or
  never, every account seen as it is or ever was, and a program that may reject duplicates or a start on an
  unsettled round.
- **PointRoot, Hex.** The point-root publisher's proof table. **Visibility.** The column and its log.

The second tree builder, `src/rewardz_merkle.rs:71-148`, repeats the first line for line in release
builds (its extra assertions are debug-only); `Merkle.BuildMerkleTree` models both.

## Where the code and its own text disagree

The model follows the code.

- `src/merkle.rs:87` says an odd node is hashed with itself; it is promoted unhashed
  (`Merkle.Parent`).
- `src/rewardz_publisher.rs:285` calls `last_known_epoch` a high-water mark; it is the last value
  read and falls on a staler read (`RewardzTheorems.LastKnownFallsIff`; every such fall happens in some
  run, `RewardzTheorems.LastKnownCanFall`).
- `src/rewardz_publisher.rs:158-164` says the on-chain deny list is echoed unchanged. An accepted publish
  leaves the account's list unchanged exactly when the list its attempt read is what the edits made
  since have left (`RewardzTheorems.DenyListKeptIff`); any other edit in between is lost
  (`RewardzTheorems.DenyEditCanBeLost` is a run).
- `src/db.rs:182-185` says a stamp is the first epoch that included the row. It is exactly when that
  first publish was recorded and its cutoff was not before the insert
  (`RewardzTheorems.StampIsFirstIff`; `RewardzTheorems.StampCanBeLate` is a run where it is not). What
  it always is: the least recorded epoch that covers the row (`RewardzTheorems.StampIsLeastCovering`).
- `src/leaderboard.rs:166-169` says bonus rows always equal snapshot rows. The two statements each
  evaluate `CURRENT_DATE`: the rows a run adds are paid exactly when its bonus statement succeeds and
  still runs on their date, so a failure or a run that straddles midnight leaves a board unpaid
  (`Leaderboard.AllPaidIff`), and no re-run that finds the board full makes up for it
  (`Leaderboard.LostBonusStaysLost`; `Leaderboard.BoardCanStayUnpaid` has a run of each kind).
- `src/capacity_reset.rs:44` says the cast of the cadence is safe; it is for the configured cadences, not
  for an override above the i64 range, nor is an override of 0 harmless
  (`Capacity.CadencePositiveIff`, `Capacity.NoBoundWithoutCadence`).
- `src/milestone_processor.rs:271` asks two events of a repeat wallet; with a gap of zero hours, as in
  the mainnet placeholder, one is enough (`Milestones.RepeatNeedsTwoEventsIff`).
- `src/visibility_tick.rs:33-38` says a protocol without events lands in at_risk; it is hidden
  (`Visibility.NewcomerIsHidden`).
- `src/game_loop.rs:205-210` says a tick that races one whose start has not landed sends no duplicate.
  The guards only see rounds. A start of a round that exists or is already being started goes out
  exactly when the config read is stale or the next start is still in flight, and neither the read of
  the target nor that of the previous round finds an open round (`GameRace.DuplicateSentIff`); a
  caller who sees everything as it is does not escape it (`GameRace.FreshDuplicateIff`, and
  `GameRace.StartTwice` is a run).
- `src/game_loop.rs:374-378` calls repeated bootstraps safe no-ops while a round is active. They are
  exactly unless the read of that round fails (`GameLoop.OnceIsNoOpIff`, `GameLoop.OnceKeepsSafeIff`;
  `GameLoop.BootstrapCanBreakSafety` is a run).
- `GAME_LOOP.md` lists every player deployment among the accounts of `settle_round`; the code sends
  none, and the model has none.

## Model

| member | source | states |
|---|---|---|
| `Merkle.LeafPreimageInjective` | src/merkle.rs:23-28 | the 40 hashed bytes of a leaf determine the key and the amount |
| `Merkle.PairPreimageInjective` | src/merkle.rs:32-42 | the 64 hashed bytes of a pair determine the two digests, but only as an unordered pair |
| `Merkle.HashPairCommutes` | src/merkle.rs:30-42 | sorting makes pair hashing order-independent |
| `Bytes.LeByteAt` | src/merkle.rs:26 | byte i of a little-endian number is its digit i in base 256 |
| `Merkle.LeafIsSpelled` | src/merkle.rs:23-28 | the hashed bytes of a leaf are the key and then the amount, least significant byte first |
| `Merkle.PairIsSorted` | src/merkle.rs:32-42 | the hashed bytes of a pair are both digests, in front the one with the smaller byte where they first differ |
| `Merkle.SplitIsPow2` | src/merkle.rs:74-93 | the reference tree always cuts at a power of two, the largest below the size |
| `Merkle.PairUpKeepsRoot` | src/merkle.rs:80-92 | building one level up, odd tail promoted, leaves the top-down reference root unchanged |
| `Merkle.NextLevel` | src/merkle.rs:80-91 | the inner loop produces each parent: two children hashed, or the odd tail itself |
| `Merkle.BuildLevels` | src/merkle.rs:69-95 | the loop ends with a one-node level holding the reference root after exactly ceil(log2 n) rounds |
| `Merkle.PathClimbs` | src/merkle.rs:103-110 | the reference path of a position is its sibling, if it has one, followed by its parent's path |
| `Merkle.ExtractProof` | src/merkle.rs:98-110 | walking the levels with `idx` in range yields the reference path, no longer than the number of levels |
| `Merkle.BuildMerkleTree` | src/merkle.rs:47-116 | none exactly for no entries; otherwise the reference root, and for every key the path of its last entry, at most ceil(log2 n) long |
| `Merkle.RootSpelled` | src/merkle.rs:47-95 | in terms of the bytes hashed: the root of one entry is the hash of its 40 bytes, of more the hash of the 64 bytes of the roots of two parts, cut at the largest power of two below the size |
| `Merkle.RootOfTwo` | src/merkle.rs:30-95 | the root of two entries is the hash of their leaf hashes, the smaller first |
| `Merkle.CeilLog2Meaning` | src/merkle.rs:71-93 | the bound used above is the least exponent whose power of two reaches n |
| `Merkle.VerifyProof` | src/merkle.rs:119-125 | the verifier accepts exactly when the proof folds the leaf to the root |
| `Merkle.FoldSpelled` | src/merkle.rs:119-125 | each proof element is hashed with what came before it, the smaller first; an empty proof leaves the leaf |
| `Merkle.PathFoldsToRoot` | src/merkle.rs:97-125 | completeness: every leaf's path folds to the root, for every size |
| `MerkleSoundness.StoredProofVerifies` | src/rewardz_merkle.rs:130-155 | the proof kept for a key verifies for that key's last entry |
| `MerkleSoundness.LastOccurrence` | src/rewardz_merkle.rs:54-59 | every key of the list has such a last entry |
| `MerkleSoundness.Soundness` | src/merkle.rs:119-125 | a proof of any length that verifies for an entry not in the tree yields two different preimages with one digest |
| `MerkleSoundness.RootBinding` | src/api.rs:600-607 | two entry lists with one root have the same set of entries, or yield a collision |
| `MerkleSoundness.RootForgetsOrder` | src/merkle.rs:30-42 | a root does not fix the order of its entries |
| `Earnings.GroupRowsIsGrouping` | src/db.rs:141-162 | the grouped read has one group per authority, in text order, with its exact sum |
| `Earnings.GroupingUnique` | src/db.rs:134-140 | there is only one such list for a given set of sums |
| `Earnings.EntryIff` | src/rewardz_publisher.rs:86-95 | an entry is in the tree exactly when its key's text has that positive sum in the ledger |
| `Earnings.EntriesInOrder` | src/db.rs:141-162 | the entries are in the text order of their authorities, which with `EntryIff` fixes the list |
| `Earnings.ReadFailsIff` | src/db.rs:146 | the read fails exactly when some authority's sum leaves BIGINT |
| `Earnings.EntriesDistinct` | src/rewardz_merkle.rs:54-59 | keys in the entry list are unique, as the tree builder asks of its caller |
| `Earnings.ReproducibleEntries` | src/api.rs:583-607 | ledgers with the same awards in any order and with any timestamps read as the same entries, so publisher and endpoint agree on the root |
| `Earnings.EntriesGrow` | src/rewardz_publisher.rs:78-95 | with non-negative awards a later read keeps every authority and never lowers its amount |
| `Earnings.BlockedForever` | src/rewardz_publisher.rs:112-124 | with non-negative awards a ledger refused for the cap or for overflow stays refused |
| `RewardzRail.NextGrows` | src/db.rs:182-185 | no step changes a row, an accepted publish, a recorded epoch or a stamp once made |
| `RewardzRail.AcceptedIsNext` | src/rewardz_publisher.rs:264-266 | whatever the chain accepts carries exactly the next epoch |
| `RewardzRail.NextKeepsInv` | src/rewardz_publisher.rs:292-340 | every step of publisher, chain, database and endpoint keeps the machine's invariant |
| `RewardzRail.LastIndex` | src/api.rs:614-616 | the entry both lookup maps of the endpoint keep for a key is its last |
| `RewardzRail.ReplyAnswers` | src/api.rs:609-646 | a served proof verifies for the served amount against the root the request read |
| `RewardzTheorems.EpochsHaveNoHoles` | src/rewardz_publisher.rs:260-342 | over every run accepted epochs are 1, 2, 3, ..., nothing in flight is more than one ahead, and each recorded row is the chain's root, signature and total at its epoch |
| `RewardzTheorems.RunGrows` | src/db.rs:182-185 | over every run accepted publishes, recorded epochs and stamps are permanent |
| `RewardzTheorems.AttemptFollowsLastRead` | src/rewardz_publisher.rs:295-326 | an attempt always aims one above the last epoch this process read, which the chain held |
| `RewardzTheorems.LastKnownFallsIff` | src/rewardz_publisher.rs:285-299 | the remembered epoch falls exactly when a read is staler than the one before |
| `RewardzTheorems.LastKnownCanFall` | src/rewardz_publisher.rs:285-299 | for any two epochs above 0 some run remembers the higher one and falls to the lower |
| `RewardzTheorems.TotalsAreLeafSums` | src/rewardz_publisher.rs:104-124 | every submitted total is the sum of distinct leaves, is within the cap, and goes with their root |
| `RewardzTheorems.LeavesNeverFall` | src/rewardz_publisher.rs:78-95 | with non-negative awards no leaf falls and no authority drops out between any two accepted epochs |
| `EarningsFeed.CronsPayNothingBack` | src/milestone_processor.rs:215-246 | under rewards and weights that are not negative, every row the two crons insert, whatever tables they see, is not negative |
| `EarningsFeed.CronFedLeavesNeverFall` | src/rewardz_publisher.rs:78-95 | with the ledger filled by the two crons no leaf falls and no authority drops out between any two accepted epochs |
| `RewardzTheorems.NothingPastTheCap` | src/rewardz_publisher.rs:104-124 | once the ledger is refused, no publish in flight or accepted, then or later, includes the award that tipped it |
| `RewardzTheorems.CountedLeaf` | src/rewardz_publisher.rs:78-95 | a row counted in an epoch has a leaf there for its authority whose amount is a sum over rows including it |
| `RewardzTheorems.StampsAreSound` | src/db.rs:212-254 | in every reachable state a stamped row was counted in the tree accepted as its stamp |
| `RewardzTheorems.StampIsFirstIff` | src/db.rs:182-185 | the stamp is the first epoch that counted the row exactly when that publish was recorded and its cutoff covers the row |
| `RewardzTheorems.StampIsLeastCovering` | src/db.rs:182-254 | over every run a row is stamped with an epoch exactly when that is the least recorded one whose tree holds its authority and whose cutoff covers it |
| `RewardzTheorems.StampCanBeLate` | src/rewardz_publisher.rs:71-79 | a concrete run, with an insert between cutoff and read, whose stamp is 2 for a row counted in 1 |
| `RewardzTheorems.ServedProofsAreClaims` | src/api.rs:474-648 | over every run a served proof verifies against the root its request read, and its leaf was in the publish that set that root, or the proof yields a collision, or a preimage of 32 zero bytes when that publish was empty |
| `RewardzTheorems.MatchingRootMeansSameLedger` | src/api.rs:600-607 | when the rebuilt root matches a published one the two entry sets are equal, or yield a collision |
| `RewardzTheorems.NotFoundIsTruthful` | src/api.rs:580-627 | a 404 means the authority has no leaf in the publish read, unless the entry lists yield a collision or a preimage of zero |
| `RewardzTheorems.UnchangedLedgerServes` | src/api.rs:534-648 | while the awards are those the publish read, in any order, every authority of the tree is served its leaf |
| `RewardzRequests.RefusedAtOnce` | src/api.rs:480-529 | a text that is no key is a 400, a failed read or missing account a 503, and nothing else changes |
| `RewardzRequests.RequestIsAnswered` | src/api.rs:474-648 | over every run, whatever happens between its two reads, a request is answered for the key its text parses to and the publish its chain read saw: 500 if the ledger cannot be read, 503 if it has another root, else the key's leaf with a proof to that root, or 404 if it has none |
| `RewardzRequests.FailedReadIsInternal` | src/api.rs:534-543 | a failed database read is a 500 |
| `RewardzRequests.UnchangedLedgerAnswers` | src/api.rs:474-648 | while the ledger holds the awards that publish read, a request by text is served its leaf, epoch and root exactly when its key is in the tree, and gets a 404 otherwise |
| `RewardzTheorems.DenyListKeptIff` | src/rewardz_publisher.rs:158-181 | an accepted publish, however late and whatever else was in flight, sets the deny list its attempt read; the account's list stays what it was exactly when that is what the edits since the read have made of it |
| `RewardzTheorems.DenyListIsEchoed` | src/rewardz_publisher.rs:158-181 | so it stays when the latest list was read and no edit came in between |
| `RewardzTheorems.DenyEditCanBeLost` | src/rewardz_publisher.rs:158-181 | a concrete run in which an edit between the read and the landing is wiped |
| `RewardzKeeper.PublishByStages` | src/rewardz_publisher.rs:62-258 | the attempt's list of machine steps, including the ones skipped after an early return, is its three stages |
| `RewardzKeeper.GoodTickPublishes` | src/rewardz_publisher.rs:295-340 | from any state the invariant allows, a tick with a fresh read and no failure publishes exactly the next epoch over all rows and records it |
| `RewardzKeeper.TickStarts` | src/rewardz_publisher.rs:292-340 | a tick starts an attempt exactly when its read shows an account, or none before one was seen, for the epoch above the one read; otherwise nothing changes |
| `RewardzKeeper.SendsIff` | src/rewardz_publisher.rs:62-203 | an attempt signs one transaction exactly when cutoff, read, sums, cap, deny list read and blockhash are all good and it is no dry run |
| `RewardzKeeper.UnsentChangesNothing` | src/rewardz_publisher.rs:62-203 | otherwise it changes nothing but the clock: nothing is signed, sent or recorded |
| `RewardzKeeper.SentSettles` | src/rewardz_publisher.rs:62-258 | a sent transaction carries the next epoch over all rows with the deny list read; it stays in flight, is refused or is accepted, and is recorded with its stamps exactly when accepted, confirmed and written |
| `RewardzKeeper.SubmittedBytesAreFaithful` | src/rewardz_publisher.rs:173-181 | the submitted bytes spell the transaction's root, epoch, total and deny list exactly when the list has fewer than 256 entries |
| `RewardzKeeper.Keeper.Backfill` | src/db.rs:237-250 | stamps exactly the unstamped rows of the tree's authorities within the cutoff and counts them |
| `RewardzKeeper.Keeper.RecordRootPublish` | src/db.rs:212-254 | the transaction is the machine's record step |
| `RewardzKeeper.Keeper.BuildPlan` | src/rewardz_publisher.rs:71-139 | cutoff, read, filter, cap check and tree are the machine's steps up to a built plan, early returns included |
| `RewardzKeeper.Keeper.SubmitPlan` | src/rewardz_publisher.rs:150-203 | dry-run exit, deny list read and submission are the machine's steps |
| `RewardzKeeper.Keeper.AwaitAndRecord` | src/rewardz_publisher.rs:203-257 | arrival, confirmation and record are the machine's steps |
| `RewardzKeeper.Keeper.PublishRewardzRoot` | src/rewardz_publisher.rs:62-258 | one attempt is a run of the machine |
| `RewardzKeeper.Keeper.TickOnce` | src/rewardz_publisher.rs:292-340 | one tick is a run of the machine |
| `RewardzKeeper.Keeper.OpenRequest` | src/api.rs:474-529 | a request up to its database read is the machine's step |
| `RewardzKeeper.Keeper.AnswerRequest` | src/api.rs:534-648 | and from there to its reply |
| `RewardzKeeper.Keeper.GetRewardzProof` | src/api.rs:534-648 | the endpoint, through the real builder, gives the machine's reply |
| `InstructionData.BuildInstructionData` | src/rewardz_publisher.rs:173-181 | pushing field by field gives the 58-byte header followed by the entries |
| `InstructionData.DecodeEncode` | src/rewardz_publisher.rs:173-181 | the layout reads back as what was written exactly when the list's length fits its byte |
| `InstructionData.Layout` | src/rewardz_publisher.rs:173-181 | every byte: discriminator, root, epoch and total least significant byte first, length, and the list's keys in order |
| `Milestones.NewAwardsMember` | src/milestone_processor.rs:220-246 | a statement pays exactly the active, unflagged, qualified protocols that lack the milestone |
| `Milestones.UserSlugsMean` | src/milestone_processor.rs:105-181 | the user milestones ask for 5 or 25 listable users other than the admin, or 1 or 10 who came back after the gap in hours |
| `Milestones.EventSlugsMean` | src/milestone_processor.rs:105-181 | the first two milestones ask for an event, or an issuance to another wallet; no other slug pays |
| `Milestones.AwardIs` | src/milestone_processor.rs:215-228 | the admin wallet is paid the reward, or with a weight the largest whole number not above the weighted reward |
| `Milestones.RunPaysOnceAndClean` | src/milestone_processor.rs:208-259 | over any run, tables changing between statements, no protocol is paid a milestone twice and none while flagged or unqualified |
| `Milestones.TickMember` | src/milestone_processor.rs:289-327 | a tick whose reward rows do not race adds exactly what was owed when it began |
| `Milestones.TickConfluent` | src/milestone_processor.rs:310-326 | reward rows that do not race may come in any order, and repeat, without showing in the ledger |
| `Milestones.OrderFreeIffNoRace` | src/milestone_processor.rs:64-88 | over every table and ledger, all orders of the reward rows leave the same ledger exactly when no two rows of one milestone would pay some eligible protocol differently |
| `Milestones.DistinctIdsNeverRace` | src/milestone_processor.rs:64-88 | rows of distinct milestones never do |
| `Milestones.RewardsCanRace` | src/milestone_processor.rs:64-88 | two concrete rows that do, and whose order shows |
| `Milestones.TickIdempotent` | src/milestone_processor.rs:12-16 | a second tick on unchanged tables adds nothing |
| `Milestones.EarnedAfterTick` | src/milestone_processor.rs:289-327 | after a tick every active, unflagged, qualified protocol has the milestone |
| `Milestones.QualifiesForever` | src/milestone_processor.rs:105-181 | events are only added, so a qualified protocol stays qualified |
| `Milestones.MilestoneLadder` | src/milestone_processor.rs:105-181 | each later milestone of a kind implies the ones it builds on |
| `Milestones.EveryMilestoneNeedsAnEvent` | src/milestone_processor.rs:105-181 | nothing is paid, whatever the slug, to a protocol without a first event |
| `Milestones.CatchUp` | src/milestone_processor.rs:24-26 | a protocol that qualified while flagged is paid by the first tick that sees it unflagged |
| `Milestones.AwardsNonNegative` | src/milestone_processor.rs:215-228 | non-negative rewards and weights never insert a negative row |
| `Milestones.RepeatNeedsTwoEventsIff` | src/milestone_processor.rs:271-285 | a repeat wallet has two events exactly when the gap is positive |
| `Milestones.Processor.ProcessSlug` | src/milestone_processor.rs:208-259 | the row-by-row insert is the statement, its count the rows added |
| `Milestones.Processor.TickOnce` | src/milestone_processor.rs:289-327 | the loop applies the succeeding slugs in order; the total is the rows added |
| `Milestones.FailuresAreIsolated` | src/milestone_processor.rs:310-326 | a failing slug holds up no other |
| `Leaderboard.DayIsBounded` | src/leaderboard.rs:117-193 | over any re-runs, rankings and dates seen by the two statements, a date's ranks are distinct in 1..N, its protocols distinct, bonuses go to snapshotted protocols once, and at most N bonuses are paid |
| `Leaderboard.TickKeepsOk` | src/leaderboard.rs:61-201 | a cron run keeps the uniqueness of snapshot and bonus rows |
| `Leaderboard.AllPaidIff` | src/leaderboard.rs:127-189 | after a run, for every date: the board it added rows to is fully paid exactly when its bonus statement succeeded on that same date; another board that statement ran on is paid; every other is as before |
| `Leaderboard.LostBonusStaysLost` | src/leaderboard.rs:158-164 | once a run's rows are in, re-running the day with the same ranking changes nothing, whatever became of the bonuses |
| `Leaderboard.BoardCanStayUnpaid` | src/leaderboard.rs:127-189 | two concrete days, one failure and one midnight, that stay unpaid through a clean re-run |
| `Leaderboard.AddedIsNew` | src/leaderboard.rs:127-141 | a conflict-ignoring insert only adds ranked protocols that were not on the day's board |
| `Leaderboard.Board.InsertSnapshots` | src/leaderboard.rs:127-156 | the statement's rows and their count |
| `Leaderboard.Board.InsertBonuses` | src/leaderboard.rs:173-193 | the bonus statement over the snapshot rows of the date it sees |
| `Leaderboard.Board.WriteSnapshotAndBonuses` | src/leaderboard.rs:61-201 | the two statements, each on the date it sees, with their early return, keep the board sound; the result is the rows added, or an error exactly when a statement that ran failed |
| `Ranking.DominatedIsBehind` | src/leaderboard.rs:103-126 | with non-negative weights a protocol no better on any count is ahead only on equal scores, by its id |
| `Ranking.ScoreIs` | src/leaderboard.rs:103-113 | the score: quality capped at 1, wallets at 100, repeats at 50, completions at 200, each weighted |
| `Ranking.RankIsRanked` | src/leaderboard.rs:117-126 | the ranking is a permutation of the candidates, score falling, ties by id |
| `Ranking.RankIsDeterministic` | src/leaderboard.rs:117-126 | the ranking does not depend on scan order |
| `Ranking.BoardIsTop` | src/leaderboard.rs:139-140 | nobody left off the board outranks anybody on it |
| `Ranking.BoardIsRanking` | src/leaderboard.rs:117-141 | the first successful run of a date adds exactly the head of the ranking, place by place, up to N or the number of candidates |
| `Ranking.RankingIsGoodAttempt` | src/leaderboard.rs:117-141 | a ranking names candidates only, each once |
| `Capacity.ReadsLayout` | src/stake_watcher.rs:121-154 | an account laid out as documented is read as the saturated sum of its two stakes |
| `Capacity.FastPathIsSlowPath` | src/stake_watcher.rs:180-204 | skipping the transaction leaves the row the transaction would have |
| `Capacity.GrantFits` | src/stake_watcher.rs:214-215 | the product fits 128 bits, and the grant is between 0 and the i64 maximum |
| `Capacity.SingleUnlock` | src/stake_watcher.rs:166-258 | over any history there is at most one unlock event, present exactly when the sticky marker is, with the exact amount |
| `Capacity.RefillBound` | src/capacity_reset.rs:42-69 | over T seconds of any interleaving of samples and resets, begun at any time, there are at most 2 + floor(T / cadence) unlocks and resets |
| `Capacity.StepEffect` | src/stake_watcher.rs:158-258 | exactly a first positive stake unlocks, with grant, window, marker and event, and exactly a due reset resets; no other step raises the capacity or touches window, marker or events |
| `Capacity.StakeIsMirrored` | src/stake_watcher.rs:172-204 | a sample mirrors the clamped stake, and a later one touches nothing else |
| `Capacity.RiseBound` | src/capacity_reset.rs:42-69 | over T seconds the remaining capacity rises, or appears, at most 2 + floor(T / cadence) times, whatever is staked and unstaked |
| `Capacity.RiseBoundIsReached` | src/capacity_reset.rs:42-69 | a protocol that spends before each refill sees that many rises |
| `Capacity.BoundIsReached` | src/capacity_reset.rs:42-69 | that bound is attained for every number of cadences |
| `Capacity.NoBoundWithoutCadence` | src/capacity_reset.rs:42-69 | with a cadence of zero or less any number of refills fits in no time |
| `Capacity.CadencePositiveIff` | src/capacity_reset.rs:22-45 | the cadence reaching the database is positive exactly unless the override is 0 or above the i64 range |
| `Capacity.CadenceIs` | src/capacity_reset.rs:22-45 | a week, a year, or the override wrapped into 64 signed bits |
| `Capacity.Crons.ApplySample` | src/stake_watcher.rs:166-258 | columns, event and return value of one sample, fast path included |
| `Capacity.TickRowIs` | src/stake_watcher.rs:260-330 | a reading without a stake, or whose write fails, leaves its row; another mirrors the sum of both stakes and unlocks a row never unlocked |
| `Capacity.TickEventsMember` | src/stake_watcher.rs:241-256 | the events of a tick are those of the rows it unlocked, with stake, ratio and grant |
| `Capacity.Crons.WatcherTick` | src/stake_watcher.rs:260-330 | every league row ends as its own reading says, others unchanged; events in visiting order; both counters exact |
| `Capacity.Crons.ResetCapacities` | src/capacity_reset.rs:42-69 | every due row is reset, no other, and the count is the due rows |
| `GameLoop.TickKeepsSafe` | src/game_loop.rs:396-471 | a tick whose transaction lands at once or never keeps rounds contiguous, all but the last settled, none early, and sends at most one transaction, whichever of its reads fail |
| `GameLoop.SettlesIff` | src/game_loop.rs:396-471 | exactly when a tick settles a round, and which |
| `GameLoop.StartsIff` | src/game_loop.rs:396-471 | exactly when a tick starts a round, and which |
| `GameLoop.OnceStartsIff` | src/game_loop.rs:225-291 | exactly when the bootstrap entry point does |
| `GameLoop.OnceKeepsSafeIff` | src/game_loop.rs:240-291 | the bootstrap entry point keeps that exactly unless it misses an unsettled previous round |
| `GameLoop.OnceIsNoOpIff` | src/game_loop.rs:374-389 | while a round is open the bootstrap entry point does nothing exactly unless its read of that round fails |
| `GameLoop.BootstrapCanBreakSafety` | src/game_loop.rs:380-389 | from any game without rounds, a bootstrap run that breaks it |
| `GameLoop.RunIsSafe` | src/game_loop.rs:240-471 | safety over every run of such ticks from a game without rounds, against a program without checks |
| `GameRace.TickIsARace` | src/game_loop.rs:396-471 | a tick that lands at once is a special case of sending, waiting and landing |
| `GameRace.IdsNeverSkip` | src/game_loop.rs:240-291 | whatever lands late or never, however stale the reads, replaced rounds included, and even if the program checks nothing, the rounds are 1..highest without a gap |
| `GameRace.DuplicateSentIff` | src/game_loop.rs:205-289 | a start of a round that exists or is already being started is sent exactly when the config read is stale or the next start is in flight, and the reads of the target and of the previous round each miss it or find it settled |
| `GameRace.FreshDuplicateIff` | src/game_loop.rs:205-289 | over every run, on a fresh view with reads that succeed, a duplicate is sent exactly when the current round is settled and the next start is in flight, or, if a late start set the config back, the next round is settled |
| `GameRace.GuardStopsDuplicate` | src/game_loop.rs:205-263 | a reachable stale tick that sends a duplicate without the read of the target and is stopped with it |
| `GameRace.NextKeepsRaceSafe` | src/game_loop.rs:205-471 | every send, landing, loss and wait keeps the game safe and what is in flight harmless, once the program rejects duplicates |
| `GameRace.RaceIsSafe` | src/game_loop.rs:205-471 | with duplicates rejected, contiguity, settlement in time and settlement before the successor survive late and lost transactions, stale and failing reads; for bootstraps too if the program rejects a start on an unsettled round or they see the previous one |
| `GameRace.RoundsArePermanent` | src/game_loop.rs:200-215 | what the rejection of duplicates gives by itself: over every run a round is started once, keeps its end and is settled at most once |
| `GameRace.ArrivalKeepsSafeIff` | src/game_loop.rs:205-289 | against a program without checks, exactly which arrivals keep a safe game safe |
| `GameRace.StartTwice` | src/game_loop.rs:205-210 | a concrete run that sends the first start twice, the second before the first has landed |
| `GameRace.LateStartSettledEarly` | src/game_loop.rs:205-210 | without checks a late start replaces its round, and a settlement in flight then settles it early |
| `GameRace.LateStartReopens` | src/game_loop.rs:205-210 | without checks a late start reopens a settled round after its successor has started |
| `GameRace.BlindBootstrapBreaks` | src/game_loop.rs:245-272 | rejecting duplicates alone does not cover a bootstrap whose read of the open round fails |
| `GameLoop.TickLowersMeasure` | src/game_loop.rs:423-470 | a healthy tick lowers the number of ticks left until the successor is open |
| `GameLoop.RoundTurnsOver` | src/game_loop.rs:423-470 | an open round is settled and its successor open within max(crank slot - slot, 0) + 2 healthy ticks |
| `GameLoop.OverflowIsStuck` | src/game_loop.rs:423-426 | a round whose crank slot overflows is never settled or succeeded, whatever the ticks |
| `GameLoop.Cranker.StartRoundIfIdle` | src/game_loop.rs:240-291 | the two guards and the checked increment decide and act as specified |
| `GameLoop.Cranker.RunStartRoundOnce` | src/game_loop.rs:380-389 | the one-shot entry point decides and acts as specified |
| `GameLoop.Cranker.TickGameLoop` | src/game_loop.rs:396-471 | one tick acts as decided, sends at most that one transaction and keeps the game safe |
| `PointRoot.SaveEffect` | src/db.rs:51-91 | a save leaves the tree's rows and, unchanged, any row of the same or a later epoch it did not overwrite |
| `PointRoot.SaveIsExactIff` | src/db.rs:62-91 | a save leaves exactly the new tree if and only if no other row of that epoch or later was there |
| `PointRoot.TableMirrorsLastTree` | src/publisher.rs:121-176 | within one process run the table always is the last saved tree's (authority, amount, proof) map |
| `PointRoot.LastIsGreatestIff` | src/publisher.rs:60-133 | over every run the saved tree is that of the last round whose read, confirmation and save all succeeded with a tree to store, under that round's epoch |
| `PointRoot.NothingSavedIff` | src/publisher.rs:60-133 | there is none, and the table is empty, exactly when no round had all of it |
| `PointRoot.FoundRowVerifies` | src/db.rs:94-125 | a row found by root text and authority verifies against the digest the text spells |
| `PointRoot.Publisher.SaveMerkleProofs` | src/db.rs:51-91 | the delete and the upsert loop are the save |
| `PointRoot.Publisher.ItemsFromTree` | src/publisher.rs:121-129 | each entry is stored with its own leaf's path |
| `PointRoot.Publisher.TickOnce` | src/publisher.rs:166-174 | the epoch counter moves on every tick and the table only on a committed save |
| `Hex.DecodeEncode` | src/hex.rs:16-18 | the hex text loses nothing |
| `Hex.EncodeInjective` | src/hex.rs:16-18 | two byte strings with one text are equal |
| `Hex.EncodeAt` | src/hex.rs:16-18 | each byte is its two lowercase digits, high half first |
| `Visibility.DecideIsMonotone` | src/visibility_tick.rs:115-140 | no signal can get worse and the protocol more visible |
| `Visibility.NewcomerIsHidden` | src/visibility_tick.rs:115-122 | a protocol without events is hidden whatever the other signals |
| `Visibility.VisitWrites` | src/visibility_tick.rs:115-236 | hidden, active or at_risk as the signals say, written with one event of the matching level when it changes anything, and nothing when the write fails |
| `Visibility.UnknownIsAtRisk` | src/visibility_tick.rs:199-236 | a text the enum does not know is treated as at_risk |
| `Visibility.TransitionsIff` | src/visibility_tick.rs:238-271 | a visit counts exactly when it writes an event |
| `Visibility.LogReplaysToColumn` | src/visibility_tick.rs:199-236 | over any run the events form an unbroken chain of real changes that replays to the column, also from an unknown text |
| `Visibility.Cron.Tick` | src/visibility_tick.rs:238-271 | every listed protocol is visited once, others left alone, and the count is the transitions applied |

## Left out

- Solana RPC, signing, address derivation, HTTP routing and JSON: only their outcomes appear, as parameters.
- The hash function itself: nothing is assumed of `H`, so digests are not computed.
- The on-chain programs: not in this repository. The decoder in `InstructionData` is the layout the
  publisher's comments give, not the program's code; the discriminator is a parameter.
- SQL text and isolation: each statement or transaction is one atomic step on sequences and maps.
- Floating point: scores, weights and thresholds are exact reals.
- Sign-receipt, bootstrap award, subscriptions, rentals, quality score and abuse detection: easy
  branch-level claims; flags and scores are inputs here.
- Account parsing in the game loop: the offsets come from a crate that is not part of this model.
- The truncation of an over-long on-chain deny list to its maximum: the maximum is not in this repository.
- An initialised root account still at epoch 0: an account is either missing or has accepted an epoch.
- The `validity` time in a proof response and the error texts.
- RewardzTheorems.LeavesNeverFall: asks for non-negative awards; the two inserting crons give them (`EarningsFeed.CronFedLeavesNeverFall`), a negative row put in by hand lowers a leaf.
- RewardzKeeper.Keeper.TickOnce: one tick without interference; ticks interleaved with other steps are runs of the machine in `RewardzRail`.
- RewardzRail.NextKeepsInv: the unsigned 64-bit wrap of an epoch above 2^64 - 1 is not modelled.
- Milestones.OrderFreeIffNoRace: one tick on tables that do not change during it.
- Milestones.AwardFor: a product outside BIGINT makes the statement fail; a failing statement is in the runs, but not that this is when it fails.
- GameLoop.RunIsSafe: transactions land within their tick or not at all, and reads are fresh or fail (`GameRace` lifts both); a bootstrap whose read of the previous round fails is excluded (see `GameLoop.OnceKeepsSafeIff`).
- GameRace.RaceIsSafe: transactions sent by others than keepers running this code are not in the model; the intermission is constant.
- GameLoop.RoundTurnsOver: says nothing when the crank slot overflows a u64 (see `GameLoop.OverflowIsStuck`).
- PointRoot.TableMirrorsLastTree: one process run from an empty table; after a restart whose read of the epoch failed the counter may go back, and `PointRoot.SaveIsExactIff` says what is then left over.
- Capacity.SingleUnlock: one watcher process; samples of one tick see the rows as its opening query did.
