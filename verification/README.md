# Verified model of the Firefly III toolkit

This project models the parts of the toolkit whose correctness depends on many steps,
many callers or several functions at once, and proves properties of them for all
inputs, all runs or all reachable states.

- **Snapshot and metrics protocol** (`SnapshotProtocol`, `SnapshotService`,
  `MetricsManagers`, `MetricsFreshness`, `MetricsManagerObject`): coroutines interleave at their
  suspension points; the protocol modules are state machines over those steps, the
  object modules are the mutable classes, each method tied to its protocol step.
- **Vault and secrets** (`VaultSessions`, `SecretVault`, `SecretHistory`, `SecretServices`):
  sessions with lazy expiry, symbolic two-layer encryption, and rows, over runs of all users,
  refined to what the log of requests and outcomes says.
- **Category suggestions** (`Preprocessor`, `Similarity`, `Ranking`, `Suggestions`): scoring,
  rounding, ranking and combination over exact real numbers.
- **Matching and applying** (`Matching`, `Evidence`, `ApplyJobs`, `ApplyLedger`,
  `ApplyServices`): the date window, the updates built from evidence, jobs and their
  accounting, and the paged cache.
- **Invitations** (`Invites`, `InviteHistory`, `InviteRoutes`): users and one-time tokens, and
  what the log of requests and replies says about them.
- **Smaller algorithms** (`Metrics`, `Calendar`, `CitiParser`, `CitiRoundTrip`,
  `OrderGrouping`).

`Wrappers`, `Text`, `Numbers`, `Filters`, `Sorting`, `Runs` and `Ledger` hold what several modules
share. Verify with `dafny verify dfyconfig.toml`.

## What does not hold

Where a desirable property is false of the code, the code is kept, a lemma gives the
input that shows it, and another lemma says exactly when the property holds.

- A recompute task that is cancelled leaves its manager RUNNING for ever
  (`MetricsManagers.CancellationWedgesForever`, `CancelledFetchWedgesTheManager`; RUNNING is
  truthful exactly otherwise, `RunningIsTruthfulUnlessCancelled`).
- Two fetches stamped with the same clock reading can make an early return outdated
  (`MetricsManagers.EqualTimestampsBreakAgreement`; exactly when in `EqualTimestampsAgreeIff`
  and, for every run, `EarlyReturnAgreesIff`).
- A forced refresh can return a fetch that was requested before it
  (`SnapshotProtocol.ForcedRefreshMayJoinAnOlderRequest`; exactly when in
  `ForcedRefreshJoinsAnOlderRequestIff`).
- One cancelled waiter cancels the shared fetch, and every other waiter raises
  (`SnapshotProtocol.FailedFetchReachesItsWaiters`, `NoWaiterSurvivesItsFetch`).
- Automatic Allegro jobs fail on, or attach another payment to, a transaction that a later
  cached page holds (`ApplyJobs.OverlappingPagesBreakAutoApply`, `TwoVersionsOfOnePayment`;
  exactly when in `TheLastPageDecides` and `TwoPagesResolveIff`).
- Two payments applied to one cached transaction: the first can be lost although the job
  reports both as applied (`ApplyLedger.AppliedButLost`; exactly when in
  `BothReportedButTheFirstSurvivesIff`).
- `limit=0` applies nothing for Blik and everything for Allegro
  (`ApplyJobs.LimitZeroMeansTheOpposite`).
- Blik match ids do not determine the record (`ApplyJobs.SelectingOneRecordCanAttachAnother`;
  exactly when a selection attaches its item in `SelectionAttachesIff`, and when ids are
  unambiguous in `SelectedRecordIsAttached`).
- A bank record's notes grow on every replay (`Evidence.ReplayingARecordGrowsTheNotes`).
- The last administrator can remove itself, and no route brings one back
  (`Invites.LockOutIsPermanent`; exact step in `HowTheLastAdministratorGoes`).
- A Citi date line with a huge day or year raises instead of being skipped
  (`CitiRoundTrip.RaisingLine`; exactly when in `CitiParser.ParsingRaisesIff`).

## Model

| member | source | states |
|---|---|---|
| `SnapshotProtocol.SingleFlight` | src/services/snapshot/service.py:46-68 | In every run, over all interleavings of callers, waiters, failures, cancellations and clock ticks, at most one fetch is unfinished and `_refresh_task` points to it |
| `SnapshotProtocol.LateWaiterClearsNothingNew` | src/services/snapshot/service.py:64-68 | The only pointer a waking or cancelled waiter clears is the one to its own finished task, and then no fetch is under way |
| `SnapshotProtocol.ReturnedSnapshotsAreFresh` | src/services/snapshot/service.py:26-33 | A cached request returns a genuine fetch no older than the maximum age at call time; a forced one returns a fetch stamped at or after the call |
| `SnapshotProtocol.StoredTimeNeverGoesBack` | src/services/snapshot/service.py:70-81 | Without invalidation the stored timestamp never goes back, along any continuation of any run |
| `SnapshotProtocol.StoreHoldsNewestFetch` | src/services/snapshot/service.py:70-81 | Nothing stored is older than any successful fetch, and without invalidation a successful fetch stays stored |
| `SnapshotProtocol.FailedFetchReachesItsWaiters` | src/services/snapshot/service.py:55-68 | A failed or cancelled fetch leaves the store alone, lets the next caller start a new fetch, and makes every coroutine that waits for it raise, with CancelledError if it was cancelled |
| `SnapshotProtocol.NoWaiterSurvivesItsFetch` | src/services/snapshot/service.py:64-68 | On no continuation of the run does a waiter of a failed or cancelled fetch receive a snapshot |
| `SnapshotProtocol.WaitersFollowTheirTask` | src/services/snapshot/service.py:64-68 | A waiter receives the answer of the task it waits for and of no other |
| `SnapshotProtocol.JoinersShareTheFetch` | src/services/snapshot/service.py:55-65 | Callers that arrive during a fetch wait for that fetch and create none |
| `SnapshotProtocol.ForcedPassStartsAFetchIff` | src/services/snapshot/service.py:55-62 | A forced pass through the lock starts its own fetch exactly when none is under way |
| `SnapshotProtocol.WhatAPassDoes` | src/services/snapshot/service.py:46-62 | In every run a pass through the lock gives the stored snapshot exactly when it is fresh and not forced away, joins the fetch under way if there is one, and otherwise starts exactly one; it never touches the store |
| `SnapshotProtocol.FreshStoreAnswersAtOnce` | src/services/snapshot/service.py:26-30 | A cached request is answered on the spot with the stored snapshot exactly when that is fresh |
| `SnapshotProtocol.WaitersClearTheirTask` | src/services/snapshot/service.py:64-68 | A waiter that continues leaves no pointer to its finished task |
| `SnapshotProtocol.ForcedRefreshJoinsAnOlderRequestIff` | src/services/snapshot/service.py:32-68 | In every run a forced refresh answers with one task or nothing, and that task was requested before the call exactly when a fetch under way at the call is still under way when the caller gets the lock |
| `SnapshotProtocol.ForcedRefreshMayJoinAnOlderRequest` | src/services/snapshot/service.py:32-62 | A run in which it does |
| `SnapshotProtocol.StepKeepsInv` | src/services/snapshot/service.py:46-81 | The invariant behind the run theorems, kept by every step |
| `SnapshotService.InMemorySnapshotStore.SetSnapshot` | src/services/snapshot/store.py:34-35 | The new snapshot replaces whatever was stored |
| `SnapshotService.InMemorySnapshotStore.Invalidate` | src/services/snapshot/store.py:37-38 | Nothing is stored afterwards |
| `SnapshotService.InMemorySnapshotStore.IsStale` | src/services/snapshot/store.py:40-50 | Fresh exactly when something is stored and its age does not exceed the maximum |
| `SnapshotService.TransactionSnapshotService.constructor` | src/services/snapshot/service.py:14-24 | A new service is in the initial state of the protocol |
| `SnapshotService.TransactionSnapshotService.GetSnapshot` | src/services/snapshot/service.py:26-30 | Answers without the lock exactly when the stored snapshot is fresh |
| `SnapshotService.TransactionSnapshotService.GetCachedSnapshotTimestamp` | src/services/snapshot/service.py:38-44 | The timestamp of the stored snapshot, unless it is stale or missing |
| `SnapshotService.TransactionSnapshotService.EnsureSnapshot` | src/services/snapshot/service.py:46-62 | Under the lock, the object moves as the protocol does: answer from the store, join, or start one fetch |
| `SnapshotService.TransactionSnapshotService.FetchAndStoreSnapshot` | src/services/snapshot/service.py:70-81 | A finished fetch is stored and stamped as in the protocol |
| `SnapshotService.TransactionSnapshotService.AwaitTask` | src/services/snapshot/service.py:64-68 | The waiter's clean-up is that of the protocol and it learns how its own task ended |
| `MetricsManagers.ManagersAreCoherent` | src/services/tx_stats/manager.py:47-81 | In every run of any number of managers over one snapshot service: at most one unfinished job, `_task` points to it, DONE iff a result, FAILED iff an error, RUNNING iff a job is at work or the last one was cancelled |
| `MetricsManagers.DoneRecordsAreDated` | src/services/tx_stats/runner.py:32-35 | In every run the statistics of a DONE record were fetched before it was updated, and neither lies in the future |
| `MetricsManagers.RunningIsTruthfulUnlessCancelled` | src/services/tx_stats/runner.py:27-40 | RUNNING means a job is at work if and only if the last recompute was not cancelled while running |
| `MetricsManagers.WithoutCancellationRunningIsTruthful` | src/services/tx_stats/runner.py:23-40 | In runs without cancellation RUNNING holds exactly when a recompute task is unfinished |
| `MetricsManagers.LateCallbackClearsNothingNew` | src/services/tx_stats/manager.py:72-81 | A late done-callback clears at most the pointer to its own task, and changes nothing else of the record |
| `MetricsManagers.CancellationWedgesForever` | src/services/tx_stats/manager.py:49-52 | After a cancelled recompute, along every continuation the manager reports RUNNING, holds no result and never creates another task |
| `MetricsManagers.CancelledFetchWedgesTheManager` | src/services/tx_stats/runner.py:36-40 | A run: cancelling the shared fetch is enough, because CancelledError is no Exception |
| `MetricsManagers.EarlyReturnIsFromThatInstant` | src/services/tx_stats/manager.py:29-41 | An early return hands out metrics built from a fetch stamped like the stored snapshot |
| `MetricsManagers.EarlyReturnAgrees` | src/services/snapshot/metrics.py:20-29 | With distinct fetch times, an early return equals what building from the stored snapshot would give, whatever was replaced or cancelled meanwhile |
| `MetricsManagers.EarlyReturnAgreesIff` | src/services/tx_stats/manager.py:29-41 | Without that assumption an early return agrees exactly when the fetch it was built from, stamped alike, builds to the same statistics |
| `MetricsManagers.EqualTimestampsAgreeIff` | src/services/tx_stats/manager.py:35-41 | For any two answers fetched at one clock reading the manager returns the statistics of the first, current exactly when the second builds to the same |
| `MetricsManagers.EqualTimestampsBreakAgreement` | src/services/tx_stats/manager.py:35-41 | For every kind and every ledger, a changed total suffices to make them differ |
| `MetricsManagers.StepKeepsInv` | src/services/tx_stats/manager.py:47-81 | The joint invariant of managers and snapshot service, kept by every step |
| `MetricsFreshness.EnsureCurrentAnswersIff` | src/services/tx_stats/manager.py:29-42 | In every run `ensure_current` leaves DONE exactly when a snapshot no older than the maximum age is stored and the held statistics carry its timestamp; then, and while RUNNING, it changes nothing, and otherwise it starts exactly one unforced task |
| `MetricsFreshness.RefreshStartsATaskIff` | src/services/tx_stats/manager.py:44-70 | A refresh starts exactly one forced task unless the manager is RUNNING; no other manager and nothing in the snapshot service changes |
| `MetricsFreshness.ResultsAreAsRecentAsTheRequest` | src/services/tx_stats/runner.py:27-35 | On every continuation, once a manager is DONE with the task a request started, its statistics stem from a fetch no older than a refresh, or at most the maximum age older than any other request |
| `MetricsManagerObject.MetricsManager.EnsureCurrent` | src/services/tx_stats/manager.py:29-42 | The object moves as the segment that `MetricsFreshness.EnsureCurrentAnswersIff` characterizes: it starts no task while RUNNING or current, and one otherwise |
| `MetricsManagerObject.MetricsManager.Refresh` | src/services/tx_stats/manager.py:44-45 | The object moves as the segment that `MetricsFreshness.RefreshStartsATaskIff` characterizes |
| `MetricsManagerObject.MetricsManager.Start` | src/services/tx_stats/manager.py:47-70 | Creates a task only when none is running, and resets the record |
| `MetricsManagerObject.MetricsManager.RecomputeBegins` | src/services/tx_stats/runner.py:23-26 | The record at the start of a recompute |
| `MetricsManagerObject.MetricsManager.RecomputeSucceeds` | src/services/tx_stats/runner.py:32-35 | The record after the provider answered |
| `MetricsManagerObject.MetricsManager.RecomputeFails` | src/services/tx_stats/runner.py:36-40 | The record after the provider raised |
| `MetricsManagerObject.MetricsManager.OnTaskDone` | src/services/allegro_stats/manager.py:71-80 | Clears `_task` only if it is this task |
| `VaultSessions.StoreRefinesFlatMap` | src/services/vault_session_store.py:19-74 | For every operation sequence under a non-decreasing clock, the nested map with lazy eviction answers like a flat map of (user, session) without eviction; no user keeps an empty inner map |
| `VaultSessions.ClockSetBackIsVisible` | src/services/vault_session_store.py:68-72 | Witness: the condition on the clock is needed |
| `VaultSessions.VaultSessionStore.Create` | src/services/vault_session_store.py:19-28 | Adds exactly one session |
| `VaultSessions.VaultSessionStore.GetActiveSession` | src/services/vault_session_store.py:57-74 | Answers exactly for unexpired sessions, and evicts the one it found expired |
| `VaultSessions.VaultSessionStore.GetUserKey` | src/services/vault_session_store.py:30-35 | The key of an active session, with the same eviction |
| `VaultSessions.VaultSessionStore.Invalidate` | src/services/vault_session_store.py:44-51 | Removes one session, and the user when it was the last |
| `VaultSessions.VaultSessionStore.InvalidateAllForUser` | src/services/vault_session_store.py:53-55 | Removes all sessions of one user and no others |
| `SecretVault.ReadYourWrites` | src/services/user_secrets_service.py:195-243 | In every run of all users' operations, a read answers with the last plaintext written for the secret, and each way to fail has its exact condition; a service-written secret read in a live session of its owner never fails to decrypt |
| `SecretVault.OnlyTheWrappingKeyDecrypts` | src/services/secret_crypto_service.py:70-109 | Two-layer decryption inverts encryption under the wrapping key and fails under every other key |
| `SecretVault.UnlockChecksThePassphrase` | src/services/vault_service.py:53-71 | Unlocking succeeds exactly for passphrases that derive the key of the set-up, an empty stored salt being replaced by a fresh one |
| `SecretVault.EveryReleaseIsAudited` | src/services/user_secrets_service.py:221-231 | In every run the use records name, in order, the owner and the secret of every plaintext released |
| `SecretVault.OnlyUseReleases` | src/services/user_secrets_service.py:195-243 | No other operation gives out a plaintext |
| `SecretVault.StepKeepsInv` | src/services/user_secrets_service.py:55-243 | The invariant behind the run theorems, kept by every operation |
| `SecretVault.RunKeepsInv` | src/services/user_secrets_service.py:55-243 | The invariant holds in every reachable state |
| `SecretHistory.StateFollowsTheLog` | src/services/user_secrets_service.py:55-243 | In every run the log of events and outcomes alone gives the clock, the users and vaults, every secret with owner, kind, alias, user name and usage count, the whole audit log, and which sessions answer |
| `SecretHistory.OutcomesFollowTheLog` | src/services/vault_service.py:34-101 | And it decides the outcome of every next request: the plaintext of a read, whether a passphrase unlocks, and the exact error of each refusal |
| `SecretHistory.LockEndsTheSession` | src/services/vault_service.py:73-76 | After a lock, on every continuation without an unlock of that user and session, no secret is read, created or rotated with it |
| `SecretHistory.RestartEndsEverySession` | src/services/vault_session_store.py:14-17 | Sessions live in memory only: after a restart none of them reads a secret until it is opened again |
| `SecretServices.VaultService.SetupVault` | src/services/vault_service.py:34-51 | Rows and outcome as the operation whose effects `SecretHistory` ties to the log |
| `SecretServices.VaultService.UnlockVault` | src/services/vault_service.py:53-71 | Rows, sessions and outcome as the operation whose effects `SecretHistory` ties to the log |
| `SecretServices.VaultService.LockVault` | src/services/vault_service.py:73-76 | Rows, sessions and outcome as the operation of which `SecretHistory.LockEndsTheSession` says that it ends the session |
| `SecretServices.VaultService.IsUnlocked` | src/services/vault_service.py:81-84 | True exactly for a live session |
| `SecretServices.VaultService.RequireUserKey` | src/services/vault_service.py:93-101 | The key of a live session or the exact exception, evicting an expired session |
| `SecretServices.UserSecretsService.CreateSecret` | src/services/user_secrets_service.py:55-92 | Rows, sessions and outcome as the operation whose effects `SecretHistory` ties to the log |
| `SecretServices.UserSecretsService.UpdateSecret` | src/services/user_secrets_service.py:94-140 | As above, with metadata and secret each optional |
| `SecretServices.UserSecretsService.DeleteSecret` | src/services/user_secrets_service.py:157-176 | As above |
| `SecretServices.UserSecretsService.ServeAll` | src/services/user_secrets_service.py:55-243 | Serving any sequence of requests drives the objects through the states and outcomes of the history of those requests |
| `SecretServices.UserSecretsService.GetSecretForInternalUse` | src/services/user_secrets_service.py:195-243 | As above, with usage count and audit record |
| `Similarity.FindSimilar` | src/services/categorization/similarity_engine.py:27-65 | The loop, sort and slice compute the list that `ReturnedCandidatesQualify`, `MissingCandidatesScoreLess` and `BestMatchesComeFirst` characterize |
| `Similarity.ReturnedCandidatesQualify` | src/services/categorization/similarity_engine.py:34-56 | Every returned match is another transaction of the candidates that reaches the threshold, with its rounded score and explaining field |
| `Similarity.MissingCandidatesScoreLess` | src/services/categorization/similarity_engine.py:35-65 | A candidate is missing only if it is the query itself, stays below the threshold, or was cut off by a full list in which nothing scores less |
| `Similarity.BestMatchesComeFirst` | src/services/categorization/similarity_engine.py:58-65 | Scores descend; equal scores ascend by category name ignoring case, then by transaction id |
| `Similarity.RepetitionsAreKept` | src/services/categorization/similarity_engine.py:67-93 | A known transaction that repeats the query is always kept, and scores one when merchant and notes are present |
| `Similarity.SimilarForgetsOrder` | src/services/categorization/similarity_engine.py:34-65 | With distinct transaction ids, any reordering of the candidates gives the same list |
| `Similarity.DroppedDoNotOutrank` | src/services/categorization/similarity_engine.py:58-65 | No candidate that reached the threshold but was cut ranks strictly above a returned one |
| `Similarity.ReturnedScoresAreProper` | src/services/categorization/similarity_engine.py:45-56 | Every returned score is a four-digit number between 0.35 and 1 and stems from a candidate; rounding never crosses the threshold |
| `Similarity.WeightsAreAnAverage` | src/services/categorization/similarity_engine.py:115-155 | In every weight table the weights are non-negative and sum to one |
| `Similarity.TheTellingFieldWeighsMost` | src/services/categorization/similarity_engine.py:115-155 | The merchant of a Blik payment, the notes of an Allegro order and a title that is alone outweigh every other field |
| `Similarity.WhichFieldSuffices` | src/services/categorization/similarity_engine.py:115-155 | Which single field can reach the threshold on its own, for every source type and every combination of present fields |
| `Similarity.TextSimilarityIsTheBetter` | src/services/categorization/similarity_engine.py:157-170 | Zero if a text is empty, otherwise the greater of the ratio and the share of common tokens |
| `Similarity.SimilarityFallsWithDistance` | src/services/categorization/similarity_engine.py:95-113 | Amount similarity depends on how many buckets lie between the amounts |
| `Similarity.BucketHoldsTheAmount` | src/services/categorization/amount_bucketizer.py:26-31 | The label says between which bounds the absolute amount lies |
| `Similarity.ScoreInUnit` | src/services/categorization/similarity_engine.py:67-93 | A score lies between zero and one |
| `Similarity.ScoreInTwentieths` | src/services/categorization/similarity_engine.py:67-155 | How many twentieths of the score each of the four similarities is worth, for every source type and every combination of present fields |
| `Similarity.MatchedBy` | src/services/categorization/similarity_engine.py:89-92 | The reported field beats every other field by contribution, then priority |
| `Similarity.MatchedByIff` | src/services/categorization/similarity_engine.py:89-92 | Which field explains a match, as four conditions on the contributions |
| `Numbers.RoundingIsMonotone` | src/services/categorization/similarity_engine.py:53 | Rounding to four digits keeps the order of scores |
| `Numbers.RoundingIsToTheNearest` | src/services/categorization/similarity_engine.py:53 | A rounded score has four digits, is at most half a digit away, and even when exactly half-way |
| `Ranking.RankedPair` | src/services/categorization/similarity_engine.py:58-64 | What the sort key means for two entries |
| `Text.StringLeIsLexicographic` | src/services/categorization/similarity_engine.py:61-62 | Names and ids are compared by prefix or first difference |
| `Suggestions.AggregateMatches` | src/services/categorization/service.py:100-145 | The dictionary loop, sort and slice compute the ranking that `SuggestionsSayTheirCategory`, `MissingCategoriesScoreLess` and `BestSuggestionsComeFirst` characterize |
| `Suggestions.SuggestionsSayTheirCategory` | src/services/categorization/service.py:115-137 | Every suggestion carries the rounded one-minus-product-of-misses of its category, under the name its first match gives it |
| `Suggestions.MissingCategoriesScoreLess` | src/services/categorization/service.py:138-145 | A matched category is missing only from a full list in which nothing scores less |
| `Suggestions.BestSuggestionsComeFirst` | src/services/categorization/service.py:138-145 | Scores descend; equal scores ascend by name ignoring case, then by category id |
| `Suggestions.SuggestForTransaction` | src/services/categorization/service.py:53-77 | Bucketing, matching, aggregation and ranking composed; `RepetitionsAreSuggested` says what comes of it |
| `Suggestions.SuggestionsForgetCandidateOrder` | src/services/categorization/service.py:53-77 | The final suggestions depend only on the set of candidates |
| `Suggestions.AggregateScoreForgetsOrder` | src/services/categorization/service.py:115-125 | A category's combined score is the same for every order of the matches |
| `Suggestions.MissForgetsOrder` | src/services/categorization/service.py:125 | The product of misses is invariant under permutation |
| `Suggestions.CombinedScoreDominates` | src/services/categorization/service.py:125 | The combined score lies in [0, 1] and is at least every single match's |
| `Suggestions.MoreEvidenceNeverHurts` | src/services/categorization/service.py:125 | Inserting one more match anywhere never lowers the combined score |
| `Suggestions.BestIsTheFirstHighest` | src/services/categorization/service.py:126-127 | The match that gives the reason is the first with the highest score |
| `Suggestions.ReasonNamesTheBestMatch` | src/services/categorization/service.py:126-154 | The reason of a returned suggestion names the field by which the first best match of its category was found |
| `Suggestions.SuggestionsAreSound` | src/services/categorization/service.py:129-137 | Every returned suggestion scores between 0.35 and 1, at least every match of its category after rounding, with the reason of one of its matches |
| `Suggestions.RepetitionsAreSuggested` | src/services/categorization/service.py:53-98 | End to end: asking about a transaction that repeats a known one in title, merchant, notes and amount always brings a suggestion, with score one when merchant and notes are present |
| `Suggestions.EachCategoryOnce` | src/services/categorization/service.py:115-137 | Before truncation every matched category occurs exactly once |
| `Suggestions.TheLimitCutsTheWorst` | src/services/categorization/service.py:138-145 | Whatever the limit cuts off ranks strictly behind everything returned |
| `Preprocessor.NormalizeGivesNormalForm` | src/services/categorization/preprocessor.py:33-47 | Output: ASCII, no run of six digits, no capitals, no leading, trailing or doubled space |
| `Preprocessor.NormalizeIsIdempotent` | src/services/categorization/preprocessor.py:33-47 | Normalizing twice is normalizing once |
| `Preprocessor.TokensAreProper` | src/services/categorization/preprocessor.py:49-53 | No token is empty or contains a space; there are none exactly when the normal form is empty |
| `Preprocessor.PlainWordsStay` | src/services/categorization/preprocessor.py:33-47 | Of ASCII text without six digits in a row, normalizing keeps every word in order and only lowers it |
| `Preprocessor.TokensAreTheWords` | src/services/categorization/preprocessor.py:49-53 | And the tokens are the words of the lowered text |
| `Preprocessor.PolishLettersLoseTheirMarks` | src/services/categorization/preprocessor.py:10-31 | Polish letters become their base letters, in either case |
| `Matching.MatchTransactions` | src/services/matcher.py:11-41 | Nested loops and index set compute the results and unmatched items that `MatchesAreExact` and `UnmatchedAreExact` characterize |
| `Matching.MatchesAreExact` | src/services/domain/order_payment.py:20-25 | A result holds, in order and as often as they occur, exactly the candidates of the same amount up to the sign and the same day (record) or up to six days earlier (payment), and its status says whether the transaction bears the tag |
| `Matching.UnmatchedAreExact` | src/services/matcher.py:38-40 | The unmatched items are, in order, exactly those for which no transaction is so |
| `Matching.MatchOne` | src/services/matcher.py:23-27 | One pass collects the fitting items and remembers exactly their indexes |
| `Matching.EveryItemIsAccountedFor` | src/services/matcher.py:38-40 | An item is unmatched exactly when it occurs in no result |
| `Matching.MatchWithUnmatched` | src/services/firefly_enrichment_service.py:22-34 | No candidates and a failing Firefly are errors; otherwise matching over the fetched window |
| `Matching.FetchedTransactions` | src/services/firefly_enrichment_service.py:25-32 | Looked at are the named transactions from the first candidate to seven days after the last one |
| `Matching.WindowLosesNothing` | src/services/firefly_enrichment_service.py:25-34 | For every ledger and non-empty candidates, the window yields the same unmatched items and the same non-empty results as the whole ledger |
| `Matching.WindowIsTight` | src/settings.py:30 | A window of n future days finds everything for all inputs exactly when n is at least six |
| `Evidence.ReplayingPaymentsIsANoOp` | src/services/domain/order_payment.py:27-43 | Applying a list of payments again, each update built on the last result, changes nothing |
| `Evidence.ReplayKeepsDescriptionAndTags` | src/services/domain/bank_record.py:68-82 | For mixed lists with bank records, description and tags are replay-stable |
| `Evidence.ReplayingARecordGrowsTheNotes` | src/services/domain/bank_record.py:74 | A bank record's notes grow strictly on every replay |
| `Evidence.EarlierTextStays` | src/services/domain/evidence.py:10-13 | Earlier notes and descriptions stay as prefixes, tags are only added, other fields do not change |
| `Evidence.PaymentsLeaveTheirMark` | src/services/domain/order_payment.py:27-43 | Every payment with details leaves its details in the notes and its tag |
| `Evidence.AddLine` | src/services/domain/evidence.py:10-13 | The old text stays in front and the new line ends the result |
| `Evidence.PrettyPrint` | src/services/domain/bank_record.py:21-66 | The loop prints, in order, the fields that the three options select |
| `Evidence.LinesAreTheSelectedFields` | src/services/domain/bank_record.py:43-66 | One line for every selected field, in order, with its name and value, and the currency of an amount |
| `Evidence.NotesListTheRecords` | src/services/domain/bank_record.py:74-77 | Attaching records lists their texts behind the earlier notes, one to a line, and tags the transaction |
| `Evidence.RecordExtendsTheDescription` | src/services/domain/bank_record.py:69-73 | A record adds its details behind a semicolon unless the description holds them in any case |
| `Evidence.PaymentAddsALine` | src/services/domain/order_payment.py:27-43 | A payment adds its details as one more line unless the notes hold them in any case, and its tag; the description stays |
| `Evidence.RecordTextIsNotEmpty` | src/services/domain/bank_record.py:31-38 | A record always prints something |
| `ApplyJobs.AutoDecisionsResolve` | src/services/allegro_application_service.py:243-263 | With distinct transactions among the cached results, every automatic decision resolves to the one match it was made from |
| `ApplyJobs.FreshMatchesResolve` | src/services/blik_application_service.py:182-195 | So every automatic decision made right after matching a ledger with distinct ids resolves to its own, comparing match |
| `ApplyJobs.AutoFailuresAreReal` | src/services/blik_application_service.py:277-326 | Then an outcome fails exactly when the update cannot be built or Firefly refuses it |
| `ApplyJobs.UnresolvedDecisions` | src/services/allegro_application_service.py:217-228 | A decision is unknown exactly when no result has its transaction, and invalid exactly when the deciding result holds no match of its name |
| `ApplyJobs.TheLastPageDecides` | src/services/allegro_application_service.py:215-228 | With repeated transactions, an automatic decision resolves to its own match exactly when that match is the last of its name in the last result for the transaction, and to anything exactly when that result holds the name |
| `ApplyJobs.TwoPagesResolveIff` | src/services/allegro_application_service.py:215-228 | For any ledger and any two pages whose windows share a transaction: the first page's automatic decision resolves to its own match exactly when the second page matches it too, as the last of its name |
| `ApplyJobs.OverlappingPagesBreakAutoApply` | src/services/allegro_application_service.py:215-228 | Every transaction matched once on one page and by nothing on a later page whose window holds it makes its automatic decision fail |
| `ApplyJobs.CollidingPagesAttachTheOther` | src/services/allegro_application_service.py:199-204 | If the later page ends with another payment of the same short id, that one is attached |
| `ApplyJobs.TwoVersionsOfOnePayment` | src/services/allegro_application_service.py:199-204 | Such pages exist: one payment id with different details under two pages |
| `ApplyJobs.AllegroJobAccounts` | src/services/allegro_application_service.py:213-241 | At every suspension and at DONE, for any number of decisions: applied + failed is the number of outcomes, the k-th outcome belongs to the k-th decision, and the total is reached at DONE |
| `ApplyJobs.BlikJobAccounts` | src/services/blik_application_service.py:219-229 | The same for Blik, which shows no progress before all decisions were applied |
| `ApplyJobs.OutcomesAreInOrder` | src/services/blik_application_service.py:286-326 | One outcome per decision, in order |
| `ApplyJobs.AllAppliedMeansNoProblem` | src/services/allegro_application_service.py:230-238 | Everything counts as applied exactly when no outcome reports a problem |
| `ApplyJobs.LimitZeroMeansTheOpposite` | src/services/blik_application_service.py:182-184 | Blik and Allegro select alike except for limit 0, where one selects nothing and the other everything |
| `ApplyJobs.SelectionTakesTheFirst` | src/services/blik_application_service.py:182-184 | Selected are, in order, the first results with exactly one match; a negative limit leaves out the last ones |
| `ApplyJobs.SelectionAttachesIff` | src/services/blik_application_service.py:328-346 | For every naming and every cached result, selecting an item attaches that item exactly when it is the last of its name in the deciding result |
| `ApplyJobs.SelectedRecordIsAttached` | src/services/blik_application_service.py:328-346 | With bar-free fields and no hash collision, selecting a record attaches one that prints the same in every field, and the very record exactly when it is the last of its id |
| `ApplyJobs.BarFreePayloadsAreUnambiguous` | src/api/mappers/blik.py:21-37 | Without bars in the fields, equal payloads have equal parts |
| `ApplyJobs.BlikIdsAreShort` | src/api/mappers/blik.py:21-37 | A match id is the beginning of the hash, at most sixteen characters |
| `ApplyJobs.SelectingOneRecordCanAttachAnother` | src/api/mappers/blik.py:21-37 | Whatever the hash, two different records whose fields contain bars can share an id, and choosing one attaches the other |
| `ApplyLedger.ReplayingAJobIsANoOp` | src/services/allegro_application_service.py:229-230 | Running the same job again with the same answers leaves the ledger as it was |
| `ApplyLedger.SecondUpdateOverwritesTheFirst` | src/services/allegro_application_service.py:229-230 | Two payments on one cached transaction: exactly when the first is still carried after both updates, for every content of the cached notes and tags and of Firefly's |
| `ApplyLedger.BothReportedButTheFirstSurvivesIff` | src/services/allegro_application_service.py:217-232 | The job reports both as applied in every case, and leaves the first one on the transaction exactly under that condition |
| `ApplyLedger.AppliedButLost` | src/services/allegro_application_service.py:229-232 | Two payments that both compare true with the transaction, both reported as applied, the first one gone |
| `ApplyLedger.OthersStay` | src/services/firefly_enrichment_service.py:46-48 | A job touches no transaction it sent no update for |
| `ApplyLedger.AutoJobAttachesEveryMatch` | src/services/allegro_application_service.py:213-263 | With distinct transactions, an automatic job leaves every selected transaction with exactly its own match attached, or untouched where Firefly refuses, and nothing else in the ledger changes |
| `ApplyLedger.FreshMatchesMakeAFreshJob` | src/services/blik_application_service.py:172-195 | A job started right after matching a ledger with distinct ids is such a job, and each match is the only candidate that belongs to its transaction |
| `ApplyServices.RunAllegroJob` | src/services/allegro_application_service.py:206-241 | The mutable job ends in the accounted state, and what callers see at each suspension is the first k outcomes |
| `ApplyServices.RunBlikJob` | src/services/blik_application_service.py:212-241 | The mutable job ends in the accounted state, and until then callers see no progress |
| `ApplyServices.ApplyDecisions` | src/services/blik_application_service.py:277-326 | Outcomes and sent updates in order of decisions; the job is untouched |
| `ApplyServices.Apply` | src/services/blik_application_service.py:286-324 | One decision gives its specified outcome and sends at most its specified update |
| `ApplyServices.ApplyJob.Record` | src/services/allegro_application_service.py:231-238 | One more outcome moves exactly one counter |
| `ApplyServices.StartAllegroAutoApply` | src/services/allegro_application_service.py:243-263 | Nothing cached is an error; otherwise the decisions of the selected single matches over all cached pages |
| `ApplyServices.StartBlikAutoApply` | src/services/blik_application_service.py:172-195 | The same for the results of one file |
| `ApplyServices.AllegroStateStore.PutPageMatches` | src/services/allegro_state_store.py:44-53 | Changes one page of one secret; a page fetched again keeps its place |
| `ApplyServices.AllegroStateStore.GetPageMatches` | src/services/allegro_state_store.py:55-62 | The matches cached for one page |
| `ApplyServices.AllegroStateStore.GetAllMatches` | src/services/allegro_state_store.py:64-69 | The matches of all pages of a secret, in page order |
| `ApplyServices.AllegroStateStore.InvalidatePage` | src/services/allegro_state_store.py:71-79 | Removes one page, reports whether it was cached, and leaves no empty page cache |
| `ApplyServices.AllegroStateStore.InvalidateSecret` | src/services/allegro_state_store.py:81-86 | Removes one secret and reports whether it was cached |
| `ApplyServices.NoEmptyPageCaches` | src/services/allegro_state_store.py:75-78 | A secret is cached exactly when one of its pages is |
| `ApplyServices.RefetchingDoesNotMoveAPage` | src/services/allegro_state_store.py:50-53 | Fetching an earlier page again does not make it the deciding one |
| `ApplyServices.ANewPageDecides` | src/services/allegro_state_store.py:64-69 | A page fetched for the first time decides for every transaction it holds |
| `Invites.FlagsAndTokensAgree` | src/api/routers/users.py:51-144 | In every reachable state a user must change the password iff it has no change date iff exactly one unused token is open for it; otherwise none is |
| `Invites.TokensWorkOnce` | src/api/routers/auth.py:112-149 | In every run a token sets a password at most once, unless the same random token is drawn again after its row was deleted with its user |
| `Invites.OldTokensDie` | src/services/db/repository.py:357-378 | After a later invitation or a deletion, every earlier token of the user is refused for ever, with the same proviso |
| `Invites.TokenIsAcceptedIff` | src/api/routers/auth.py:122-128 | A token is accepted exactly when it is the open, unexpired invitation of an active user |
| `Invites.WhoChangesPasswords` | src/services/db/repository.py:68-100 | A password changes only through an unused token of its user or an administrator's invitation |
| `InviteHistory.TablesFollowTheLog` | src/api/routers/users.py:51-228 | After every run each user row and each token row is exactly what the successful requests about it made of it, according to the log alone |
| `InviteHistory.RepliesFollowTheLog` | src/services/guards.py:17-31 | And the log decides which request succeeds next, for every route; administration is refused to everybody but an active superuser, and a refused request changes nothing |
| `InviteHistory.SettingAPasswordSetsIt` | src/api/routers/auth.py:130-142 | When a token sets a password its owner has the new hash, need not change it and the token is used; no other field, user or token changes |
| `InviteHistory.APasswordLasts` | src/services/db/repository.py:68-100 | On every continuation the password stays until its user is invited again or deleted |
| `Invites.LockOutIsPermanent` | src/services/guards.py:17-31 | Once no active superuser is left, no run brings one back or changes the set of users |
| `Invites.HowTheLastAdministratorGoes` | src/api/routers/users.py:154-228 | The last administrator disappears exactly when it demotes, disables or (with others left) deletes itself |
| `Invites.StepKeepsInv` | src/api/routers/users.py:51-228 | The invariant on users and tokens, kept by every route |
| `InviteRoutes.UserDatabase.Bootstrap` | src/services/system/bootstrap.py:15-23 | The route whose effect `InviteHistory.TablesFollowTheLog` states: only into an empty table |
| `InviteRoutes.UserDatabase.CreateInvited` | src/api/routers/users.py:51-96 | The route whose effect `InviteHistory.TablesFollowTheLog` states, with roll-back when a unique constraint is violated |
| `InviteRoutes.UserDatabase.InviteUser` | src/api/routers/users.py:103-151 | The route whose effect `InviteHistory.TablesFollowTheLog` states, with roll-back when a unique constraint is violated |
| `InviteRoutes.UserDatabase.ChangeActive` | src/api/routers/users.py:158-183 | The route whose effect `InviteHistory.TablesFollowTheLog` states |
| `InviteRoutes.UserDatabase.ChangeSuperuser` | src/api/routers/users.py:190-213 | The route whose effect `InviteHistory.TablesFollowTheLog` states |
| `InviteRoutes.UserDatabase.DeleteUser` | src/api/routers/users.py:220-228 | The route whose effect `InviteHistory.TablesFollowTheLog` states: the user and its tokens |
| `InviteRoutes.UserDatabase.ChoosePassword` | src/api/routers/auth.py:113-149 | Checks, password and token together, as the operation whose effect `InviteHistory.SettingAPasswordSetsIt` states |
| `InviteRoutes.UserDatabase.ServeAll` | src/api/routers/users.py:51-228 | Serving any sequence of requests drives the tables through the states and replies of the run of those requests |
| `InviteRoutes.UserDatabase.TokensInvalidatePrevious` | src/services/db/repository.py:357-378 | Every unused token of the user, and no other, becomes used; returns their number |
| `InviteRoutes.UserDatabase.CreateUser` | src/services/db/repository.py:40-66 | A row with the derived change date, or a violated constraint and no change |
| `Metrics.ScreeningAgreesWithIndex` | src/services/firefly_tx_service.py:30-48 | For every ledger and month the screening list has as many entries as `categorizable_by_month` says |
| `Metrics.ScreeningCommutesWithMonth` | src/services/tx_application_service.py:40-48 | Screening a month's range is restricting the screened ledger to the month |
| `Metrics.TxCountersAddUp` | src/services/snapshot/metrics.py:130-164 | The four counters add up to the uncategorized count, and the months to `categorizable` |
| `Metrics.TxCountersCount` | src/services/snapshot/metrics.py:130-164 | Each counter counts the transactions that one condition describes: the first reason that holds a transaction back |
| `Metrics.BlikCountersCount` | src/services/snapshot/metrics.py:77-116 | The same for the Blik counters and, per month, their histograms |
| `Metrics.AllegroCountersCount` | src/services/snapshot/metrics.py:43-65 | The same for the Allegro counters and histogram |
| `Metrics.ScreeningIsOneCondition` | src/services/firefly_tx_service.py:36-48 | The screening list keeps, in order, the transactions that one condition describes |
| `Metrics.GroupingIsExact` | src/services/tx_stats/helpers.py:19-30 | Months ascend, counts are exact, nothing is lost |
| `Metrics.BuildIsStamped` | src/services/snapshot/metrics.py:58-65 | Every statistic carries its snapshot's fetch time |
| `Calendar.MonthIsARange` | src/services/tx_application_service.py:96-100 | The inclusive range from first to last day holds exactly the dates of the month |
| `Calendar.DayNumbersCountDays` | src/services/domain/order_payment.py:24-25 | The next day number belongs to the next day of the calendar and to no other, so tolerances count days |
| `CitiParser.Parse` | src/services/citi_import/parser.py:32-80 | The loop computes the specified result on every input and terminates |
| `CitiParser.ExcludingPositivesFilters` | src/services/citi_import/parser.py:65-67 | Excluding positives is filtering the full result, with the same warnings and exceptions |
| `CitiParser.ExcludingKeepsTheRest` | src/services/citi_import/parser.py:65-67 | Kept are, in order, exactly the transactions whose amount is not above zero |
| `CitiParser.ParsingRaisesIff` | src/services/citi_import/parser.py:94-100 | Parsing raises exactly when a line at which the loop looks for a date has three words, readable numbers, a known month, and a day or year outside the 32-bit integers |
| `CitiParser.DateRaisesIff` | src/services/citi_import/parser.py:82-100 | The same for reading one line |
| `CitiParser.MonthsOfSpringAreKnown` | src/services/citi_import/parser.py:8-22 | The names of the months from January to April are read |
| `CitiParser.MonthsOfSummerAreKnown` | src/services/citi_import/parser.py:8-22 | From May to August |
| `CitiParser.MonthsOfAutumnAreKnown` | src/services/citi_import/parser.py:8-22 | From September to December, October with and without its mark |
| `CitiRoundTrip.HugeDayRaises` | src/services/citi_import/parser.py:82-100 | Every text that starts with such a line, whatever follows, makes parsing raise |
| `CitiRoundTrip.RaisingLine` | src/services/citi_import/parser.py:82-100 | For example 3000000000 sty 2024 |
| `CitiRoundTrip.RenderedTextComesBack` | src/services/citi_import/parser.py:32-117 | Parsing rendered blocks with any other lines between them gives back exactly those transactions; every block with an unreadable amount, and a block cut off at the end, costs one warning that names its line |
| `CitiRoundTrip.DateComesBack` | src/services/citi_import/parser.py:82-100 | Reading a printed date gives the date |
| `CitiRoundTrip.AmountComesBack` | src/services/citi_import/parser.py:102-117 | Reading a printed amount gives its number and currency |
| `OrderGrouping.GroupOrders` | src/services/allegro/get_order_result.py:401-412 | The dictionary loop gives one payment per id in order of first appearance, each with its orders in order |
| `OrderGrouping.EachOrderInOnePayment` | src/services/allegro/get_order_result.py:406-412 | The payments together hold exactly the orders; ids are distinct; no payment is empty |
| `OrderGrouping.PaymentsHoldTheirOrders` | src/services/allegro/get_order_result.py:404-412 | Each payment holds, in order, exactly the orders paid with its id |
| `OrderGrouping.IdsInOrderOfAppearance` | src/services/allegro/get_order_result.py:404-407 | Payments come in the order in which their ids first appear |
| `OrderGrouping.MoneyIsConserved` | src/services/allegro/get_order_result.py:317-330 | The payments' known totals add up to the orders' known totals |
| `OrderGrouping.OrdersCostTheirOffers` | src/services/allegro/get_order_result.py:166-184 | Known totals are the prices of all offers, times their quantities, plus the deliveries |
| `OrderGrouping.SimplifiedTitle` | src/services/allegro/get_order_result.py:77-102 | Of the cleaned, split and formatted title, the longest beginning of at most three words and 32 characters |
| `OrderGrouping.HyphenatedPartsAreFormatted` | src/services/allegro/get_order_result.py:80-84 | Of a hyphenated word, parts longer than two characters are capitalized and the others lowered |
| `OrderGrouping.CleaningKeepsWords` | src/services/allegro/get_order_result.py:86 | Cleaning keeps, in order, exactly the word characters, white space and hyphens |

## Left out

- HTTP routing, cookies, payload validation and DTO mapping other than the Blik match id: no state of their own.
- Firefly, Allegro and the clock are an environment that answers or fails; date ranges are inclusive and `None` in an update leaves a field unchanged.
- Real cryptography, hashing and JWT: ciphertexts are symbolic, the key derivation and the match id hash are arbitrary functions; UTF-8 failures are not modelled.
- Database races and commits that fail: each route or service call is one atomic transaction.
- Float rounding noise: scores, amounts and totals are exact reals; `SequenceMatcher.ratio` is an arbitrary function into [0, 1].
- Unicode: NFKD is an arbitrary function that leaves ASCII alone, lower-casing is ASCII only (and Ź for Polish months), decimal digits are ASCII.
- Dates so late that adding the window or the tolerance passes the year 9999.
- pandas' limits on dates: the monthly grouping takes every calendar date.
- Transaction fields that no modelled rule reads: type, currency, foreign amounts, accounts.
- Audit metadata, `last_used_at` and other timestamps of secret rows, `created_by` of tokens, and `list_secrets`.
- `change_passphrase`, which the source does not implement, and session expiry queries of the vault service.
- The Blik state store and the two job tables: plain dictionaries with one write and one read.
- The FAILED branch of the Blik job: nothing it guards can raise an Exception in the model.
- Cancelling an apply job, and restarts of the process other than losing vault sessions.
- CSV reading, ZIP and CSV rendering, file paths, logging, settings and migrations.
- OrderGrouping.SimplifiedTitle: which characters are word characters, and Python's `capitalize` and `lower`, are parameters.
- The event loop: the snapshot service and the manager objects are tied to their protocols step by step; which coroutine runs next is modelled in the protocols alone.
- CitiRoundTrip.RenderedTextComesBack: lines end with a line feed; other line breaks are modelled by the parser but not rendered.
