# Verification of the attendance platform

A Dafny model of the platform's stateful core, with its theorems. `dafny verify dfyconfig.toml`
checks everything.

| part | files | what is modelled |
|---|---|---|
| sessions | `session/SessionLedger.dfy`, `SessionInvariant.dfy`, `SessionTheorems.dfy`, `SessionEffects.dfy`, `SessionCleanup.dfy`, `AuthService.dfy` | refresh-token rotation with reuse detection, token versions, password reset, nightly cleanup |
| browser tab | `session/TabClient.dfy`, `TabSession.dfy`, `TabReplay.dfy`, `TabRequests.dfy` | the single-flight refresh that pages and live feeds of the dashboard share, composed with the server in every interleaving; what a refresh that ends without its answer can lead to |
| live feed | `feed/Sse.dfy`, `feed/EventBus.dfy` | the frame printer, the incremental parser, the bounded local queues |
| recognition index | `index/FaceIndex.dfy`, `FaceSearch.dfy`, `VectorCodec.dfy`, `Registry.dfy`, `RegistryEffects.dfy`, `RegistryInterleaving.dfy`, `Recognition.dfy` | matcher, search, stored vectors, the per-organization cache, and a recognition through all of them |
| rate limiter | `limits/RateLimit.dfy`, `RateExact.dfy` | Redis and memory counters over whole traces |
| training | `training/Dataset.dfy`, `BatchHard.dfy`, `Threshold.dfy` | split, PK sampler, batch-hard mining, threshold selection |
| records | `records/Dedupe.dfy`, `records/BulkImport.dfy` | duplicate suppression, bulk import |

Objects that the platform updates in place are classes whose methods are proved equal to a function
of their old state; the theorems are lemmas about those functions and about runs of them.

## Assumptions

- The clock never goes backwards; jti values and reset digests are fresh names; one handler is one
  atomic step with one clock reading. The registry theorem in `RegistryInterleaving.dfy` needs no atomicity.
- A signature verifies exactly for a token the server signed. Datetimes have microseconds; a JWT carries
  its expiry in whole seconds and is accepted through that second, as python-jose compares it
  (section 4.1.4 of RFC 7519 would refuse it from that second on).
- Random choices, database row orders, argsort ties, the outcome of bcrypt and the organization checks
  are arbitrary parameters. Arithmetic is over exact reals; the square root is any monotone function.
- The tab theorem assumes what it says: one tab, one login, and nothing else on the server ending that user's
  sessions or presenting that login's tokens. Refreshes may fail at any point of their way and be served late, but
  each request reaches the server at most once; the page may be reloaded at any time, with the tokens in storage
  kept; deactivation, expiry, rate limiting, cleanup, other logins and other users are all allowed.
- When the shared refresh settles, everybody who waits for it continues in the same turn of the browser's event
  loop, in any order; the announcement of an expired session is heard (`dashboard/src/auth/AuthContext.tsx:79-83`).

## Where the code differs from what is said of it

- **Cleanup.** Retention equal to the refresh lifetime is not enough: within the second of expiry a revoked
  token still decodes, and whether its row is there decides between alarm and plain refusal.
  `SessionCleanup.UnobservableIff` has the exact condition; the shipped defaults (30 and 7 days) meet it.
- **Shared refresh promise.** `refreshTokens` returns before its `try` when no token is stored, so the promise
  is not reset until the page is reloaded (`TabClient.SticksExactly`, `TabSession.StuckUntilReload`). No caller in the
  dashboard gets there.
- **Lost answers.** "Keep the tokens" after a network failure holds for the refresh alone: whoever waits for it announces
  the session as expired, which drops both tokens. In two kinds of turn the used token does stay: when every waiter is
  a feed that was stopped meanwhile, and when the page is reloaded while the refresh is under way
  (`TabReplay.ReplayPossibleIff`). The next refresh can then look like theft (`TabReplay.AlarmPossibleIff`, with the runs
  `TabReplay.LostAnswerAlarms` and `TabReplay.ReloadAlarms`).
- **FAISS rows.** Removing the last user skips the rebuild (`FaceIndex.AlignmentLostExactly`); the stale row
  then answers for the next user (`FaceSearch.StaleRowNamesAnotherUser`).
- **False-accept target.** The threshold keeps the fraction strictly above it within the target; the rate
  reported with `>=` always exceeds the target when k > 0, and is 1 when k = 0
  (`Threshold.ReportedRate`, `Threshold.NoneAllowedAcceptsAll`).
- **User update.** The branch that should drop a deactivated user from the index asks for a change that is both
  true and false and never runs; `Registry.ActivationBreaksExactly` says when that matters.
- **Stale-version refusal.** It is unreachable; reuse detection answers first
  (`SessionTheorems.StaleVersionUnreachable`).

## Model

| member | source | states |
|---|---|---|
| AuthService.Server.IssueTokenPair | src/services/auth_service.py:32-60 | signs an access and a refresh token at the user's version, stores one unrevoked row for the refresh jti and commits |
| AuthService.Server.RotateRefreshToken | src/services/auth_service.py:63-145 | each refusal in its order, and otherwise the presented row revoked and linked to exactly one new row; leaves nothing uncommitted |
| AuthService.Server.RefreshRoute | src/api/routes/auth.py:157-174 | the endpoint inside its unit of work: what reuse detection committed survives the rollback of the refused request, every other refusal changes nothing |
| AuthService.Server.RevokeAllUserTokens | src/services/auth_service.py:166-186 | after the call no row of the user is unrevoked, the version is one higher, other users are untouched, and the count is the number of rows revoked |
| AuthService.Server.RevokeRefreshToken | src/services/auth_service.py:148-163 | revokes at most the row of a token that decodes, and reports exactly whether anything changed |
| AuthService.Server.LoginRoute | src/api/routes/auth.py:47-154 | a pair for an active, admitted user and no change otherwise |
| AuthService.Server.LogoutRoute | src/api/routes/auth.py:177-194 | the presented refresh token, whoever owns it, then every token of the caller |
| AuthService.Server.ChangePasswordRoute | src/api/routes/auth.py:288-325 | sets the password and ends every session of the caller, or nothing at all |
| AuthService.Server.ResolveActiveUser | src/api/dependencies.py:93-124 | honours a token exactly when it decodes, is an access token, and names an active user at the token's version |
| AuthService.Server.DecodeToken | src/utils/security.py:92-103 | a genuine token whose whole-second expiry has not passed |
| AuthService.Server.DrawDigest | src/services/password_reset.py:23-32 | a digest that is not in the table, or the error exactly when all five draws collide |
| AuthService.Server.CreateResetToken | src/services/password_reset.py:16-53 | stores the new digest and moves every other unused token of the user one second into the past; a failed draw changes nothing |
| AuthService.Server.ConsumeResetToken | src/services/password_reset.py:56-81 | accepts exactly a usable token of an active user, marks it used, sets the password and ends every session |
| AuthService.Server.CleanupExpiredTokens | src/workers/tasks/maintenance_tasks.py:21-47 | deletes the rows past retention from both tables and reports how many |
| AuthService.Server.Rollback | src/database/session.py:58-64 | a raised request forgets what it did not commit |
| SessionInvariant.StepKeepsInv | src/services/auth_service.py:32-186 | every event keeps: an unrevoked row carries the user's current version, each login owns one gap-free chain whose only unlinked row is its head, a user has at most one usable reset token |
| SessionInvariant.RunKeepsInv | src/services/auth_service.py:32-186 | the same over every run of logins, rotations, logouts, password changes, resets, cleanups and deactivations |
| SessionTheorems.ChainsAreAcyclic | src/services/auth_service.py:117-118 | following replaced_by_jti any number of times never returns to the row it started from |
| SessionTheorems.ReplacementsAreInjective | src/services/auth_service.py:117-118 | no two rows are replaced by the same token |
| SessionTheorems.OneUsablePerLogin | src/services/auth_service.py:110-129 | of the rows of one login at most one is unrevoked, and it is the newest |
| SessionTheorems.StaleVersionUnreachable | src/services/auth_service.py:106-108 | in no reachable state does the stale-version refusal answer |
| SessionTheorems.RotatesExactly | src/services/auth_service.py:75-108 | in a reachable state a token rotates exactly when it is genuine, unexpired, unrevoked and its owner is active |
| SessionTheorems.ReachableChains | src/services/auth_service.py:63-145 | acyclic chains and the unreachable refusal, for every state the server can reach from an empty database |
| SessionTheorems.AnsweredPairLives | src/services/auth_service.py:32-60 | a pair answered by a login or a rotation belongs to the right user; its access token is honoured through the second of its expiry and its refresh token rotates up to its expiry, no longer |
| SessionTheorems.RevocationIsPermanent | src/services/auth_service.py:166-186 | after all tokens of a user are revoked, no token signed before rotates or authenticates in any continuation |
| SessionTheorems.EndedSessionsStayEnded | src/services/password_reset.py:75-81 | the same for every event that ends sessions: logout, password change, admin password, reset, and reuse detection |
| SessionTheorems.ReuseEndsEverySession | src/services/auth_service.py:88-108 | presenting a revoked token, and nothing else, ends every session of its owner for good; every other refusal leaves the ledger unchanged |
| SessionTheorems.ResetIsOneTime | src/services/password_reset.py:62-79 | over any run a reset token sets a password at most once, also across cleanups |
| SessionTheorems.NewResetWorks | src/services/password_reset.py:34-52 | a new reset token is accepted exactly until its expiry, then sets the given password, ends the sessions and is spent |
| SessionTheorems.NewResetKillsOlder | src/services/password_reset.py:42-52 | after a new reset token is issued no earlier one of the user sets a password in any continuation |
| SessionTheorems.OneUsableReset | src/database/models.py:407-414 | in every reachable state a user has at most one usable reset token |
| SessionEffects.LoginAnswersExactly | src/api/routes/auth.py:47-154 | a login answers with a pair exactly for a known, active user whose credentials were accepted, and changes nothing otherwise |
| SessionEffects.KindsDoNotMix | src/api/dependencies.py:93-124 | a refresh token never authenticates, an access token never rotates, and a token of another version does neither, in whatever state |
| SessionEffects.UserAfter | src/api/routes/auth.py:288-325 | of a user every event changes exactly this: the password if it sets one, the activation if an administrator does, the version by one if it ends sessions |
| SessionEffects.SettingTakesEffect | src/services/password_reset.py:75-81 | a password set by change, administrator or reset is the user's until the next one is set, over every run |
| SessionEffects.VersionCountsEndings | src/services/auth_service.py:166-186 | over every run the token version grows by exactly the number of events that ended the user's sessions |
| SessionEffects.AccessLivesExactly | src/api/dependencies.py:93-124 | an access token honoured now is honoured after any run exactly until its expiry, while its user is active, if nothing ended the sessions |
| SessionEffects.RefreshLivesExactly | src/services/auth_service.py:63-163 | a refresh token that rotates now rotates after any run exactly until its expiry, while its user is active, if it was not rotated or presented at a logout and nothing ended the sessions |
| SessionEffects.OtherResetsStay | src/services/password_reset.py:42-50 | asking for a reset token leaves those of other users, and used ones, as they are |
| SessionEffects.ResetLivesExactly | src/services/password_reset.py:34-79 | a reset token accepted now is accepted after any run exactly until its expiry, while its user is active, if it was not used and its user asked for no other one |
| SessionEffects.TheftIsNoticed | src/services/auth_service.py:88-96 | a rotated token is taken for a stolen one after any run, for as long as it lives and cleanup keeps its row |
| SessionEffects.ExpiredTokensAreDeleted | src/workers/tasks/maintenance_tasks.py:33-41 | a refresh token that expired longer ago than the retention has no row after the task |
| SessionEffects.EndedSessionsAreDeleted | src/workers/tasks/maintenance_tasks.py:33-41 | once the retention has passed since a user's sessions were ended none of their rows is left, whatever happened in between |
| SessionEffects.UsedResetsAreDeleted | src/workers/tasks/maintenance_tasks.py:24-32 | the same of a reset token since its use |
| SessionEffects.ExpiredResetsAreDeleted | src/workers/tasks/maintenance_tasks.py:24-32 | and of an unused one since its expiry |
| SessionEffects.RowsAreKept | src/workers/tasks/maintenance_tasks.py:21-41 | until the retention has passed every row stays as it is |
| SessionCleanup.CleanupSparesLive | src/workers/tasks/maintenance_tasks.py:24-41 | however short the retention, every rotation, access and password reset that would succeed before the task succeeds after it, with the same result, and no other |
| SessionCleanup.StepThin | src/workers/tasks/maintenance_tasks.py:33-41 | a ledger that lacks only dead rows answers every event as the full one does, and goes on doing so |
| SessionCleanup.UnobservableIff | src/workers/tasks/maintenance_tasks.py:21-47 | the answers before and after the task agree for every history and every future exactly when rows are kept for more days than a refresh token lives |
| SessionCleanup.ShortRetentionShows | src/services/auth_service.py:83-96 | with shorter or equal retention a concrete run tells them apart: the replay of a deleted row raises no alarm |
| TabClient.Client.constructor | dashboard/src/api/client.ts:31-42 | loading the page: the tokens are those in storage, no refresh is under way |
| TabClient.Client.RefreshTokens | dashboard/src/api/client.ts:110-139 | joins a refresh under way, otherwise puts the stored token on the wire; without a token the promise is left set |
| TabClient.Client.OnRefreshAnswered | dashboard/src/api/client.ts:122-135 | stores the new pair, clears both tokens when refused, keeps them when there was no usable answer; resets the promise and wakes every waiter |
| TabClient.Client.OnReply | dashboard/src/api/client.ts:159-170 | a first 401 with a stored token waits for the shared refresh, any other answer ends the call; the feed does the same |
| TabClient.Client.OnSettled | dashboard/src/api/client.ts:160-164 | one retry with the token stored now, or the session is announced as expired |
| TabClient.Client.ConnectFeed | dashboard/src/api/client.ts:257-265 | a round of the feed sends the stored access token, and ends without one |
| TabClient.Client.Stop | dashboard/src/api/client.ts:328-331 | an attempt on the wire is aborted, one that waits is marked and will leave without a word |
| TabClient.AnyOrderDrains | dashboard/src/api/client.ts:269-283 | whatever the order in which the woken callers continue, the turn ends in the same state |
| TabClient.SticksExactly | dashboard/src/api/client.ts:113-136 | asking for a refresh leaves a promise that is never reset exactly when no token is stored and none is under way |
| TabClient.RequestsNeverStick | dashboard/src/api/client.ts:159-161 | no request gets the promise there |
| TabSession.StuckUntilReload | dashboard/src/api/client.ts:108-115 | a stuck promise sends no refresh and stays stuck exactly until the page is reloaded, after which it never sticks again |
| TabSession.ActKeepsInv | dashboard/src/api/client.ts:108-171 | every interleaved act of tab and server keeps: the token in flight or stored is the living head of its chain and, unless in flight, was not presented before; somebody waits exactly while a refresh is under way; at most one request is late. The exceptions are the turns that lose a refresh and keep its token: only stopped feeds wait, or the page is reloaded |
| TabSession.SingleFlightIsSafe | dashboard/src/api/client.ts:103-139 | from one login on, in every interleaving with answers given, lost or late and pages reloaded, unless such a turn occurs: no refresh token is presented twice, reuse detection never fires on the tab, the promise never sticks, no request is stranded, the stored token is the living head, the one presented last with its answer on the way, or gone |
| TabSession.ServeNeverAlarms | src/services/auth_service.py:89-96 | the newest token of the login, which is the one the tab has in flight, is never taken for a stolen one |
| TabSession.ServeLateKeepsInv | src/services/auth_service.py:110-129 | a refresh that the server serves after the tab gave up on it breaks nothing: the tab no longer uses its token |
| TabSession.RefusedOnlyWhenOver | src/services/auth_service.py:75-104 | the tab's refresh is granted exactly when its token is unexpired and its user active |
| TabReplay.ReplayPossibleIff | dashboard/src/api/client.ts:129-135 | after a refresh ended without its answer some continuation presents a token twice if and only if the token is still stored and the page was reloaded or every waiter is a stopped feed |
| TabReplay.AlarmPossibleIff | src/services/auth_service.py:75-99 | then, for every such turn, the theft alarm can follow if and only if the token is so kept, still decodes, and has its row, revoked or unexpired |
| TabReplay.LostAnswerAlarms | dashboard/src/api/client.ts:266-272 | an input: a feed asks for a refresh, is stopped, the answer is lost, a page presents the used token, and every session of the user ends |
| TabReplay.ReloadAlarms | dashboard/src/api/client.ts:31-42 | another: a page is reloaded while its refresh is under way, presents the stored token again, and every session of the user ends |
| TabRequests.RetriedCallEnds | dashboard/src/api/client.ts:159-161 | a retried call ends with its answer, also a 401 |
| TabRequests.FirstAnswer | dashboard/src/api/client.ts:159-170 | a first 401 makes the call wait exactly when a refresh token is stored; the refresh starts only if none is under way |
| TabRequests.WaitersAreServed | dashboard/src/api/client.ts:159-164 | when the refresh settles every waiting caller is sent again with the new token, or ends, and no other call is touched |
| TabRequests.AtMostOneRetry | dashboard/src/api/client.ts:141-171 | in every interleaving from a login a call goes on the wire at most twice and asks for at most one refresh |
| TabRequests.StoppedFeedIsSilent | dashboard/src/api/client.ts:328-331 | a stopped feed never goes on the wire again, in any continuation, and stopping touches no page |
| TabRequests.StoredTokenIsHonoured | dashboard/src/api/client.ts:146-152 | a call carries the stored access token, which the server honours exactly until it expires, while the user is active |
| TabRequests.ExpiredCallRecovers | dashboard/src/api/client.ts:159-162 | a first call that comes back unauthorized is on the wire again after one refresh, with a token the server honours |
| Sse.SplitAppend | dashboard/src/api/client.ts:300-301 | splitting a longer text changes only the last part, for any separator |
| Sse.SplitJoins | dashboard/src/api/client.ts:300 | the parts with the separator between them are the text |
| Sse.DataOfMeaning | dashboard/src/api/client.ts:302-305 | what follows the field name of each data line is data, in order, and nothing else is |
| Sse.DecodedMeaning | dashboard/src/api/client.ts:305-309 | every text that parses is delivered, once and in its place; the others are skipped |
| Sse.ReadFrames | dashboard/src/api/client.ts:302-312 | the decoded data lines of the complete frames, in the sense of the two rows above |
| Sse.Consume | dashboard/src/api/client.ts:293-313 | however the stream is cut into pieces, the events delivered are those of the whole stream, and the buffer is its incomplete tail |
| Sse.Generate | src/api/routes/dashboard.py:408-422 | what is yielded, joined, is the greeting and the frames of the pulls up to the end of the source |
| Sse.PayloadsMeaning | src/api/routes/dashboard.py:409-422 | up to the end of the source every event with something to show is a payload, once and in its place |
| Sse.RoundTripIff | src/api/routes/dashboard.py:409-422 | the whole printed stream parses to exactly the payloads in order, if and only if no payload holds a line break |
| Sse.TruncationYieldsPrefix | dashboard/src/api/client.ts:296-312 | a stream broken off anywhere yields the first so many payloads |
| Sse.FeedDelivers | dashboard/src/api/client.ts:293-313 | server and browser together, for every cutting: a prefix of the decoded payloads when the stream is incomplete; when it is complete and every payload parses, the k-th event is the k-th payload parsed |
| EventBus.Queue.PutNowait | src/services/events.py:85-88 | appends below the limit of 200 and refuses at it |
| EventBus.Bus.Publish | src/services/events.py:83-94 | offers the event once to every queue of the organization and to no other, which is the step of the runs below, and counts the full ones |
| EventBus.Bus.Subscribe | src/services/events.py:118-119 | adds a new empty queue to the organization, the step of joining |
| EventBus.Bus.Unsubscribe | src/services/events.py:123-126 | removes the queue, and the organization with its last one, the step of leaving |
| EventBus.Bus.Deliver | src/services/events.py:120-122 | the subscriber gets the oldest event of its queue, the step of taking |
| EventBus.DeliveryIsExact | src/services/events.py:83-122 | received followed by queued is exactly the organization's events published while the queue was not full, in order |
| EventBus.QueuesStayBounded | src/services/events.py:118 | no queue ever exceeds 200 over any run |
| EventBus.LosslessIff | src/services/events.py:83-94 | a subscriber misses nothing if and only if it never falls more than 200 events behind |
| EventBus.AllEventsMeaning | src/services/events.py:83-94 | every event of the organization counts, once and in its place, and no other |
| EventBus.TakeHandsOver | src/services/events.py:120-122 | taking hands over the oldest waiting event, and concerns no other subscriber |
| EventBus.TakingDrains | src/services/events.py:120-122 | a subscriber that takes as often as events wait has received them all |
| EventBus.FromTheStart | src/services/events.py:118-122 | a subscriber that keeps up has received or queued every event published since it joined, and none from before |
| EventBus.LeavingConcernsOne | src/services/events.py:123-126 | who leaves is gone, and nobody else notices |
| FaceIndex.Matcher.BuildIndex | src/inference/matcher.py:21-37 | replaces ids, vectors and data, rebuilds FAISS when in use, and fails without effect for lists of different lengths |
| FaceIndex.Matcher.UpdateEmbedding | src/inference/matcher.py:177-190 | overwrites the row of a known id, appends an unknown one |
| FaceIndex.Matcher.AddUser | src/inference/matcher.py:192-208 | appends to both lists and to a FAISS index that exists |
| FaceIndex.Matcher.RemoveUser | src/inference/matcher.py:210-225 | deletes the id's row from both lists; rebuilds FAISS unless nobody is left |
| FaceIndex.Matcher.ClearAll | src/inference/matcher.py:236-242 | an empty index; an existing FAISS index is emptied |
| FaceIndex.BuildIsMapOf | src/inference/matcher.py:27-32 | with distinct ids the index is the map from ids to vectors |
| FaceIndex.UpdateIsMapUpdate | src/inference/matcher.py:183-190 | update is map update, ids and rows stay aligned and duplicate-free |
| FaceIndex.RemoveIsMapRemoval | src/inference/matcher.py:211-216 | removal is map removal, with the same alignment |
| FaceIndex.AddIsSoundIff | src/inference/matcher.py:192-203 | adding keeps ids duplicate-free exactly for an id that is not there |
| FaceIndex.RunIsMapRun | src/inference/matcher.py:21-242 | every run of build, update, add of a new id, remove and clear is the run of the same operations on a finite map |
| FaceIndex.AlignmentLostExactly | src/inference/matcher.py:223-225 | one operation keeps the FAISS rows equal to the matrix rows exactly when it does not remove the last user |
| FaceIndex.RunsStayAligned | src/inference/matcher.py:177-242 | in every run of build, update, add of a new id, remove and clear without such a removal the FAISS rows are the matrix rows |
| FaceIndex.FaissComesAndStays | src/inference/matcher.py:33-67 | a build makes the FAISS index where it can be imported and nothing takes it away; where it cannot, FAISS is switched off |
| FaceIndex.NotesFollow | src/inference/matcher.py:177-242 | user data is set when given, kept otherwise, dropped with its user, and nobody else's changes |
| FaceSearch.MatchNumpy | src/inference/matcher.py:83-113 | for any argsort and every top_k that leaves a candidate: somebody with the highest score if that reaches the threshold, nobody otherwise |
| FaceSearch.MatchFaiss | src/inference/matcher.py:115-143 | the same over a flat index as long as its rows are the matrix rows |
| FaceSearch.Match | src/inference/matcher.py:69-81 | nobody for an empty index, the best match otherwise while FAISS is aligned |
| FaceSearch.MatchHeadsRanking | src/inference/matcher.py:169-175 | the score returned is the one that heads the ranking of similar users |
| FaceSearch.FindSimilarMeaning | src/inference/matcher.py:169-175 | the similar users are so many of the highest scores, highest first, and nobody left out scores higher |
| FaceSearch.StaleRowNamesAnotherUser | src/inference/matcher.py:207-225 | after the last user is removed and another added, the stale FAISS row scores highest and reads as the new user |
| VectorCodec.RoundTripIff | src/inference/index_manager.py:14-23 | a stored vector decodes to itself exactly when it is non-empty and has the configured dimension, to nothing otherwise |
| VectorCodec.EncodeAt | src/inference/index_manager.py:14-23 | the bytes of the i-th word are at 4i, lowest first |
| VectorCodec.DecodeIsInjective | src/inference/index_manager.py:14-23 | bytes that decode are the encoding of what they decode to |
| Registry.MatcherRegistry.GroupRows | src/inference/index_manager.py:88-95 | groups the decodable rows by organization and counts the others |
| Registry.MatcherRegistry.RefreshAll | src/inference/index_manager.py:68-117 | for any row order the indexes become those of the active organizations with a usable vector |
| Registry.MatcherRegistry.LoadOrg | src/inference/index_manager.py:139-172 | the organization's table as an index, or nothing when it is empty |
| Registry.MatcherRegistry.GetMatcher | src/inference/index_manager.py:128-137 | the loaded index, or the one loaded now |
| Registry.MatcherRegistry.UpsertUser | src/inference/index_manager.py:174-181 | the organization's index, loaded or created, with the user's vector set |
| Registry.StepAgrees | src/api/routes/recognition.py:427-458 | registering, deregistering, deleting, refreshing, loading and invalidating keep every loaded index equal to the table |
| Registry.RunAgrees | src/inference/index_manager.py:68-191 | the same over every run |
| Registry.EagerIsLazy | src/inference/index_manager.py:104-172 | refresh-all and loading on demand build the same index for an active organization |
| Registry.ActivationBreaksExactly | src/api/routes/users.py:406-440 | an activation change through user update breaks the agreement exactly when it changes something for a loaded index and a usable vector |
| RegistryEffects.RegisterTakesEffect | src/api/routes/recognition.py:427-458 | after an active user registers, table and loaded index have the vector; anybody else changes nothing |
| RegistryEffects.DeregisterTakesEffect | src/api/routes/recognition.py:503-510 | after a user of the organization is deregistered no vector is stored and no table and no loaded index has the user |
| RegistryEffects.DeleteTakesEffect | src/api/routes/users.py:461-468 | after an account is deleted it is inactive and no table and no loaded index has the user |
| RegistryEffects.OtherEntriesStay | src/inference/index_manager.py:68-191 | no event changes the table entry of a user it is not about |
| RegistryEffects.StaysRegistered | src/inference/index_manager.py:68-191 | over every run a registered face stays as it is until an event is about its user |
| RegistryEffects.RefreshLoadsExactly | src/inference/index_manager.py:68-117 | a refresh loads the active organizations in which somebody can be recognized, and no other |
| RegistryEffects.GetLoadsExactly | src/inference/index_manager.py:128-172 | asking for a matcher loads that index alone, if there is anybody to recognize |
| RegistryEffects.InvalidateDropsOne | src/inference/index_manager.py:189-191 | invalidation drops one index and leaves the others |
| RegistryInterleaving.TenantsStayApart | src/inference/index_manager.py:68-191 | with every operation split at its awaits, an organization's index holds only users of that organization in every reachable state |
| RegistryInterleaving.FromEmptyRegistry | src/inference/index_manager.py:44-191 | the same from the start of the server on, whatever the tables hold then |
| RegistryInterleaving.RefreshAlone | src/inference/index_manager.py:68-117 | a refresh that nobody interrupts loads exactly the tables of the organizations it reads |
| RegistryInterleaving.LoadAlone | src/inference/index_manager.py:139-172 | an uninterrupted load gives the organization's table, or nothing when it is empty |
| RegistryInterleaving.UpsertAlone | src/inference/index_manager.py:174-181 | an uninterrupted upsert sets the vector in the index that is there, or in a new one |
| RegistryInterleaving.RemovalAlone | src/inference/index_manager.py:183-187 | removal takes effect in one index only |
| Recognition.RunMirrors | src/inference/index_manager.py:97-181 | over every run the matchers of the registry, built from rows in any order, stand for the maps it caches |
| Recognition.Recognize | src/api/routes/recognition.py:194-216 | after every run of registry events, with NumPy matching: the answer is a best match over the organization's table, and whoever it names passes the check that follows |
| Recognition.GoneIsNotNamed | src/api/routes/recognition.py:493-510 | in every continuation a deregistered user is not named until registered again, and a deleted one never |
| RateLimit.MemoryCounter.Incr | src/api/middleware/rate_limit.py:39-45 | clears after a full window, then counts |
| RateLimit.Middleware.Dispatch | src/api/middleware/rate_limit.py:60-104 | counts in Redis or in memory and admits up to the limit |
| RateLimit.TraceBound | src/api/middleware/rate_limit.py:32-104 | over every trace with any outages, in any interval of at most a window: the limit per epoch met with Redis, and once more with memory |
| RateLimit.EpochBounds | src/api/middleware/rate_limit.py:60-83 | per epoch at most the limit with Redis and twice the limit with memory |
| RateLimit.WindowBounds | src/api/middleware/rate_limit.py:60-83 | per window placed anywhere at most two, three, or with both stores five times the limit |
| RateLimit.EpochBoundIsReached | src/api/middleware/rate_limit.py:39-45 | for every limit a trace with memory that admits twice the limit within an epoch |
| RateLimit.RedisBoundIsReached | src/api/middleware/rate_limit.py:97-101 | for every limit a trace with Redis that admits twice the limit within a window |
| RateLimit.MemoryBoundIsReached | src/api/middleware/rate_limit.py:39-45 | for every limit a trace with memory that admits three times the limit within a window |
| RateLimit.MixedBoundIsReached | src/api/middleware/rate_limit.py:90-104 | for every limit a trace with Redis coming and going that admits five times the limit within a window |
| RateExact.RedisAdmitsExactly | src/api/middleware/rate_limit.py:90-104 | with Redis a request is admitted if and only if fewer than the limit of its client came before it in its epoch, over every trace with any outages and any other clients |
| RateExact.MemoryAdmitsExactly | src/api/middleware/rate_limit.py:32-45 | with memory the same, counting since the last clearing, and clearings lie a window apart |
| RateExact.FewAreAdmitted | src/api/middleware/rate_limit.py:60-104 | however Redis comes and goes, a client with fewer than the limit of requests so far in the epoch is admitted |
| Dataset.CollectIdentities | src/training/dataset.py:169-173 | the identities with at least four images |
| Dataset.KeptIsPicked | src/training/dataset.py:169-173 | in the order they were found, each as often |
| Dataset.ValidationCountMeaning | src/training/dataset.py:187-188 | one held-out image of up to four, else the whole number the ratio amounts to, but at least one |
| Dataset.Split | src/training/dataset.py:175-191 | both sample lists label by label, or the error for fewer than two identities |
| Dataset.SplitPartitions | src/training/dataset.py:184-191 | training and validation images of an identity together are its images, whatever the ratio and the shuffle |
| Dataset.SplitSizes | src/training/dataset.py:184-191 | validation gets so many images from the front of the shuffled list, training the rest, in order |
| Dataset.SplitLeavesTwo | src/training/dataset.py:187-191 | with at most half held out every identity keeps two training images and gives one to validation |
| Dataset.PKBatchSampler.constructor | src/training/dataset.py:107-128 | one pool per label, and the labels with at least two images in ascending order |
| Dataset.PKBatchSampler.NextBatch | src/training/dataset.py:139-150 | for any random choices a batch of distinct valid indices in which, with p and k at least two, every anchor has a positive and a negative |
| Dataset.EveryBatchMines | src/model/losses.py:109-122 | from any split with at most half held out, every batch over any encoder: masked maximum and shifted minimum are the hardest positive and negative |
| BatchHard.GramIsSquaredDifference | src/model/losses.py:227-229 | the Gram form is the sum of squared differences |
| BatchHard.DistanceMeaning | src/model/losses.py:226-236 | an entry is that sum, or its root with zero kept at zero, and never negative |
| BatchHard.MaskedMaxIff | src/model/losses.py:115-116 | the masked maximum is the hardest positive exactly for an anchor that has one, and zero otherwise |
| BatchHard.ShiftedMinIff | src/model/losses.py:118-122 | the shifted minimum is the hardest negative exactly for an anchor that has one |
| BatchHard.RootKeepsHardest | src/model/losses.py:231-235 | the hardest positive and negative mined from the rooted distances are the roots of those mined from the squared ones, zero kept at zero |
| BatchHard.LossIsByDefinition | src/model/losses.py:124-129 | the loss is the mean over the active anchors computed from the defined hardest distances |
| BatchHard.CompanionsByCount | src/model/losses.py:239-249 | an anchor has a positive exactly when its label is in the batch twice, a negative exactly when another label is |
| BatchHard.LossMeaning | src/model/losses.py:124-129 | the loss is the mean over the terms by which the hardest positive lies beyond the hardest negative and the margin |
| BatchHard.MeanMultiplied | src/model/losses.py:126-129 | that mean times the number of terms above 1e-16, and 1e-16 more, is the sum of the terms |
| Threshold.PairTotal | src/training/evaluator.py:48-50 | n images make n(n-1)/2 pairs |
| Threshold.PairTruthAt | src/training/evaluator.py:44-50 | each entry says whether the two images of its pair are of one identity |
| Threshold.PositiveTotal | src/training/evaluator.py:46-50 | the positive pairs are the sum over identities of c(c-1)/2 |
| Threshold.LeastWithinTarget | src/training/evaluator.py:80-83 | the threshold is the least negative score with at most the target fraction strictly above; the index error comes exactly when k reaches n |
| Threshold.ReportedRate | src/training/evaluator.py:85-86 | the reported rate is at least (k+1)/n, above the target, and exactly that iff the next lower score differs, as when all scores do |
| Threshold.NoneAllowedAcceptsAll | src/training/evaluator.py:82-86 | when the target allows less than one false accept the threshold -1 accepts every negative |
| Threshold.BestAccuracy | src/training/evaluator.py:88-93 | the first candidate of the best balanced accuracy, or zero when none beats zero |
| Threshold.AccuracyIsWithoutErrors | src/training/evaluator.py:88-93 | what a balanced accuracy lacks to one is the mean of the false reject and the false accept rate |
| Dedupe.FindRecent | src/services/attendance_service.py:17-35 | the latest non-spoof record of the user since the start, or nothing exactly when there is none |
| Dedupe.AttendanceService.MarkAttendance | src/services/attendance_service.py:38-118 | suppressed with the recent record, recorded, or refused for an unknown method |
| Dedupe.RecordedExactly | src/services/attendance_service.py:58-90 | a call is recorded exactly when it is a spoof, no window is set, or every earlier non-spoof record of the user lies before the window |
| Dedupe.DefaultIsSpaced | src/services/attendance_service.py:58-90 | a record with the default timestamp is more than the window after every earlier non-spoof record of its user |
| Dedupe.RunIsSpaced | src/services/attendance_service.py:58-90 | over runs with default timestamps and one window all non-spoof records of a user are spaced |
| Dedupe.AtMostOnePerWindow | src/services/attendance_service.py:58-90 | such runs leave at most 1 + L/w records in any interval of length L |
| Dedupe.SpoofsAreInvisible | src/services/attendance_service.py:66-90 | the real rows of a run are those of the run without its spoof calls |
| BulkImport.Organization.TryInsert | src/api/routes/users.py:551-570 | a failed insert leaves the users as at the savepoint |
| BulkImport.Organization.Import | src/api/routes/users.py:510-588 | the import loop: rows, counts and errors |
| BulkImport.ImportConserves | src/api/routes/users.py:528-570 | every row is imported or in the error list once, never both; imported and failed add up; the users grow by exactly the imported rows in order |
| BulkImport.ImportRespectsLimit | src/api/routes/users.py:510-513 | the users grow by the imported count and never beyond the larger of the old count and the limit |
| BulkImport.ImportKeepsKeysDistinct | src/api/routes/users.py:525-568 | imported rows have pairwise distinct non-empty stripped external ids and lower-cased emails |
| BulkImport.ImportErrorsAreTrue | src/api/routes/users.py:532-570 | every error is true of its row: the limit was reached, the key repeats an earlier imported row, or the database refuses it |
| BulkImport.ReasonsAreFirst | src/api/routes/users.py:532-570 | the reasons are checked in order: the limit by the number imported before, then external id, email, database |
| BulkImport.FullWhenLimited | src/api/routes/users.py:510-513 | a row is turned down for the limit only when the organization is full |
| BulkImport.AddedUsers | src/api/routes/users.py:551-568 | each imported row becomes a user with stripped name, external id as given and lower-cased email or none |
| BulkImport.StrippedKeysDiffer | src/api/routes/users.py:525-549 | no two imported rows share a stripped external id or a lower-cased email |
| BulkImport.ImportKeepsUnique | src/database/models.py:176-185 | no two users share an external id or an email afterwards if none did before |

## Left out

- `bearer_or_none`: it does not compare token versions, so the permanence theorems are about `_resolve_active_user` alone.
- Several tabs, and logout or a second login during a refresh: outside the assumptions of the tab theorem.
- When a request times out, reconnection backoff, TextDecoder and heartbeat scheduling: runtime behaviour; only the frames and the local queues are modelled.
- Redis pub/sub delivery: library behaviour; the local fan-out is modelled.
- bcrypt, HMAC, JWT signing, JSON: opaque.
- IVF-PQ and HNSW approximation: a FAISS index is only its row list, searched exactly.
- numpy shape errors: vectors of one index have one dimension; mixed dimensions raise in the source.
- FaceIndex.Matcher.BuildIndex: does not model that the matcher keeps the caller's id list itself, because no caller changes it afterwards.
- Registry.RunAgrees: the worker's embedding task and activation changes through user update are not among its steps, because neither updates the index; vectors have the configured dimension.
- Registry.MatcherRegistry.UpsertUser: matchers are finite maps here; that each is one is `Recognition.RunMirrors`.
- RegistryInterleaving.TenantsStayApart: promises isolation only; agreement with the table does not survive a refresh whose rows were read before a registration. Uninterrupted operations are in the rows that end in `Alone`.
- TabClient.Client.OnReply: a request that fails without a response is the one that comes back authorized, because neither touches a token.
- Recognition.Recognize: matchers that use NumPy only; what FAISS adds is `FaceIndex.AlignmentLostExactly`.
- RateLimit.Middleware.Dispatch: response headers are not modelled; path scope is part of the client name.
- Dataset.PKBatchSampler.NextBatch: one batch at a time; how many batches an epoch has is not modelled.
- Threshold.PositiveTotal: without the random subsampling of very large pair lists.
- BulkImport.Organization.Import: role, department and audit checks before and after the loop are not modelled.
- Other losses, department hierarchy, exports, e-mail, storage, training jobs, settings parsing and the React pages: easy, or input and output.
- ONNX, face detection, quality, liveness and augmentation: foreign numeric code.
