# Verified model of the OAuth and MCP state layer

This project models the part of the service in which several processes share one store: grants,
sessions, rate limits and caches. Every handler there reads, checks and then writes on a condition.
The model states what these handlers promise and proves it for every input, every run and every
interleaving. `dafny verify dfyconfig.toml` checks the whole project.

## How the model is laid out

- **Records and atomic operations.** `StoreRecords` declares the records. `RefreshTokens`,
  `AuthorizationCodes`, `McpSessions`, `RateLimit` and `RateLimitStore` give each operation of the
  disk store as one step on values; `StoreOperations` puts them together.
- **Disk store.** `DiskStore` holds the store classes: each method reads the file into a working copy,
  changes the copy in place and writes it back only when it ends without an error. Each method is
  proved against the atomic step.
- **DynamoDB.** `RefreshProtocol`, `CodeProtocol`, `UpstreamStateProtocol`, `McpSessionProtocol` and
  `RateLimitProtocol` are transition systems: requests are processes with a program counter, the clock
  is a step of its own, and updates are upserts whose comparison on a missing attribute is false. For
  refresh tokens and codes the protocol refines the disk store; its history is explained by the atomic
  operations, one at a time. `CodeSafety` holds what needs no assumption on when items are collected, and
  `RateLimitRuns` says exactly when the shared rate limiter keeps its bounds.
- **File.** `StoreFileProtocol` and `StoreFileRuns` model the promise chain of each process, the lock file
  shared by all, and read, compute, rename. `StoreLock` is the polling loop. `StoreHistory` says what every
  sequence of store operations keeps, and `StoreFileGuarantees` carries it over to any number of processes
  on one file.
- **Codec.** `Json`, `StoreRows`, `RecordRows`, `StoreCodec` and `UserProfiles` are the strict parsers and
  the printers of the store file; `StoreReload`, `FileStability` and `RefusedInputs` say which stores survive them.
- **Caches and tokens.** `ExpiringCache`, `CacheHistory`, `ClientAssertion`, `Scopes` and `AccessToken`.
- **Handlers.** `Authorization` and `Provenance` follow a grant from the authorization request to the token
  response; `GrantRuns` says what each handler answers and carries an honest client through. `McpLifecycle`
  follows a Streamable HTTP post over atomic sessions, and `McpSharedLifecycle` over the session protocol of
  the shared store; `McpProgress` and `McpSharedProgress` carry requests through.

Each operation is also stated on the fields of its records, in both directions, apart from the functions that
compute it (the lemmas whose names end in `Iff`).

Tokens, codes, states and sessions are identified by their hashes. `digest` stands for SHA-256 in
base64url, which is both the key of a record and the S256 challenge; RFC 7636 section 4.6.

## Where the code falls short of its promise

- The file parser accepts a code challenge only if it looks like a SHA-256 digest and a client state only if
  it is not blank. The authorization endpoint accepts challenges of 43 to 128 characters with dots and tildes,
  and client states made of spaces. The login state of such a request is written and makes the whole file
  unreadable. `RefusedInputs.AcceptedAuthorizationReloadsIff` gives the exact condition for every accepted
  authorization, and `RefusedInputs.RefusedRequestsAreAccepted` two requests that break it.
- A profile without a display name gets one put together from the given and the family name. It may have
  up to 513 characters, and then the profile is refused when it is written
  (`UserProfiles.NormalizingIsIdempotentIffNameFits`).
- The shared rate limiter samples the clock before it reads the record. A write whose sample lies before the
  stored window resets the counters. Over a run the record agrees with the accepted hits exactly when there is
  no such write (`RateLimitRuns.RunTrackedIffPunctual`); then both bounds hold
  (`RateLimitRuns.PunctualRunsAreBounded`). After one such write the stored window can exceed the maximum even
  with punctual writes only, save in one corner where it never does
  (`RateLimitRuns.LateCommitExceedsIff`), and in the run of `RateLimitRuns.StaleSampleBreaksBothBounds` one such
  write breaks both bounds.
- A touch of a session reports the state it read, which may be older than the one it updates. The report is
  right exactly when the touch saw the initialization, made it itself, or there was none
  (`McpSessionProtocol.TouchIsAtomicIffItSawInitialization`); in the run of
  `McpSessionProtocol.OverlappingTouchMissesInitialization` it is wrong.

## Model

| member | source | states |
|---|---|---|
| `RefreshTokens.RotatesIff` | auth/storage/disk-store.ts:98-107 | A token rotates exactly when it is stored, unrevoked, unexpired, its client's own, for the expected resource and among the allowed ones, and no token was rotated from it. |
| `RefreshTokens.ReusesIff` | auth/storage/disk-store.ts:98-112 | With the same checks passed, a token that has a successor counts as reused. |
| `RefreshTokens.RotationLeaves` | auth/storage/disk-store.ts:113-130 | A rotation marks the old token as used and adds one token with the family, the grant and a fresh lifetime; no other token changes. |
| `RefreshTokens.CreatedTokenRotatesIff` | auth/storage/disk-store.ts:70-107 | A created token can be rotated by its client for its resource until its lifetime is over. |
| `FamilyChain.StepKeepsChains` | auth/storage/disk-store.ts:70-132 | Creating and rotating keep every family one chain: one root, each token rotated from the one before it, only the newest unused, one grant and one revocation state along it. |
| `FamilyHistory.ReachableStoresAreChained` | auth/storage/disk-store.ts:70-132 | Every store reached by creations and rotations with fresh random values consists of such chains. |
| `FamilyHistory.TokenRotatesAtMostOnce` | auth/storage/disk-store.ts:90-132 | Over every run no refresh token is rotated twice. |
| `FamilyHistory.OneUsableTokenPerFamily` | auth/storage/disk-store.ts:98-131 | At any moment at most one token of a family can be rotated, whatever the two requests and times. |
| `FamilyHistory.FamilyKeepsItsGrant` | auth/storage/disk-store.ts:111-122 | Client, user, resource, scopes and authentication time are the same on all tokens of a family, and so is whether they are revoked. |
| `FamilyHistory.ReplayEndsFamily` | auth/storage/disk-store.ts:98-110 | Once an unexpired rotated token is replayed by its own client for its own resource, no token of its family is ever accepted again. |
| `RefreshRefinement.ReadTokenReplies` | auth/storage/dynamodb/refresh-tokens.ts:34-37 | A refusal at the first read is the refusal the disk store would give at that moment. |
| `RefreshRefinement.SampleClockReplies` | auth/storage/dynamodb/refresh-tokens.ts:36-37 | A refusal by the checks on the record that was read is the disk store's refusal. |
| `RefreshRefinement.ReadFamilyReplies` | auth/storage/dynamodb/refresh-tokens.ts:38-39 | A refusal because the family item is missing, revoked or expired at the sampled time is the disk store's refusal. |
| `RefreshRefinement.TransactSucceeds` | auth/storage/dynamodb/refresh-tokens.ts:47-83 | The four conditional writes succeed only when the disk store would rotate the same token, with the same old record returned and the corresponding table afterwards. |
| `RefreshRefinement.TransactFails` | auth/storage/dynamodb/refresh-tokens.ts:75-80 | A failed transaction changes no item and leads to the revocation, and it fails only when the disk store would not rotate the token either. |
| `RefreshRefinement.RevokeFacts` | auth/storage/dynamodb/refresh-tokens.ts:40-43 | A revocation, whether it writes or finds the family already revoked, is the disk store's answer to reuse. |
| `RefreshRuns.CollectRefines` | auth/storage/dynamodb/item-codec.ts:40-46 | Removing a token, family or rotation marker that has expired for every request in flight is invisible on the disk store: replay is still detected. |
| `RefreshRefinement.RotatedFamilies` | auth/storage/dynamodb/refresh-tokens.ts:117-126 | The family item outlives every token of the family, although its expiry is rewritten at each rotation. |
| `RefreshRefinement.RotatedMarkers` | auth/storage/dynamodb/refresh-tokens.ts:69-70 | A rotation leaves a marker that outlives the rotated token. |
| `RefreshRuns.StepRefines` | auth/storage/dynamodb/refresh-tokens.ts:12-141 | Every step of every request either leaves the abstract disk store alone or performs one of its atomic operations with the same reply. |
| `RefreshRuns.RunRefinesDisk` | auth/storage/dynamodb/refresh-tokens.ts:12-141 | Any interleaving of any number of requests, with expired items collected in between, is explained by running the completed operations one at a time on the disk store: same replies, same records. |
| `RefreshRuns.RotationsFollowTheFields` | auth/storage/dynamodb/refresh-tokens.ts:143-156 | Over every interleaving a request is answered with a rotation exactly when the token it presents passes each check of the disk store, resource checks included. |
| `RefreshRuns.NoTokenRotatedTwice` | auth/storage/dynamodb/refresh-tokens.ts:25-83 | Over every interleaving no token is rotated twice, although markers are collected. |
| `RefreshRuns.ReplayEndsFamilyInEveryRun` | auth/storage/dynamodb/refresh-tokens.ts:40-46 | Over every interleaving a replayed token ends its family for good. |
| `RefreshRuns.NoRequestIsStuck` | auth/storage/dynamodb/refresh-tokens.ts:12-141 | In every reachable state a request without a reply has a step that brings it closer to one, whatever the others do. |
| `AuthorizationCodes.ConsumesIff` | auth/storage/disk-store.ts:42-68 | A code is consumed exactly when it is stored, unconsumed and unexpired, client, redirect, resource and every scope fit, and the verifier of a code with a challenge is 43 to 128 characters with that digest; otherwise nothing changes. |
| `AuthorizationCodes.CreatedCodeConsumesIff` | auth/storage/disk-store.ts:19-68 | A created code is consumed, until its lifetime is over, by whoever fits the input it was made from. |
| `AuthorizationCodes.StateConsumesIff` | auth/storage/disk-store.ts:159-169 | A login state is handed out as stored exactly when it is stored and unexpired; it and every expired state are then gone, and otherwise nothing changes. |
| `AuthorizationCodes.CreatedStateConsumesIff` | auth/storage/disk-store.ts:134-169 | A created login state is handed out once, with what it was created from, until its lifetime is over. |
| `CodeProtocol.StepRefines` | auth/storage/dynamodb/authorization-codes.ts:13-83 | Every step of creating and consuming codes refines the disk store's atomic step, with the update as the point of success. |
| `CodeProtocol.UpdateAgrees` | auth/storage/dynamodb/authorization-codes.ts:55-68 | The conditional update succeeds exactly when the atomic step accepts the code; if it fails nothing changes. |
| `CodeRuns.RunRefinesDisk` | auth/storage/dynamodb/authorization-codes.ts:13-83 | Every interleaving, with expired items collected, gives each request the reply of the disk store. |
| `CodeRuns.NoRequestIsStuck` | auth/storage/dynamodb/authorization-codes.ts:13-83 | In every reachable state a request without a reply has a step that brings it closer to one. |
| `CodeSafety.OnlyMatchingRequestsConsume` | auth/storage/dynamodb/authorization-codes.ts:71-83 | With items collected at any time, a code is consumed only while it is unconsumed and unexpired, with its client, redirect and resource, within the allowed resources and scopes, and with a verifier of its challenge; only its consumption time changes. |
| `CodeSafety.ConsumedAtMostOnce` | auth/storage/dynamodb/authorization-codes.ts:44-69 | Over every interleaving, with items collected at any time, a code is consumed at most once. |
| `CodeSafety.RefusalHasACause` | auth/storage/dynamodb/authorization-codes.ts:55-69 | A request that passes all checks and then fails its update changes nothing and has lost: an earlier step of the run consumed the code or collected it. |
| `CodeSafety.CollectedStaysGone` | auth/storage/dynamodb/authorization-codes.ts:56-63 | Whenever an item is collected, no conditional update ever recreates it. |
| `UpstreamStateProtocol.ConsumptionReturnsWhatWasCreated` | auth/storage/dynamodb/upstream-states.ts:44-59 | A successful conditional delete hands out exactly the record that was created, unexpired at the sampled time, for the first time. |
| `UpstreamStateProtocol.ConsumedAtMostOnce` | auth/storage/dynamodb/upstream-states.ts:44-63 | Over every interleaving a login state is consumed at most once. |
| `UpstreamStateProtocol.RefusalHasACause` | auth/storage/dynamodb/upstream-states.ts:60-63 | A refusal changes nothing, and the state was never created, had expired by the sampled time, or was taken out by an earlier step of the run that consumed or collected it. |
| `UpstreamStateProtocol.GoneStaysGone` | auth/storage/dynamodb/upstream-states.ts:12-63 | A consumed or collected state never comes back. |
| `UpstreamStateProtocol.NoRequestIsStuck` | auth/storage/dynamodb/upstream-states.ts:12-63 | In every reachable state a request without a reply has a step that brings it closer to one. |
| `McpSessions.AnswersIff` | auth/storage/disk-store.ts:177-210 | A session answers any operation exactly when it is stored, not terminated and unexpired. |
| `McpSessions.TouchesIff` | auth/storage/disk-store.ts:177-187 | A live session is touched exactly for its own protocol version or none; the report, the time of initialization and the rest of the record are as stated. |
| `McpSessions.ReservesIff` | auth/storage/disk-store.ts:189-200 | A live session grants a new id while it has fewer than 4096, reports a known one, and turns a new one away when full. |
| `McpSessions.NewSessionGrantsIff` | auth/storage/disk-store.ts:189-200 | A new session grants any list of distinct ids exactly if there are no more than 4096. |
| `McpSessions.TerminatesForGood` | auth/storage/disk-store.ts:202-210 | A terminated session answers no more. |
| `McpSessionProtocol.MatchingCountMeansSameSet` | auth/storage/dynamodb/mcp-sessions.ts:77-90 | When the stored count equals the count that was read, the stored set is the set that was read. |
| `McpSessionProtocol.EachIdGrantedAtMostOnce` | auth/storage/dynamodb/mcp-sessions.ts:60-101 | Over every interleaving each request id is granted at most once, and at most 4096 are. |
| `McpSessionProtocol.GrantsIff` | auth/storage/dynamodb/mcp-sessions.ts:77-100 | The update of a reservation grants the id exactly when the session is still live and nothing was granted since it was read. |
| `McpSessionProtocol.CallMovesOn` | auth/storage/dynamodb/mcp-sessions.ts:30-118 | Whatever the others do, a call is answered after at most five attempts of three steps. |
| `McpSessionProtocol.ConflictMeansFourOtherGrants` | auth/storage/dynamodb/mcp-sessions.ts:60-66 | A reservation that gives up with a conflict was beaten by at least four other grants on the session. |
| `McpSessionProtocol.TerminationIsFinal` | auth/storage/dynamodb/mcp-sessions.ts:103-118 | Once a session is terminated its item never changes again. |
| `McpSessionProtocol.CollectedStaysGone` | auth/storage/dynamodb/mcp-sessions.ts:30-118 | No conditional update recreates a collected session. |
| `McpSessionProtocol.TouchReportsInitialization` | auth/storage/dynamodb/mcp-sessions.ts:30-58 | A touch that reports an initialized session is right, and stays right while the item lasts. |
| `McpSessionProtocol.GrantIsAtomic` | auth/storage/dynamodb/mcp-sessions.ts:68-101 | A granted reservation is the disk store's grant on the record the item stands for. |
| `McpSessionProtocol.ReadReplyIsAtomic` | auth/storage/dynamodb/mcp-sessions.ts:120-123 | A reply decided at the read is the disk store's reply at that moment. |
| `McpSessionProtocol.TerminateIsAtomic` | auth/storage/dynamodb/mcp-sessions.ts:103-118 | Termination is the disk store's termination, reply included. |
| `McpSessionProtocol.TouchIsAtomicIffItSawInitialization` | auth/storage/dynamodb/mcp-sessions.ts:43-58 | A touch does to the record what the disk store's touch does; its reply is the disk store's exactly when the updated session is not initialized, or was when it was read, or is marked by the touch itself. |
| `McpSessionProtocol.OverlappingTouchMissesInitialization` | auth/storage/dynamodb/mcp-sessions.ts:30-58 | A run of two overlapping touches after which one has reported an initialized session as not initialized. |
| `RateLimit.UnderLimitWeighs` | auth/storage/rate-limit-algorithm.ts:5-17 | The comparison in whole numbers is the weighted one: hits of this window plus those of the one before in proportion to the overlap, against the maximum. |
| `RateLimit.AcceptedHitIsFaithful` | auth/storage/rate-limit-algorithm.ts:5-24 | The two counters decide as the full log of accepted hits would, and an accepted hit keeps them in agreement with the log. |
| `RateLimit.PruningIsFaithful` | auth/storage/rate-limit-store.ts:25-29 | Dropping an expired record never changes a later decision. |
| `RateLimitBound.AlignedBound` | auth/storage/rate-limit-algorithm.ts:5-17 | At most the maximum is accepted in any aligned window. |
| `RateLimitBound.SharpBound` | auth/storage/rate-limit-algorithm.ts:9-10 | The n hits of a stretch of W seconds satisfy (n - 1) * W < max * W + P * e, with P hits in the window before and last offset e. |
| `RateLimitBound.SlidingBound` | auth/storage/rate-limit-algorithm.ts:5-17 | At most twice the maximum is accepted in any W consecutive seconds. |
| `RateLimitBound.BoundIsReached` | auth/storage/rate-limit-algorithm.ts:5-17 | Twice the maximum is reached: for every maximum there is a policy and a log that attain it. |
| `RateLimitStore.DecisionsMatchTheLog` | auth/storage/rate-limit-store.ts:15-29 | In every run with a nondecreasing clock every decision of the disk store is the one the full log gives: expiry and pruning change nothing. |
| `RateLimitStore.RunsAreBounded` | auth/storage/rate-limit-store.ts:15-23 | Both bounds hold for every key in every run of the disk store. |
| `RateLimitProtocol.CommitIsOneAlgorithmStep` | auth/storage/dynamodb/rate-limit-store.ts:32-49 | Every committed write is one step of the algorithm on the record stored at that moment. |
| `RateLimitProtocol.RefusalIsOneAlgorithmStep` | auth/storage/dynamodb/rate-limit-store.ts:35-38 | A refusal is the algorithm's refusal of the stored record, which stays as it is. |
| `RateLimitProtocol.EveryAcceptedCallIsLoggedOnce` | auth/storage/dynamodb/rate-limit-store.ts:24-49 | Over every run the accepted hits are as many as the accepted calls: no retry counts twice and no failed write counts. |
| `RateLimitProtocol.CallMovesOn` | auth/storage/dynamodb/rate-limit-store.ts:24-49 | Whatever the others do, a call is answered after at most five attempts of three steps. |
| `RateLimitProtocol.ConflictMeansFiveOtherWrites` | auth/storage/dynamodb/rate-limit-store.ts:24-30 | A conflict error means that at least five other writes to the key were committed during the call. |
| `RateLimitRuns.CommitTrackedIffPunctual` | auth/storage/dynamodb/rate-limit-store.ts:32-49 | A committed write keeps the stored record in agreement with the log of accepted hits exactly when its sample does not precede the stored window. |
| `RateLimitRuns.RunTrackedIffPunctual` | auth/storage/dynamodb/rate-limit-store.ts:24-49 | Over every run, with the expired item collected in between, record and log agree all along exactly when every committed write is punctual in this sense. |
| `RateLimitRuns.PunctualRunsAreBounded` | auth/storage/dynamodb/rate-limit-store.ts:24-89 | Both bounds hold in every run in which no committed sample precedes the stored window. |
| `RateLimitRuns.LateCommitExceedsIff` | auth/storage/dynamodb/rate-limit-store.ts:33-35 | After a late write made while the clock is in the stored window, the run can go on with punctual writes until that window holds more than the maximum exactly if windows are longer than a second, or the window held more than one hit, or the sample is not from the very second before. |
| `RateLimitRuns.LateCommitCanExceed` | auth/storage/dynamodb/rate-limit-store.ts:33-35 | In these cases the continuation is built, and the clock stays in the window. |
| `RateLimitRuns.CornerNeverExceeds` | auth/storage/dynamodb/rate-limit-store.ts:33-35 | In the corner that is left the stored second keeps to the maximum, however the run goes on with punctual writes. |
| `RateLimitRuns.StaleSampleBreaksBothBounds` | auth/storage/dynamodb/rate-limit-store.ts:33-35 | A run of three calls, all but one of its writes punctual, that breaks both bounds of a maximum of one. |
| `StoreOperations.FailureLeavesNoTrace` | auth/storage/disk-store.ts:42-68 | An operation that fails leaves the store exactly as it was, except that reuse of a refresh token revokes exactly its family and changes nothing else. |
| `StoreOperations.ReuseFails` | auth/storage/disk-store.ts:107-112 | Reuse always ends in invalid_grant, after its revocation was stored. |
| `StoreOperations.FailuresCanBeLeftOut` | auth/storage/store-file.ts:39-49 | Over a whole run, leaving out the requests that failed ends in the same store. |
| `DiskStore.WorkingCopy.RevokeFamily` | auth/storage/disk-store.ts:107-110 | The loop over the tokens revokes exactly one family. |
| `DiskStore.WorkingCopy.PruneStates` | auth/storage/disk-store.ts:213-217 | The loop deletes exactly the expired login states. |
| `DiskStore.WorkingCopy.PruneRateLimits` | auth/storage/rate-limit-store.ts:25-29 | The loop deletes exactly the expired rate-limit records. |
| `DiskStore.DiskOAuthStore.CreateAuthorizationCode` | auth/storage/disk-store.ts:19-40 | Stores the new code; the file changes in nothing else. |
| `DiskStore.DiskOAuthStore.ConsumeAuthorizationCode` | auth/storage/disk-store.ts:42-68 | The checks in order accept exactly what the one-step specification accepts; an error leaves the file as it was. |
| `DiskStore.DiskOAuthStore.CreateRefreshToken` | auth/storage/disk-store.ts:70-88 | Stores the first token of a new family. |
| `DiskStore.DiskOAuthStore.RotateRefreshToken` | auth/storage/disk-store.ts:90-132 | Rotation, refusal and reuse are the one-step rotation, with the revocation written before the error is raised. |
| `DiskStore.DiskOAuthStore.CreateUpstreamAuthorizationState` | auth/storage/disk-store.ts:134-157 | Prunes expired states and stores the new one. |
| `DiskStore.DiskOAuthStore.ConsumeUpstreamAuthorizationState` | auth/storage/disk-store.ts:159-169 | Removes and returns the state, or leaves the file as it was: an error also discards the pruning. |
| `DiskStore.DiskOAuthStore.SaveMcpSession` | auth/storage/disk-store.ts:171-175 | Stores the session under its hash. |
| `DiskStore.DiskOAuthStore.TouchMcpSession` | auth/storage/disk-store.ts:177-187 | Updates the session and reports whether it is initialized; an error leaves the file as it was. |
| `DiskStore.DiskOAuthStore.ReserveMcpRequestId` | auth/storage/disk-store.ts:189-200 | Grants a new id, reports a duplicate, or fails and leaves the file as it was, the time last seen included. |
| `DiskStore.DiskOAuthStore.TerminateMcpSession` | auth/storage/disk-store.ts:202-210 | Ends the session, or fails and leaves the file as it was. |
| `DiskStore.DiskRateLimitStore.Hit` | auth/storage/rate-limit-store.ts:15-23 | Prunes, applies the algorithm and stores; a refusal leaves the file as it was. |
| `StoreLock.AcquireLock` | auth/storage/store-lock.ts:35-47 | Polling ends: the lock is created at the first attempt that finds no file, or the call gives up after five seconds, in at most 501 attempts. |
| `StoreFileRuns.OneCallInsideTheLock` | auth/storage/store-lock.ts:25-33 | At most one call of any process is between creating and removing the lock file. |
| `StoreFileRuns.UpdatesAreSerial` | auth/storage/store-file.ts:39-50 | The file is always the result of the committed updates one after the other, each computed from what the one before it left. |
| `StoreFileRuns.StoreIsSequential` | auth/storage/store-file.ts:39-56 | With store operations as updates, the file is the store a single process reaches by performing the committed ones in order. |
| `StoreFileRuns.NoUpdateIsLost` | auth/storage/store-file.ts:43-48 | An update whose call returned is in the file for good. |
| `StoreFileRuns.CallsRunInIssueOrder` | auth/storage/store-file.ts:40-55 | When a call of a process has begun, all calls issued before it in that process have settled. |
| `StoreFileRuns.CommitsFollowIssueOrder` | auth/storage/store-file.ts:40-55 | The updates of one process are committed in the order in which they were issued. |
| `StoreFileRuns.NothingGetsStuck` | auth/storage/store-file.ts:51-55 | As long as a call is unsettled some call can take its next step towards success: a failed call blocks no later one, and no set of calls deadlocks. |
| `StoreHistory.CodeConsumedAtMostOnce` | auth/storage/disk-store.ts:42-68 | Over every sequence of store operations on the disk store no authorization code is consumed twice. |
| `StoreHistory.TokenRotatedAtMostOnce` | auth/storage/disk-store.ts:90-132 | Over every sequence of store operations, of whatever kinds, no refresh token is rotated twice. |
| `StoreHistory.ReuseEndsFamily` | auth/storage/disk-store.ts:98-110 | After the reuse of a token no later operation rotates a token of its family. |
| `StoreFileGuarantees.FileAlwaysReloads` | auth/storage/store-file.ts:39-50 | At every moment of every run of any number of processes the file reads back as exactly the store it holds. |
| `StoreFileGuarantees.ReturnedIsAnswered` | auth/storage/store-file.ts:43-48 | A call that returned was committed and answered from the store as the committed calls before it left it; its reply is a failure only if it was the reuse of a token, whose revocation it stored. |
| `StoreFileGuarantees.OneCallConsumesACode` | auth/storage/disk-store.ts:42-68 | Of all calls in all processes at most one succeeds in consuming a given code. |
| `StoreFileGuarantees.OneCallRotatesAToken` | auth/storage/disk-store.ts:90-132 | Of all calls in all processes at most one rotates a given refresh token. |
| `StoreFileGuarantees.ReuseEndsTheFamily` | auth/storage/disk-store.ts:98-110 | Once some process has stored the revocation for a reused token, no call of any process rotates a token of its family. |
| `UserProfiles.NormalizesIff` | auth/user-profile.ts:41-82 | A profile is accepted exactly when its six texts are absent or single lines of at most 256 characters, a subject and an email address are there, and the verified flag is a boolean or the text "true" or "false". |
| `UserProfiles.NormalizedSays` | auth/user-profile.ts:41-56 | An accepted profile says what its claims say, trimmed; missing names are made up as stated. |
| `UserProfiles.EmailMeans` | auth/user-profile.ts:68-73 | An address is a part, an at sign, a part, a dot and a part, without white space. |
| `Json.TrimCutsTheEnds` | auth/user-profile.ts:58-66 | Trimming takes away white space at the two ends and nothing else. |
| `UserProfiles.ProfileIsKept` | auth/user-profile.ts:41-56 | The normaliser returns a profile as it is exactly when its fields are trimmed, non-empty single lines of at most 256 characters and the email is one. |
| `UserProfiles.NormalizingIsIdempotentIffNameFits` | auth/user-profile.ts:41-72 | Normalising a normalised profile changes nothing if the display name fits 256 characters and fails if it does not. |
| `UserProfiles.LongDerivedNameIsRefused` | auth/user-profile.ts:51-69 | Such a profile exists: a given name of 256 letters, accepted from the provider and refused when written. |
| `RecordRows.CodeRoundTrip` | auth/storage/authorization-code-row.ts:7-57 | A code is printed and parsed back to itself exactly when it is storable. |
| `RecordRows.TokenRoundTrip` | auth/storage/refresh-token-row.ts:6-53 | The same for refresh tokens. |
| `RecordRows.StateRoundTrip` | auth/storage/upstream-authorization-state-row.ts:6-56 | The same for login states. |
| `RecordRows.SessionRoundTrip` | auth/storage/mcp-session-row.ts:5-47 | The same for sessions, whose empty list of request ids is left out of the row. |
| `RecordRows.LimitRoundTrip` | auth/storage/rate-limit-row.ts:4-21 | The same for rate-limit records. |
| `StoreCodec.MapRoundTrip` | auth/storage/store-codec.ts:39-52 | A map is printed and parsed back to itself exactly when its keys are hashes and its records survive. |
| `StoreCodec.StoreRoundTrip` | auth/storage/store-codec.ts:11-30 | The whole store is printed and parsed back to itself exactly when all keys are hashes and all records are storable. |
| `FileStability.ReadFileReloadsIff` | auth/storage/store-codec.ts:11-52 | Every file that parses can be written back and then reads as the same store, exactly if every display name in it fits 256 characters. |
| `StoreReload.PerformStaysStorable` | auth/storage/disk-store.ts:19-210 | Every operation on well-formed inputs keeps the store storable, its times in order included. |
| `StoreReload.ReachableStoresReload` | auth/storage/store-codec.ts:11-52 | Every store reached from the empty one by well-formed operations under a nondecreasing clock reloads to exactly itself. |
| `RefusedInputs.AcceptedAuthorizationReloadsIff` | auth/upstream-authorization.ts:18-26 | After an accepted authorization has stored its login state, the file reloads exactly when the client state is not blank and the challenge, if there is one, has 43 characters and no dot or tilde; otherwise the file is written and then refused as a whole. |
| `RefusedInputs.AcceptedIsStorableIff` | auth/authorize.ts:33-51 | Of all that validation lets through, nothing but the client state and the challenge can make the login state unstorable. |
| `RefusedInputs.AcceptedChallenge` | auth/storage/store-row-primitives.ts:31-36 | Of the challenges that PKCE allows, the parser takes exactly those of 43 characters without dot and tilde. |
| `RefusedInputs.RefusedRequestsAreAccepted` | auth/oauth-state.ts:3-12 | Validation accepts a request with a blank client state, and one with a challenge of tildes. |
| `ExpiringCache.LiveFacts` | auth/expiring-cache.ts:25-29 | Pruning keeps exactly the unexpired entries. |
| `ExpiringCache.ReadsIff` | auth/expiring-cache.ts:6-9 | A read finds a value exactly when an unexpired entry holds it under the key. |
| `ExpiringCache.Cache.PruneExpired` | auth/expiring-cache.ts:25-29 | The loop leaves the unexpired entries in their order. |
| `ExpiringCache.Cache.MakeRoom` | auth/expiring-cache.ts:17-21 | The eviction loop ends and drops just enough of the oldest entries, and none for a known key. |
| `ExpiringCache.Cache.Read` | auth/expiring-cache.ts:6-9 | Prunes and looks the key up. |
| `ExpiringCache.Cache.Write` | auth/expiring-cache.ts:11-23 | Prunes, then deletes, replaces in place, or makes room and appends. |
| `CacheHistory.NeverOverCapacity` | auth/expiring-cache.ts:11-23 | With capacity at least one the cache never holds more than its capacity, over every sequence of reads and writes. |
| `CacheHistory.NoRoomIsExceeded` | auth/expiring-cache.ts:17-22 | Without capacity a single write exceeds it, so capacity at least one is needed. |
| `CacheHistory.HitReturnsLatestUnexpiredValue` | auth/expiring-cache.ts:6-23 | A hit returns the value of the last write to the key, and that value has not expired. |
| `CacheHistory.WrittenIsFound` | auth/expiring-cache.ts:6-23 | After any history, a value that was just written is found exactly until it expires. |
| `CacheHistory.EvictionFollowsInsertion` | auth/expiring-cache.ts:17-22 | Entries keep their order, and one is evicted only from a full cache and only together with all entries before it. |
| `CacheHistory.SecondsRemaining` | auth/client-id-metadata-document.ts:39-41 | The remaining time is rounded up by less than a second. |
| `CacheHistory.LookUp` | auth/client-id-metadata-document.ts:17-18 | A lookup is one access of the history of memory, and a hit is the latest value written for the key, unexpired. |
| `CacheHistory.Remember` | auth/client-id-metadata-document.ts:19-33 | The answer of the durable store or of the network is one more access, on top of whatever other requests did since the lookup; memory stays within 64 entries, and an entry copied from the durable store expires less than a second after the durable one, apart from the time between the two clock readings. |
| `CacheHistory.HitServesAnAnswer` | auth/client-id-metadata-document.ts:13-33 | However any number of resolutions interleave, a hit serves an answer that was written for the key and may still be served: what was fetched for the seconds it came with, a durable entry less than a second past its expiry apart from that time. |
| `ClientAssertion.AssertionVerifier.RejectReplay` | auth/client-assertion.ts:121-128 | Prunes the memory and accepts exactly the keys that are not in it. |
| `ClientAssertion.AssertionVerifier.ValidateAssertionClaims` | auth/client-assertion.ts:99-108 | Applies the claim checks before the memory is touched. |
| `ClientAssertion.PassesIff` | auth/client-assertion.ts:99-138 | An assertion passes the claim checks exactly under the conditions on issuer, subject, audience, expiry, start, issue and identifier, each stated on its claim. |
| `ClientAssertion.HonestAssertionPasses` | auth/client-assertion.ts:99-112 | An assertion of at most 300 seconds, made by a client whose clock is within 60 seconds of this one, passes until it has expired by both clocks. |
| `ClientAssertion.PassingAssertionFits` | auth/client-assertion.ts:99-119 | Whatever its claims, an assertion passes only for its own client and audience and only within the window that its expiry fixes. |
| `ClientAssertion.KeyIsInjective` | auth/client-assertion.ts:125-138 | The combined key tells client and identifier apart, since an identifier holds no NUL. |
| `ClientAssertion.RememberedWhileAcceptable` | auth/client-assertion.ts:99-128 | An accepted assertion is remembered as long as its expiry passes the acceptance test. |
| `ClientAssertion.AcceptedAgainOnlyAfterExpiry` | auth/client-assertion.ts:99-128 | A client's identifier is accepted again only with a later expiry. |
| `ClientAssertion.AcceptedAtMostOnce` | auth/client-assertion.ts:99-128 | Over every run with a nondecreasing clock an assertion (client, identifier, expiry) is accepted at most once. |
| `ClientAssertion.OnlyRepetitionsAreRefused` | auth/client-assertion.ts:121-128 | An assertion that passes the checks is refused only if its client and identifier were accepted before. |
| `Scopes.JoinedScopesReadBack` | auth/scopes.ts:12-16 | A non-empty list of scopes, joined by spaces, splits back into itself at single spaces and at any white space. |
| `Scopes.JoinUndoesSplit` | auth/scopes.ts:15-15 | Joining undoes splitting for every text. |
| `Scopes.PatternMeansScopes` | auth/scopes.ts:6-16 | The pattern of a scope list holds exactly when every piece between single spaces is a scope. |
| `Scopes.ClaimAndRequestAgree` | auth/tokens/access-token.ts:101-104 | A scope claim is accepted exactly when the same text is accepted in an authorization request. |
| `Scopes.Dedup` | auth/scopes.ts:15-15 | Removing duplicates keeps the same scopes, each once. |
| `Scopes.DedupKeepsOrder` | auth/scopes.ts:15-15 | What comes first in the result occurred first. |
| `Scopes.ParsesIff` | auth/scopes.ts:12-16 | A scope request is accepted exactly when every piece between single spaces is a non-empty text of letters, digits and `:_./-`; it means these pieces, each once, in order of first occurrence, and without a request the three default scopes. |
| `Scopes.ParsedScopesReadBack` | auth/scopes.ts:12-16 | Parsed scopes are distinct and not none, and their text parses back to them. |
| `AccessToken.IssuedTokenVerifiesIff` | auth/tokens/access-token.ts:19-58 | An issued token verifies for an audience, required scopes and a time exactly when its claims are well formed and fit, the audience is its own, the scopes are among its own, and the time is from issue to before expiry. |
| `AccessToken.VerifiedClaimsAreTheInput` | auth/tokens/access-token.ts:19-37 | The claims of an issued token that verifies are the issuer's, the user's and the client's, each in its place, with the times of its issue and the scopes it was issued for. |
| `AccessToken.IssuedTokenFailsWith` | auth/tokens/access-token.ts:42-57 | Why an issued token fails: another audience, expiry, a time before its issue, a missing scope, in this order; it is never reported as issued in the future. |
| `AccessToken.AcceptsClaimsIff` | auth/tokens/access-token.ts:79-103 | The type checks pass for exactly the payloads with trimmed texts, scopes between single spaces, a boolean flag and whole dates. |
| `AccessToken.VerifiesIff` | auth/tokens/access-token.ts:42-58 | Any token verifies exactly when it is signed with the key it names, has well-formed claims, is for this issuer and audience, is within its times and has every required scope. |
| `AccessToken.VerifiedTokenFits` | auth/tokens/access-token.ts:42-58 | Any token that verifies was signed with the configured key it names, is for this issuer and audience, is within its times, and has a scope list that holds the required scopes. |
| `AccessToken.RotatedKeysStillVerify` | auth/tokens/signing-keys.ts:31-40 | After a change of the active key a token issued before verifies as before while its key is listed. |
| `Authorization.ResolvesIff` | auth/oauth-resource.ts:12-34 | A resource resolves to the first one of the client's with the canonical form of the requested text, unless one without a canonical form comes before; without a request only a GPT Actions client with a single resource has one. |
| `Authorization.ResolvedIsAllowedAndStable` | auth/oauth-resource.ts:12-34 | A resolved resource is one the client is registered for, and resolves to itself. |
| `Authorization.ValidatesIff` | auth/authorize.ts:33-51 | Check by check, exactly which authorization requests are accepted. |
| `Authorization.ValidatedIsRequested` | auth/authorize.ts:35-51 | What is accepted says what was asked: client, redirect, resolved resource, the requested scopes in order of first occurrence or the default ones, state, nonce and challenge. |
| `Authorization.ValidatedIsAllowed` | auth/authorize.ts:33-51 | A validated authorization stays within the client's redirects, resources and scopes, and carries a challenge if the client must use PKCE. |
| `ProvenanceRuns.ResponseTracesBack` | auth/tokens/authorization-code.ts:8-36 | Every token response traces back to one consumed code and one consumed login state, with the client, resource and scopes fixed at authorization and the user and time of the login, within what the client is registered for; the nonce of its ID token is the one of the authorization. |
| `ProvenanceRuns.RedemptionMatchesAuthorization` | auth/tokens/authorization-code.ts:8-19 | A code is redeemed only with the client, redirect, resource and PKCE challenge of its authorization. |
| `ProvenanceRuns.FamiliesDoNotShareOrigins` | auth/upstream-authorization.ts:18-60 | Distinct token families come from distinct codes and distinct login states. |
| `ProvenanceRuns.FamilyResponsesAgree` | auth/tokens/refresh-token.ts:8-20 | All responses of one family grant the same. |
| `GrantRuns.AuthorizesIff` | auth/authorize.ts:27-51 | An authorization request gets a login state exactly when it is valid. |
| `GrantRuns.LogsInIff` | auth/endpoints.upstream-callback.ts:21-21 | A callback goes on exactly when its login state is stored and unexpired, and the state is then gone. |
| `GrantRuns.RedeemsIff` | auth/tokens/authorization-code.ts:8-19 | A code is redeemed exactly when it is stored, unconsumed and unexpired, its client presents it with its redirect, for its resource and with its verifier, and all its scopes are still allowed. |
| `GrantRuns.CodeGrantResponds` | auth/tokens/authorization-code.ts:20-36 | A redeemed code is answered with what the authorization entitles to, its nonce, and the first token of a new family. |
| `GrantRuns.RefreshRespondsIff` | auth/tokens/refresh-token.ts:8-20 | A refresh is answered exactly when the token is stored, unrevoked, unexpired and unrotated and its client presents it for its own resource; the answer has no nonce. |
| `GrantRuns.HonestClientIsServed` | auth/tokens/authorization-code.ts:8-36 | Every accepted authorization can be carried through, in time, to tokens and to refreshed tokens. |
| `McpLifecycle.DispatchedOnlyAfterInitialized` | mcp/protocol.ts:38-64 | A list, call or read is dispatched only for a session for which, earlier in the run, a post that named the session brought a well-formed initialized notification. |
| `McpLifecycle.PassesTheGateIff` | mcp/protocol.ts:38-44 | At the gate a request with an id is dispatched exactly when its touch reported an initialized session or its method is initialize, ping or notifications/initialized; a notification is accepted exactly when it is the well-formed initialized notification of a named session, which then is marked. |
| `McpLifecycle.PassesTheTouchIff` | mcp/endpoints.mcp.ts:45-48 | A post gets past the touch exactly when its session is stored, not terminated, unexpired and of the given protocol version. |
| `McpLifecycle.PassesTheReservationIff` | mcp/protocol.ts:38-38 | A request gets to the gate exactly when its session is live, does not know the id and has fewer than 4096. |
| `McpProgress.NewRequestIsDispatched` | mcp/protocol.ts:38-44 | Every new request on a live, initialized session with room can be carried through to its dispatch. |
| `McpProgress.ToolsAreListed` | mcp/endpoints.mcp.ts:45-57 | A run from nothing that creates a session, initializes it and dispatches a list of tools. |
| `McpLifecycle.DeletesIff` | mcp/endpoints.mcp.ts:94-96 | A deletion terminates the session exactly when it is live. |
| `McpLifecycle.EndedSessionAnswersNoMore` | mcp/endpoints.mcp.ts:48-48 | Once a session is terminated, every post that names it is turned away at its touch. |
| `McpLifecycle.EndedSessionReservesNoMore` | mcp/protocol.ts:38-38 | Once a session is terminated, a request that was touched before gets no id any more. |
| `McpLifecycle.TouchedSessionIsLive` | mcp/endpoints.mcp.ts:46-49 | A fact about the model: what a post knows about its session was read from a live record. |
| `McpLifecycle.InitializationIsFinal` | auth/storage/disk-store.ts:177-200 | Initialization is never undone. |
| `McpLifecycle.IdReservedBeforeTheGate` | mcp/protocol.ts:38-38 | A request with an id is at the gate of a session only after that id was reserved for it. |
| `McpLifecycle.EachIdDispatchedByOnePost` | mcp/protocol.ts:38-43 | Within a session no id is dispatched by two posts. |
| `McpSharedLifecycle.DispatchedOnlyAfterInitialized` | mcp/protocol.ts:38-64 | The same over the shared store, where touches read before they update and the item may be collected: nothing passes the gate before a well-formed initialized notification. |
| `McpSharedLifecycle.PassesTheGateIff` | mcp/protocol.ts:38-44 | The same gate over the shared store, in both directions. |
| `McpSharedProgress.NewRequestIsDispatched` | mcp/protocol.ts:38-44 | Over the shared store every new request on a live, initialized session with room can be carried through to its dispatch. |
| `McpSharedProgress.ToolsAreListed` | mcp/endpoints.mcp.ts:45-57 | A run from nothing over the shared store that initializes a session and dispatches a list of tools. |
| `McpSharedLifecycle.IdReservedBeforeTheGate` | mcp/protocol.ts:38-38 | Over the shared store a request with an id is at the gate only after its own call was granted that id. |
| `McpSharedLifecycle.EachIdDispatchedByOnePost` | mcp/endpoints.mcp.ts:49-56 | Over the shared store no id is dispatched by two posts of a session. |
| `McpSessionProtocol.NextKeepsGrants` | auth/storage/dynamodb/mcp-sessions.ts:77-94 | Every step keeps it so that no two calls were granted the same id. |

## Left out

- RateLimitRuns.PunctualRunsAreBounded: assumes that no committed sample precedes the stored window, because `RateLimitRuns.LateCommitExceedsIff` shows when the bound fails without it.
- RateLimitRuns.LateCommitExceedsIff: asks for a clock still in the stored window and punctual writes afterwards, and speaks of that window alone.
- RateLimitRuns.RunTrackedIffPunctual: assumes that the record is collected only once it has expired at the clock and at every sample in flight.
- RateLimitProtocol.ConflictMeansFiveOtherWrites: assumes the same about collection, since a collected record also makes a write fail.
- StoreFileRuns.UpdatesAreSerial: assumes that no lock file reaches its stale time, because recovery removes the file by path and not by token.
- RefreshRuns.RunRefinesDisk: assumes one configured lifetime, fresh random values, a clock above zero, and that an item is collected only once it has expired for every request in flight; a read that finds no item settles its request at the read.
- CodeRuns.RunRefinesDisk: assumes that an item is collected only once it has expired for every request in flight; `CodeSafety` does without.
- StoreFileGuarantees.FileAlwaysReloads: assumes well-formed inputs at the time each callback runs, distinct random values and a file that starts empty after the first second of the epoch.
- StoreReload.ReachableStoresReload: asks for inputs the parser accepts (a challenge like a digest, a client state and texts that are not blank, a display name that fits); `RefusedInputs` and `UserProfiles` show what happens otherwise.
- RefusedInputs.AcceptedAuthorizationReloadsIff: assumes that registration keeps blank client names, redirects and resources out, and that the random values are well formed.
- CacheHistory.Remember: takes the parsed document as given and leaves out the errors of fetching and parsing.
- AccessToken.IssuedTokenVerifiesIff: uses an ideal signature and takes the length of the encoded token as a parameter.
- ProvenanceRuns.ResponseTracesBack: takes the client registry as fixed and the user as whatever the identity provider returns.
- ClientAssertion.AcceptedAtMostOnce: holds for one process, because the memory against replay is not shared.
- Floating point: the weighted count of the rate limiter is multiplied out and compared in whole numbers.
- The exact values of the times last seen and initialized under races: only whether they are set is tracked.
- McpSharedLifecycle.DispatchedOnlyAfterInitialized: follows the posts of one session; that initialization is final is not carried over, because a collected item is gone.
- UserProfiles.ProfileIsKept: counts the length of a text in Unicode scalars, while the source counts UTF-16 units; so do the limits of the authorization request.
- Crashes, durability of writes, recovery of stale locks and modes of files.
- HTTP, headers, CORS, server-sent events and the legacy SSE transport, apart from the order of the steps of a post.
- Hashing, signatures, base64url, URLs, DNS and fetching; JSON text is known only by the promise that parsing undoes printing.
- Client authentication other than the claims of an assertion, the parsing of JSON web keys, and ID tokens.
- Tool calls, resources, widgets, pagination, schema and media-type validation, discovery, configuration and diagnostics: single checks and templates.
