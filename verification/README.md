# OpenHUB core models

A Dafny model of the stateful and parsing cores of the OpenHUB Python backend, with proofs of what they promise.
`dafny verify dfyconfig.toml` checks the whole project.

| component | source | files |
|---|---|---|
| cross-replica cache invalidation and the versioned API-key cache | `app/core/cache/invalidation.py`, `app/core/auth/api_key_cache.py`, `app/core/auth/dependencies.py` | `ApiKeyCache.dfy`, `Invalidation.dfy`, `InvalidationProofs.dfy`, `InvalidationRuns.dfy`, `InvalidationDelivery.dfy`, `InvalidationCoherence.dfy`, `InvalidationWitnesses.dfy` |
| account selector | `app/core/balancer/logic.py` | `Accounts.dfy`, `Cooldown.dfy`, `SortKeys.dfy`, `Selection.dfy`, `SelectionProofs.dfy`, `SelectionOrder.dfy`, `FallbackOrder.dfy`, `Strategies.dfy`, `AccountFacts.dfy`, `RelativeAvailability.dfy`, `Probing.dfy`, `Selector.dfy` |
| Forwarded parser, trusted-hop walk, proxy-header modes | `app/core/request_locality.py` | `Forwarded.dfy`, `ForwardedProofs.dfy`, `ForwardedSound.dfy`, `HeaderText.dfy`, `ClientAddress.dfy`, `ClientAgreement.dfy` |
| leased HTTP client generations | `app/core/clients/http.py` | `HttpClients.dfy`, `HttpClientProofs.dfy` |
| byte-budgeted archive queue | `app/core/conversation_archive.py` | `ArchiveQueue.dfy`, `ArchiveRuns.dfy` |
| migration-chain validator | `scripts/rewrite_alembic_revisions.py` | `RevisionChain.dfy` |
| provider retagging | `app/codex_sessions_retag.py` | `Retag.dfy` |

`Basics.dfy`, `Text.dfy` (Python's `strip` and `join`), `Listings.dfy` (distinctness, permutations) and `Traces.dfy` (runs) are shared.

## How the models are built

* Objects and module globals that the code updates in place are classes; each method is proved against a function of
  the old state. Three protocols (invalidation, leases, archive) also have a step relation in which every `await`,
  lock or thread switch is a step boundary. Their theorems speak about every state of every run (`Trace`, `Run`).
* Invalidation: any number of replicas share one version row per namespace. A replica runs any number of polls,
  flushes, bumps, `bump_local` calls, key mutations and key reads at once; a bump may commit and still report failure;
  callbacks may fail. A key read remembers the cache version and how far the shared row had come when it began. Both
  `History` fields record the past only for the proofs; no step reads them.
* Leases: clients are numbered in creation order, a lease is an object that is held, closing or released, and the lock
  is held across the build of a new client.
* Archive: producers between reserving and queueing, a bounded queue, and a writer that may die of an exception and
  be restarted. How many of a path's records an append writes is arbitrary.
* Selector: floats are `real`; the clock and `last_selected_at` stamps are inputs; `random.choices` returns any item
  of positive weight; SHA-256 digests are compared as the numbers their digits denote, the salted one injective in
  the account id; plan facts and the power function are parameters. `Selectable` lists every account a call may return.
  An account is a class with the fields that selection or the failure handlers write, and a `Profile` record of the
  fields they only read.
* Forwarded: the printer of `ForwardedProofs.dfy` is the grammar of sections 4 and 6 of RFC 7239 with quoted strings of
  section 3.2.6 of RFC 7230; any character of a quoted string may be escaped, and white space may surround parameters.
  `ip_address` is a parameter; the proofs use which characters addresses consist of (`Plausible`).
* Retagging: lines carry what `json.loads` makes of them; databases are columns of provider values.

## Findings

* The selector's backoff fallback depends on the order of the input exactly when two different accounts tie for the
  next recovery and at least one of them would be chosen if it were the only candidate
  (`FallbackOrder.FallbackOrderMatters`, for every traffic class and probe mode; `FallbackOrder.TieDependsOnOrder` is a
  case). Without the fallback the order is irrelevant, random draws included.
* `bump_local` can acknowledge a peer's bump without any callback, as its documentation says
  (`InvalidationWitnesses.LocalBumpAbsorbsPeerBump`). On a primed replica that is the only way: an event raises the
  acknowledged version without a successful round of callbacks if and only if it records a higher version for a
  `bump_local` (`InvalidationDelivery.SilentRaiseIsOwn`).
* The documentation of `prime` says that it never invokes a callback. It does so on an initialized poller that has
  missed a bump (`InvalidationWitnesses.PrimingInitialized`) and on one that was never initialized but acknowledged an
  older version through `bump_local` (`InvalidationWitnesses.PrimingUninitialized`). A poll starts no round of callbacks
  if and only if no row it reads is a change against the poller's state (`Invalidation.SilentIffUnchanged`); in
  particular priming is silent while nothing was initialized or acknowledged (`Invalidation.FreshPrimeIsSilent`).
* The weekly floor of a preserved account is 5 whenever it is behind pace: the smaller steps for the last day and the
  last six hours never show (`AccountFacts.WeeklyFloorFacts`).
* The cooldown between rotations for reports that name no session does not survive a shutdown
  (`HttpClientProofs.ShutdownForgetsCooldown`); such a report rotates if and only if a client is current and the latest
  failure rotation since the last shutdown is old enough (`HttpClientProofs.SessionlessReportRotates`).
* The validator's "unreachable revisions" report never names a revision: every revision is the start of a walk. It
  appears exactly next to a missing-target report.
* Rewriting one session record twice is not the same as rewriting it once exactly when both its tags name the source
  (`Retag.RewriteTwice`, `Retag.TwoTagsNeedTwoRewrites`). A second whole run still changes nothing.
* Precedence mode is silent where consensus resolves exactly when a singleton header is repeated (with blank values
  only, or consensus would not resolve), or a present but blank header stands before every header that speaks
  (`ClientAgreement.PrecedenceGivenConsensus`, with `RepeatedBlankSilencesPrecedence` and
  `BlankHeaderSilencesPrecedence`).

## Model

| member | source | states |
|---|---|---|
| `ApiKeyCaching.ApiKeyCache.Get` | app/core/auth/api_key_cache.py:30-34 | Returns exactly the entries that have not expired. |
| `ApiKeyCaching.ApiKeyCache.Set` | app/core/auth/api_key_cache.py:36-43 | A version that moved since the caller looked makes it a no-op; otherwise it stores the entry with its expiry, evicting an entry that expires first only at capacity, keeps every other entry, and the cache stays within its bound. |
| `ApiKeyCaching.ApiKeyCache.Invalidate` | app/core/auth/api_key_cache.py:45-48 | Drops the key and advances the version even if the key was absent. |
| `ApiKeyCaching.ApiKeyCache.Clear` | app/core/auth/api_key_cache.py:50-52 | Empties the cache and advances the version. |
| `Invalidation.CacheInvalidationPoller.RequestBump` | app/core/cache/invalidation.py:153-161 | Adds one coalescing marker and nothing else. |
| `Invalidation.CacheInvalidationPoller.Acknowledge` | app/core/cache/invalidation.py:210-212 | Raises the acknowledged version to the observed one, never lowers it. |
| `Invalidation.CacheInvalidationPoller.FlushPendingBumps` | app/core/cache/invalidation.py:274-283 | Exactly the namespaces whose bump failed stay pending. |
| `Invalidation.CacheInvalidationPoller.ReconcileRows` | app/core/cache/invalidation.py:307-329 | Callbacks run for exactly the rows that are changes against the state before the poll, in row order. |
| `Invalidation.RowRecorded` | app/core/cache/invalidation.py:307-327 | After the row loop each row is acknowledged without rewinding, unless it was a change and its callbacks failed; then it is as before. |
| `Invalidation.SilentIffUnchanged` | app/core/cache/invalidation.py:307-319 | An uninterrupted poll starts no round of callbacks if and only if no row is a change against the state before it. |
| `Invalidation.UninitializedPoll` | app/core/cache/invalidation.py:318-319 | Before initialization that is so if and only if nothing read is newer than what is acknowledged. |
| `Invalidation.FreshPrimeIsSilent` | app/core/cache/invalidation.py:106-128 | Priming a poller that is neither initialized nor has acknowledged anything invokes no callback. |
| `InvalidationProofs.StepKeepsInv` | app/core/cache/invalidation.py:106-345 | Every step of every interleaving keeps the invariant tying known, pending, in-flight polls, bumps and reads to the shared rows. |
| `InvalidationProofs.RunKeepsInv` | app/core/cache/invalidation.py:106-345 | The invariant holds in every state of every run. |
| `InvalidationRuns.NeverRewinds` | app/core/cache/invalidation.py:178-212 | In every run, acknowledged and shared versions never decrease and a primed replica stays primed. |
| `InvalidationRuns.AcknowledgedBelowShared` | app/core/cache/invalidation.py:307-327 | In every run, no acknowledged version exceeds the shared one. |
| `InvalidationRuns.RequestNeverLost` | app/core/cache/invalidation.py:153-161 | After a request the namespace is pending, its flush is in flight, or the shared version rose since. |
| `InvalidationRuns.PollFlushesFirst` | app/core/cache/invalidation.py:274-294 | In every run, a poll begun while a namespace is pending takes its marker and starts its bump before it reads any row. |
| `InvalidationRuns.GivesUpAfterThree` | app/core/cache/invalidation.py:163-176 | In every run, an operational error ends a bump if and only if it is the third of that bump; all three are exhibited. |
| `InvalidationRuns.VersionsAreConserved` | app/core/cache/invalidation.py:214-252 | The final version is the initial one plus the number of bumps committed by all replicas. |
| `InvalidationDelivery.RaisedExactly` | app/core/cache/invalidation.py:307-327 | In every run, an event raises a primed replica's acknowledged version to w if and only if it ends a round for w in which every callback succeeded, or records w for a `bump_local`. |
| `InvalidationDelivery.SilentRaiseIsOwn` | app/core/cache/invalidation.py:178-212 | In every run, an event raises it without a successful round if and only if it records a higher version for a `bump_local`. |
| `InvalidationDelivery.AcknowledgedIsDelivered` | app/core/cache/invalidation.py:285-345 | Whatever a primed replica has acknowledged since was acknowledged by the end of one round that called every callback to success after the version was committed, or by the record of a `bump_local` that read back at least that version; the event is exhibited. |
| `InvalidationDelivery.NoLostInvalidation` | app/core/cache/invalidation.py:285-345 | Without `bump_local` on the namespace, the acknowledged version passes a version v committed after priming only at the end of one round, begun after v was committed, in which every callback succeeded. |
| `InvalidationDelivery.StaleRowIsSilent` | app/core/cache/invalidation.py:313-327 | In every run, a snapshot row no newer than a version acknowledged at any earlier point, even during the poll, starts no round and raises nothing. |
| `InvalidationDelivery.FailedRoundIsRetried` | app/core/cache/invalidation.py:319-324 | In every run, a failed round acknowledges nothing, and a later row at least as new runs the callbacks again if and only if its version was not acknowledged in between. |
| `InvalidationCoherence.EntryOrigin` | app/core/auth/dependencies.py:98-118 | Every cached entry was stored by a read of the run, whose start and store are exhibited. |
| `InvalidationCoherence.StoredIffUndisturbed` | app/core/auth/dependencies.py:110-116 | In every run, a finished read is stored if and only if the cache version did not move since it began. |
| `InvalidationCoherence.OwnInvalidationHolds` | app/modules/api_keys/service.py:707-710 | In every run, once a replica itself dropped a key, whatever it holds of that key comes from a read that began afterwards. |
| `InvalidationCoherence.MutationPrecedesCommit` | app/modules/api_keys/service.py:707-710 | Every commit that announces a key mutation comes after that mutation, by the same task of the same replica; the mutation is exhibited. |
| `InvalidationCoherence.Coherence` | app/core/auth/dependencies.py:98-118 | Once a replica acknowledged api_key version v, every entry it holds comes from a read that began after the commit of v, and after the key mutation that commit announces, even if the read finished after the clear; commit, start and store are exhibited. |
| `InvalidationWitnesses.LocalBumpAbsorbsPeerBump` | app/core/cache/invalidation.py:189-194 | A run without any callback in which `bump_local` acknowledges a peer's bump. |
| `InvalidationWitnesses.PrimingInitialized` | app/core/cache/invalidation.py:106-128 | A run that ends with a poll of an initialized poller starting a callback. |
| `InvalidationWitnesses.PrimingUninitialized` | app/core/cache/invalidation.py:106-128 | A run that ends with a poll starting a callback although the poller is never initialized. |
| `HttpClients.HttpClientModule.StartClientClose` | app/core/clients/http.py:211-220 | Starts a close at most once and moves the client from retired to closing. |
| `HttpClients.HttpClientModule.RequestClientClose` | app/core/clients/http.py:223-229 | Retires a client with live leases unless forced, otherwise starts its close. |
| `HttpClients.HttpClientModule.AcquireHttpClient` | app/core/clients/http.py:241-246 | Counts one more lease of the current client, or refuses. |
| `HttpClients.HttpClientModule.ReleaseHttpClient` | app/core/clients/http.py:232-238 | Raises exactly below zero; the last lease of a client asked to close starts the close. |
| `HttpClients.HttpClientModule.RefreshHttpClient` | app/core/clients/http.py:290-299 | The new client is current, the previous one is asked to close: retired with its leases, or with a close task. |
| `HttpClients.HttpClientModule.RefreshAfterNetworkFailure` | app/core/clients/http.py:302-331 | Each of the four outcomes as an if and only if over the current client, the reported session, the last rotation and the time; only a rotation changes anything. |
| `HttpClients.HttpClientModule.CloseHttpClient` | app/core/clients/http.py:334-348 | Forces the close of the current, retired and closing clients. |
| `HttpClientProofs.StepKeepsInv` | app/core/clients/http.py:193-350 | Every step keeps lists, counts, close tasks and the lock consistent. |
| `HttpClientProofs.RunKeepsInv` | app/core/clients/http.py:193-350 | That holds in every state of every run. |
| `HttpClientProofs.ReleaseNeverRaises` | app/core/clients/http.py:232-238 | In every run a lease object's release finds a positive count equal to the number of open leases. |
| `HttpClientProofs.LeaseSafety` | app/core/clients/http.py:98-119 | In every run: counts equal open leases; the current client was never asked to close; every other client is retired with live leases or has a close task; at most one close each; an unforced close has no live lease. |
| `HttpClientProofs.ForcedOnlyByShutdown` | app/core/clients/http.py:345-348 | Only a shutdown starts a close over live leases. |
| `HttpClientProofs.NeverCurrentAgain` | app/core/clients/http.py:290-331 | A replaced client never becomes current again. |
| `HttpClientProofs.RotatedAtMostOnce` | app/core/clients/http.py:313-318 | However many reports name sessions of one generation, at most one rotates it away. |
| `HttpClientProofs.GuardsHold` | app/core/clients/http.py:193-350 | The invariant implies every guard of the step relation that looks up a client, so those guards exclude no step. |
| `HttpClientProofs.NamedReportRotates` | app/core/clients/http.py:313-331 | In every run, a report that names a session starts a rotation if and only if the session belongs to the current client, however recent the last rotation. |
| `HttpClientProofs.SessionlessReportRotates` | app/core/clients/http.py:319-325 | In every run, a report that names no session starts a rotation if and only if a client is current and the latest failure rotation since the last shutdown, if any, is at least the cooldown ago. |
| `HttpClientProofs.CooldownKept` | app/core/clients/http.py:319-329 | A rotation whose report names no session comes at least the cooldown after the previous failure rotation, unless a shutdown lies between them. |
| `HttpClientProofs.ShutdownForgetsCooldown` | app/core/clients/http.py:334-338 | A run with two such rotations half a second apart and a shutdown between them. |
| `ArchiveQueue.GroupByPath` | app/core/conversation_archive.py:268-270 | Each path gets its records of the batch, all of them, in order. |
| `ArchiveQueue.Archive.Reserve` | app/core/conversation_archive.py:313-334 | Reserves if and only if the bytes stay within the limit, or the record is larger than the limit and nothing is reserved. |
| `ArchiveQueue.Archive.Release` | app/core/conversation_archive.py:337-341 | Subtracts, clamped at zero. |
| `ArchiveQueue.Archive.EnqueueRecord` | app/core/conversation_archive.py:179-211 | A producer queues its record, or waits for bytes having reserved nothing, or waits for room holding its reservation. |
| `ArchiveQueue.Archive.TakeBatch` | app/core/conversation_archive.py:231-249 | Takes the slots up to and including the first stop marker, which alone is marked done. |
| `ArchiveQueue.Archive.FinishBatch` | app/core/conversation_archive.py:251-254 | Given reserved bytes, releases exactly the batch's bytes and marks each item done once. |
| `ArchiveQueue.Archive.WriterRound` | app/core/conversation_archive.py:229-255 | One round releases exactly the bytes it took and marks exactly the slots it took. |
| `ArchiveRuns.StepKeepsInv` | app/core/conversation_archive.py:179-341 | Every step of producers and writer keeps byte, task and order accounts. |
| `ArchiveRuns.RunKeepsInv` | app/core/conversation_archive.py:179-341 | They hold in every state of every run. |
| `ArchiveRuns.BytesAccounted` | app/core/conversation_archive.py:313-334 | In every run the counter is the sum of reserved, queued and in-batch sizes, and over the limit only for a single oversized record. |
| `ArchiveRuns.ReserveExactly` | app/core/conversation_archive.py:330-334 | In every run, a record may be reserved if and only if it fits beside all live records, or it is oversized and nothing is live. |
| `ArchiveRuns.IdleAcceptsAny` | app/core/conversation_archive.py:330-334 | In every run, with nothing live any record may be reserved. |
| `ArchiveRuns.ReleaseNeverClamps` | app/core/conversation_archive.py:337-341 | In every run every release subtracts its full size. |
| `ArchiveRuns.JoinMeansDrained` | app/core/conversation_archive.py:175-176 | Unfinished work is never negative and zero exactly when nothing is queued or held; then every accepted record was handled. |
| `ArchiveRuns.OrderPreserved` | app/core/conversation_archive.py:262-289 | In every run each file is a subsequence of what was accepted for it, a prefix if nothing was lost, and all of it after a join. |
| `ArchiveRuns.WriterLivesOn` | app/core/conversation_archive.py:229-255 | In every run, a started writer lives on as long as nobody queues a stop marker and no append raises. |
| `ArchiveRuns.StoppingWriterTakesNothing` | app/core/conversation_archive.py:229-255 | In every run, once it has met a stop marker or an exception it takes nothing more from the queue until started again. |
| `RevisionChain.CollectFile` | scripts/rewrite_alembic_revisions.py:58-88 | Each error of one file as an if and only if: no revision, no down revision, a repeated id, a wrong name. |
| `RevisionChain.Collect` | scripts/rewrite_alembic_revisions.py:58-88 | No error exactly when every file is acceptable; the dictionary and target set agree. |
| `RevisionChain.MissingTargets` | scripts/rewrite_alembic_revisions.py:90-92 | Reports exactly the revisions built on an absent one, with that one. |
| `RevisionChain.Walk` | scripts/rewrite_alembic_revisions.py:104-114 | Terminates, and reports a cycle exactly when following down revisions would never end. |
| `RevisionChain.WalkAll` | scripts/rewrite_alembic_revisions.py:102-115 | Visits every revision, and nothing else if and only if all targets exist; reports a cycle exactly when some walk never ends. |
| `RevisionChain.ChecksIffLinear` | scripts/rewrite_alembic_revisions.py:90-115 | One root, one head, existing targets and ending walks hold exactly of one linear chain covering every revision. |
| `RevisionChain.ValidateChain` | scripts/rewrite_alembic_revisions.py:52-121 | No errors if and only if all files are acceptable and the revisions form one linear chain; "unreachable" names nothing and appears if and only if a missing target is reported. |
| `Retag.RewriteMovesProvider` | app/codex_sessions_retag.py:277-304 | Although reader and writer use different precedence, rewriting a record moves the provider the reader sees from source to target and changes no other. |
| `Retag.ProviderExactly` | app/codex_sessions_retag.py:277-288 | By lookups: the reader sees a top-level string, or else the payload's string of a session_meta record only. |
| `Retag.RewrittenExactly` | app/codex_sessions_retag.py:291-304 | By lookups: the writer changes the top-level tag, or else the payload's tag of a session_meta record only, and no other key. |
| `Retag.OtherRecordsUntouched` | app/codex_sessions_retag.py:295-296 | A record that is no session_meta and has no top-level source tag is returned as it is. |
| `Retag.HiddenMatch` | app/codex_sessions_retag.py:277-304 | The writer touches a record the reader does not count exactly when a different top-level tag hides a payload tag. |
| `Retag.RewriteTwice` | app/codex_sessions_retag.py:291-304 | A second rewrite of a record changes it if and only if both tags name the source. |
| `Retag.TwoTagsNeedTwoRewrites` | app/codex_sessions_retag.py:291-304 | A record for which that happens. |
| `Retag.FileMoves` | app/codex_sessions_retag.py:223-263 | The providers read from a file afterwards are the old ones with the source renamed. |
| `Retag.RetagMovesCounts` | app/codex_sessions_retag.py:91-121 | The source count becomes 0, the target count gains it, every other count stays. |
| `Retag.OtherLinesUntouched` | app/codex_sessions_retag.py:227-263 | Every line the writer does not match, and every line of a file without the source, stays verbatim. |
| `Retag.SecondRunChangesNothing` | app/codex_sessions_retag.py:91-121 | A second whole run changes no file and no database. |
| `Retag.ProviderCounts` | app/codex_sessions_retag.py:420-443 | The counts are exactly the occurrences of each provider over files and databases. |
| `Retag.RetagJsonlFile` | app/codex_sessions_retag.py:227-263 | Every matched line is rewritten, every other kept; changed exactly if some line matched. |
| `Retag.ReaderImpliesWriter` | app/codex_sessions_retag.py:223-224 | A file in which the reader finds the source always has a line the writer matches. |
| `Retag.UpdateFiles` | app/codex_sessions_retag.py:91-121 | Exactly the files with the source are rewritten, and each counts as updated. |
| `Retag.MatchedFilesCount` | app/codex_sessions_retag.py:94-94 | The reported number of matched files is the number of files in which the reader finds the source. |
| `Retag.UpdateDbs` | app/codex_sessions_retag.py:334-343 | Every row of the source is moved and counted. |
| `Retag.RetagCodexSessions` | app/codex_sessions_retag.py:65-157 | Refuses exactly unsupported or equal providers; a dry run or refusal changes nothing; a real run applies the transformation and reports true counts. |
| `Retag.ReportMovesCounts` | app/codex_sessions_retag.py:91-144 | In the report the source is gone, the target gained it and every other count is unchanged. |
| `Forwarded.SplitForwardedValue` | app/core/request_locality.py:226-256 | The loop computes the quote-aware split, errors included. |
| `Forwarded.UnquoteForwardedValue` | app/core/request_locality.py:276-297 | The loop computes the unescaped text, errors included. |
| `Forwarded.ParseForwardedElement` | app/core/request_locality.py:369-380 | The inner loop computes the element's hop. |
| `Forwarded.ParseForwardedForChain` | app/core/request_locality.py:366-381 | The outer loop computes the hops. |
| `ForwardedProofs.SplitJoin` | app/core/request_locality.py:226-256 | Splitting undoes joining pieces whose quotes are balanced and that hold no delimiter outside quotes. |
| `ForwardedProofs.JoinWhole` | app/core/request_locality.py:226-256 | Parameters joined by semicolons keep balanced quotes for the comma split. |
| `ForwardedProofs.SplitStrippedElement` | app/core/request_locality.py:368-371 | The inner split of an element the outer split stripped yields its bare pairs. |
| `ForwardedProofs.UnescapeUndoes` | app/core/request_locality.py:281-297 | Unescaping yields the quoted text, whichever characters were escaped. |
| `ForwardedProofs.UnquoteUndoes` | app/core/request_locality.py:276-297 | Unquoting undoes quoting. |
| `ForwardedProofs.PairUndoes` | app/core/request_locality.py:351-363 | Parsing a printed pair returns its lower-case name and the text its value stands for. |
| `ForwardedProofs.V4Port` | app/core/request_locality.py:327-348 | A quoted IPv4 node with a port yields its address. |
| `ForwardedProofs.V6Undoes` | app/core/request_locality.py:311-348 | A bracketed IPv6 node, with or without port, yields its address. |
| `ForwardedProofs.ElementUndoes` | app/core/request_locality.py:369-380 | An element with distinct parameters yields the address of its `for`. |
| `ForwardedProofs.RoundTrip` | app/core/request_locality.py:366-381 | Parsing any printed header returns exactly its addresses in order. |
| `ForwardedSound.SplitSound` | app/core/request_locality.py:226-256 | The parts are the stripped pieces of a join that gives back the text. |
| `ForwardedSound.ParseSound` | app/core/request_locality.py:366-381 | Every accepted text is the print of a well-formed header with the returned addresses. |
| `ForwardedSound.ParserExact` | app/core/request_locality.py:226-381 | The parser accepts exactly the printed headers and returns exactly their addresses. |
| `HeaderText.SpaceCodes` | app/core/request_locality.py:247-255 | The white space that stripping removes, by code point. |
| `HeaderText.TokenCharacters` | app/core/request_locality.py:24-24 | Tokens are made of exactly the token characters. |
| `HeaderText.QuotedCharacters` | app/core/request_locality.py:263-273 | Exactly which characters may stand in quotes, escaped and unescaped. |
| `HeaderText.LowerCase` | app/core/request_locality.py:355-355 | Names are compared without regard to ASCII case. |
| `HeaderText.PortExactly` | app/core/request_locality.py:300-304 | A numeral is a port if and only if it denotes at most 65535. |
| `HeaderText.UnsupportedNodes` | app/core/request_locality.py:308-309 | The node `unknown`, in any case, and identifiers that start with an underscore are refused. |
| `ClientAddress.ResolveClientIpFromHops` | app/core/request_locality.py:192-202 | Returns the rightmost untrusted address of hops plus socket peer, or the leftmost if all are trusted. |
| `ClientAddress.WalkFinds` | app/core/request_locality.py:192-202 | That position determines the result. |
| `ClientAddress.TrustedExactly` | app/core/request_locality.py:205-215 | A host is trusted exactly if it is an address in one of the networks. |
| `ClientAddress.LeftOfUntrustedIsIrrelevant` | app/core/request_locality.py:192-202 | Whatever stands left of an untrusted hop has no influence. |
| `ClientAddress.ResolveProxyHeaderConsensus` | app/core/request_locality.py:50-110 | Returns the first resolution exactly if no speaking singleton is repeated, every speaking header is well-formed, there is one, and all name one address. |
| `ClientAddress.ResolveByPrecedence` | app/core/request_locality.py:135-173 | Returns what the first present header says, if no singleton is repeated. |
| `ClientAddress.ResolveConnectionClientIp` | app/core/request_locality.py:113-174 | Headers count only behind a trusted socket peer; otherwise the socket address is returned. |
| `ClientAgreement.BlankIsMalformed` | app/core/request_locality.py:135-173 | A present header of white space only is malformed in precedence mode. |
| `ClientAgreement.PrecedenceGivenConsensus` | app/core/request_locality.py:50-174 | When consensus resolves, precedence returns the same address unless a singleton is repeated or a blank header comes first, and then nothing. |
| `ClientAgreement.ModesAgree` | app/core/request_locality.py:50-174 | When both modes resolve they return the same address. |
| `ClientAgreement.BlankHeaderSilencesPrecedence` | app/core/request_locality.py:139-152 | For any address: headers with a blank first header, on which consensus resolves and precedence does not. |
| `ClientAgreement.RepeatedBlankSilencesPrecedence` | app/core/request_locality.py:134-137 | For any address: headers with a repeated blank singleton, on which consensus resolves and precedence does not. |
| `ClientAgreement.ConsensusIsUnanimous` | app/core/request_locality.py:68-110 | A consensus is said by some header, every speaking header is well-formed and says the same address. |
| `ClientAgreement.UnanimityIsConsensus` | app/core/request_locality.py:58-110 | Whenever that is so and no speaking singleton is repeated, there is a consensus on that address. |
| `ClientAgreement.RepeatedSingletonIsNobody` | app/core/request_locality.py:56-64 | A singleton header with several values that are not all blank leaves both modes without a client. |
| `ClientAgreement.EntriesJoin` | app/core/request_locality.py:186-189 | The entries of an X-Forwarded-For value are what stands between its commas. |
| `ClientAgreement.XffExactly` | app/core/request_locality.py:181-189 | An X-Forwarded-For value is accepted exactly if it lists addresses between commas, and yields exactly them. |
| `ClientAgreement.SingletonMeaning` | app/core/request_locality.py:154-160 | A singleton header says the address it holds, whatever white space surrounds it. |
| `ClientAgreement.PrecedenceOrder` | app/core/request_locality.py:139-173 | Precedence returns what the first present header of x-forwarded-for, x-real-ip, true-client-ip, cf-connecting-ip, forwarded says. |
| `ClientAgreement.PresentExactly` | app/core/request_locality.py:33-37 | A header is present exactly if it is allowed and its text is not empty, chain headers being joined by commas. |
| `Accounts.SettleIdempotent` | app/core/balancer/logic.py:452-503 | A second normalisation at the same time changes nothing and gives the same verdict. |
| `Accounts.SettleFields` | app/core/balancer/logic.py:452-503 | Every field and the verdict after one selection, from the fields before: a lifted rate limit clears short usage and errors, a lifted quota clears both windows, a passed cooldown clears the errors, an expired backoff starts afresh, nothing else changes. |
| `Accounts.BackoffDoubles` | app/core/balancer/logic.py:490-494 | The error backoff starts at 30 seconds and doubles up to 300. |
| `Accounts.ResetInRange` | app/core/balancer/logic.py:1211-1258 | In-range reset metadata, and nothing else, yields a deadline: the next whole second, after now and at most horizon + 1 later. |
| `Accounts.RateLimitDeadlineSurvives` | app/core/balancer/logic.py:1119-1142 | Without metadata the persisted deadline is not before the cooldown, at least 30 seconds off unless a wait was asked for, and unchanged by truncation. |
| `Accounts.RateLimitsEscalate` | app/core/balancer/logic.py:1112-1128 | After n rate limits with no selection between, the error count has risen by n and the last wait is the backoff of that count. |
| `Accounts.AccountState.Admit` | app/core/balancer/logic.py:452-503 | One round of the admission loop does that to the mutable state, field by field. |
| `Accounts.AccountState.HandleRateLimit` | app/core/balancer/logic.py:1112-1142 | Every field: one more error, error and block times now, the cooldown of the asked or backed-off wait, the metadata's deadline within (now, now + horizon + 1] or one not before the cooldown, usage unchanged. |
| `Accounts.AccountState.HandleQuotaExceeded` | app/core/balancer/logic.py:1164-1175 | Every field: short usage 100, two minutes of cooldown, the metadata's deadline or the last whole second within an hour, errors unchanged. |
| `Cooldown.HandlersHold` | app/core/balancer/logic.py:1112-1175 | Both handlers leave the account limited with a deadline not before now. |
| `Cooldown.CooldownHonoured` | app/core/balancer/logic.py:468-489 | Whatever selections lie between, bypassing or not, a selection without bypass refuses the account if and only if it comes before the later of reset and cooldown, and then admits it. |
| `Cooldown.CooldownBindsBypass` | app/core/balancer/logic.py:484-489 | If the cooldown is the later deadline, not even a bypass admits the account before it. |
| `Cooldown.NeverReturnedEarly` | app/core/balancer/logic.py:446-568 | No selection of any strategy without bypass returns the account before that deadline. |
| `Selection.FilterOpportunisticCandidates` | app/core/balancer/logic.py:299-325 | The loop keeps the burnable accounts of each policy, burn-first before normal before preserve. |
| `SelectionProofs.OpportuneMembers` | app/core/balancer/logic.py:269-325 | The filter keeps exactly the accounts that are expendable given the whole pool. |
| `SelectionProofs.ReserveKept` | app/core/balancer/logic.py:269-325 | An account chosen for opportunistic traffic keeps more than 5% of both windows or leaves another active account. |
| `SelectionProofs.MinByLeast` | app/core/balancer/logic.py:570-613 | `min` with any of the keys returns a least account of its pool. |
| `Strategies.SelectableIsDrawn` | app/core/balancer/logic.py:615-690 | What a call may return is what its strategy may draw from the pool that filters, fallback, tiers and policies leave. |
| `SelectionProofs.ChoicesPick` | app/core/balancer/logic.py:615-690 | Every strategy chooses from a non-empty pool something in it, unless only a due probe would do and there is none. |
| `SelectionProofs.SelectionSound` | app/core/balancer/logic.py:446-690 | A returned account is from the input, not free, paused, deactivated or needing reauth, has no active cooldown, and is limited only under a bypass; one in error backoff is returned only by the fallback. |
| `SelectionProofs.SelectionComplete` | app/core/balancer/logic.py:446-568 | A foreground call returns an account exactly when one passes all filters, or fallback is allowed and two accounts back off, or one does and another is blocked. |
| `SelectionProofs.SelectionReturns` | app/core/balancer/logic.py:505-640 | For any traffic and for recovery probes: exactly when the eligible pool is not empty and, if only a probe will do, holds a due one. |
| `SelectionProofs.SelectionIdempotent` | app/core/balancer/logic.py:452-690 | Calling again at the same time on the mutated states has the same outcomes. |
| `SelectionOrder.KeySeparates` | app/core/balancer/logic.py:570-613 | Every key but the backoff expiry tells accounts with different ids apart. |
| `SelectionOrder.OrderIndependent` | app/core/balancer/logic.py:446-690 | If some account is available without the fallback, permuting the input changes no outcome of any strategy, random draws included. |
| `SelectionOrder.AtMostOne` | app/core/balancer/logic.py:615-690 | A deterministic strategy or probe has at most one outcome. |
| `SelectionOrder.SameAccount` | app/core/balancer/logic.py:615-690 | The deterministic strategies and probes return the same account for any order of the input. |
| `FallbackOrder.SoleChoice` | app/core/balancer/logic.py:531-536 | Alone in the fallback pool an account is chosen if and only if it is above its own floors for opportunistic traffic and a due probe where only one will do. |
| `FallbackOrder.FallbackOrderMatters` | app/core/balancer/logic.py:511-536 | When a call falls back, for any traffic and probe mode, all orders have the same outcomes unless two different accounts tie for the next recovery and one of them would be chosen alone; then some differ. |
| `FallbackOrder.TieDependsOnOrder` | app/core/balancer/logic.py:525-531 | Two accounts that failed at the same time, for which the order of the input decides. |
| `FallbackOrder.FallbackIsNearest` | app/core/balancer/logic.py:525-531 | The fallback is an account whose error backoff ends first. |
| `Strategies.SingleAccountMeaning` | app/core/balancer/logic.py:615-617 | `single_account` returns the smallest id of the eligible pool. |
| `Strategies.SequentialDrainMeaning` | app/core/balancer/logic.py:994-1005 | `sequential_drain` returns the smallest configured capacity, then digest, then id. |
| `Strategies.ResetDrainMeaning` | app/core/balancer/logic.py:1008-1036 | `reset_drain` returns the earliest reset day, then the most left in the short window, in the week, the earliest reset, digest and id. |
| `Strategies.RoundRobinMeaning` | app/core/balancer/logic.py:604-613 | `round_robin` returns the lowest cost, then the least recently selected, then the smallest salted digest. |
| `Strategies.UsageMeaning` | app/core/balancer/logic.py:594-600 | `usage_weighted` ranks by cost, the window that counts first, the other, the last selection and id. |
| `Strategies.ResetFirstMeaning` | app/core/balancer/logic.py:570-592 | With a reset preference the earliest reset comes before all of these. |
| `Strategies.CandidateMembers` | app/core/balancer/logic.py:345-351 | The reset preference keeps exactly the accounts of the earliest bucket. |
| `Strategies.CheapestMembers` | app/core/balancer/logic.py:1054-1061 | The cost filter keeps exactly the accounts of lowest planner cost. |
| `Strategies.FillFirstMeaning` | app/core/balancer/logic.py:1074-1100 | `fill_first` returns the most used short window, then the most used week, then the id, among the candidates. |
| `Strategies.CapacityProbeMeaning` | app/core/balancer/logic.py:1039-1051 | As a probe, `capacity_weighted` returns the cheapest candidate, then most credits, least used weekly and short window, last selection and id. |
| `Strategies.CapacityDrawMeaning` | app/core/balancer/logic.py:1064-1071 | Exactly the cheapest candidates with credits left can be returned, if there are any. |
| `Strategies.ExhaustedCapacityMeaning` | app/core/balancer/logic.py:1064-1071 | Without any credits left `capacity_weighted` takes the least used week, short window, last selection and id of its pool. |
| `Strategies.ExhaustedRelativeMeaning` | app/core/balancer/logic.py:878-899 | So does `relative_availability` when nothing scores. |
| `Strategies.RelativeAvailabilityMeaning` | app/core/balancer/logic.py:751-771 | As a probe, `relative_availability` returns the most credits per second to the weekly reset among the cheapest: with equal credits the earlier reset, with equal resets more credits. |
| `AccountFacts.PrimaryUsedFacts` | app/core/balancer/logic.py:728-730 | Short-window usage: the priority figure, else the plain one, else nothing. |
| `AccountFacts.SecondaryUsedFacts` | app/core/balancer/logic.py:733-743 | Weekly usage: the priority figure, else the plain one unless scoped to a limit, else the short window's. |
| `AccountFacts.CapacityFacts` | app/core/balancer/logic.py:994-997 | A positive stated capacity counts, otherwise the plan's. |
| `AccountFacts.CreditsFacts` | app/core/balancer/logic.py:714-725 | Credits are the unused percentage of the weekly capacity, none once it is used up. |
| `AccountFacts.DivisorFacts` | app/core/balancer/logic.py:751-757 | The seconds to the weekly reset, at least 300, a week if unknown. |
| `AccountFacts.ScoreFacts` | app/core/balancer/logic.py:767-771 | The score is credits per second. |
| `AccountFacts.ResetBucketFacts` | app/core/balancer/logic.py:328-342 | The bucket is the whole seconds or whole days to the preferred reset, zero once passed, later than all if unknown. |
| `AccountFacts.WeeklyResetFacts` | app/core/balancer/logic.py:1008-1013 | The weekly reset if it lies ahead, else the short window's, else unknown. |
| `AccountFacts.ProbeDueFacts` | app/core/balancer/logic.py:698-702 | A probe is due if never selected, or not for 60 seconds. |
| `AccountFacts.PaceFacts` | app/core/balancer/logic.py:224-226 | Behind pace in whole seconds of the week and percentages. |
| `AccountFacts.WeeklyFloorFacts` | app/core/balancer/logic.py:218-240 | The weekly floor is 25 if active lately, else 5 if behind pace, else 15. |
| `AccountFacts.ShortFloorFacts` | app/core/balancer/logic.py:243-254 | The short-window floor is 30 if active lately, else 25 for the only preserved account, else 20 or 10. |
| `AccountFacts.PreserveExactly` | app/core/balancer/logic.py:257-266 | A preserved account may be burned exactly if both resets are known and both usages lie below 100 minus the floors. |
| `AccountFacts.BurnExactly` | app/core/balancer/logic.py:269-325 | Exactly which accounts opportunistic traffic may burn, from usage, policies and the other active accounts. |
| `Strategies.TiersRespected` | app/core/balancer/logic.py:627-636 | Without a due probe, probing accounts are used only if none is healthy, draining ones only if none is healthy or probing. |
| `Strategies.PoliciesRespected` | app/core/balancer/logic.py:637-640 | Within the health pool burn-first goes before normal and normal before preserve. |
| `Strategies.PreserveFloors` | app/core/balancer/logic.py:218-266 | A preserved account is burned opportunistically only above its floors: 5% weekly, 15% unless behind pace, 25% if recently active, and 10 to 30% of the short window. |
| `RelativeAvailabilityPruning.PruningKeepsTheBest` | app/core/balancer/logic.py:819-854 | If some candidate scores, the retained list is non-empty, has at most max(1, top_k) entries, is led by a best scorer, has weights in [0.1, 1], and nothing dropped scores higher than anything retained. |
| `RelativeAvailabilityPruning.PruningDropsNoMore` | app/core/balancer/logic.py:819-854 | Only the minimum weight and the limit drop candidates; nothing is retained if nothing scores. |
| `Probing.OldestIsChosen` | app/core/balancer/logic.py:627-640 | Whatever strategy and policies, while a healthy account exists and a probe is due the oldest due probe is chosen. |
| `Probing.AheadShrinks` | app/core/balancer/logic.py:693-711 | Each selection that passes a due probe over removes exactly the chosen account from those ahead of it. |
| `Probing.BoundedWait` | app/core/balancer/logic.py:627-640 | With n probing accounts and each chosen one stamped, every due probing account is chosen within n tier-aware selections. |
| `Selector.AdmitAll` | app/core/balancer/logic.py:446-503 | The admission loop settles every state and lists exactly the admitted and the backing-off ones, in order. |
| `Selector.RandomChoice` | app/core/balancer/logic.py:1064-1071 | Returns some item of positive weight. |
| `Selector.SelectCapacityWeighted` | app/core/balancer/logic.py:1064-1071 | Draws from the accounts with remaining credits, or takes the least used one if there are none. |
| `Selector.WeightedCandidates` | app/core/balancer/logic.py:819-854 | The weighing loop, sort and cut compute the retained candidates. |
| `Selector.SelectRelativeAvailability` | app/core/balancer/logic.py:878-922 | Draws from the retained candidates, takes the heaviest when probing, the least used if there are none. |
| `Selector.Choose` | app/core/balancer/logic.py:615-690 | Returns one of the possible choices, and nothing exactly if there is none. |
| `Selector.Decide` | app/core/balancer/logic.py:505-568 | Traffic filter, fallback and choice agree with the value-level selection. |
| `Selector.SelectAccount` | app/core/balancer/logic.py:363-690 | Leaves every state normalised and returns one of the selectable accounts, or nothing exactly if there is none. |

## Left out

- Error messages and retry hints of `select_account`: a call that selects nothing only says so.
- `evaluate_health_tier`, `handle_permanent_failure`, `failover_decision`: one-step case distinctions without a cross-call law.
- Stamping of `last_selected_at` and persistence of account states: done by code outside the modelled files; `Probing.BoundedWait` takes the stamping as an assumption.
- Rounding of floating-point numbers: the selector computes with reals; NaN and infinite metadata count as invalid.
- A clock reading of exactly zero, which `now or time.time()` replaces by the system clock.
- SQL dialects and sessions: a bump is one atomic increment of one row, and the fallback branch for other dialects, which reads before it writes, is not modelled.
- Cancellation of tasks in the middle of an `await`.
- `initialize` outside startup: it assigns versions directly, so the model allows it only before anything else happens on a replica.
- Expiry of cached API keys by their own `expires_at`: it only removes entries.
- Building and closing real HTTP sessions: a fresh client, and a close that completes later.
- A change of the archive byte limit while records are queued: the limit is constant.
- Gzip recovery, disk-pressure detection and warning throttles of the archive: an append may write any prefix of a path's records, and what it skips counts as lost.
- Regular expressions of the migration validator: a file is given by what they find in it.
- Backups, temporary files and discovery of the Codex home; JSON text beyond the decoded records.
- `str.lower()` beyond ASCII and the Kelvin sign: no other character can become part of the compared names.
- Rendezvous hashing, TOTP, multipart counters, plan-type normalisation, settings, ORM models, web wiring and the frontend: short or bound to input and output.
