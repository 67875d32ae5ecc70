# Verified model of the IME bridge

This project models the parts of the Windows-IME-to-Rime bridge that carry state, arithmetic or a protocol, and
proves what they promise. `dafny verify dfyconfig.toml` checks everything.

The system has two generations of hosts. The v1 Rust host is a gRPC gateway that hands each session a worker from a
pool of worker processes; the C++ proxy is its client. Its Windows backend reads `CANDIDATELIST` buffers, and an older
C command host answers line commands over TCP with `CAND_RET` replies. The v2 host drives one IME per session through
a channel adapter; the librime plugin `rime-remote` is its client.

| file | what it models |
|---|---|
| `WorkerIds`, `WorkerPool`, `PoolLaws` | worker ids and the pool: spawn, prewarm, acquire, release, trim |
| `Gateway`, `GatewayRuns`, `GatewayLaws`, `GatewayWitnesses`, `ForeignWorkers`, `GatewayState` | the session table, the pool and the reaper as a state machine: one step for every section that runs under a lock, all handlers interleaved freely; the same sections as methods of an object |
| `Network` | the fate of one RPC: lost, carried out without a reply in time, replied |
| `GrpcClient`, `ClientLaws` | the C++ client with its sequence counter and query cache, against the stub worker |
| `ClientAtGateway` | that client and the gateway together |
| `Unicode`, `Composition` | lossy UTF-16 decoding (RFC 2781, section 2.2), UTF-8 encoding (RFC 3629, section 3), cursor and selection offsets |
| `ByteOrder`, `CandidateLists` | the two `CANDIDATELIST` parsers over raw buffers |
| `Frames` | length-prefixed frames between gateway and worker |
| `LineAssembly` | the command host's receive buffer, and the line readers of the C++ client and the Rust host |
| `CandReply`, `ReplyPrinter`, `ReplyLaws` | the candidate reply: its printer into a fixed buffer, and the Rust and C++ parsers |
| `CommitBuffer`, `Remote`, `RemoteLaws` | the v2 commit buffer and the `rime-remote` processor, with lost, late and unanswered RPCs |
| `ChannelAdapter` | the v2 command queue with one-shot replies |

How to read it. Where the source updates an object in place, a class does so here, and its methods are proved equal
to a specification function on values; what the source promises is then proved about that function, over every run. The modules named `...Laws` say
what each operation does in plain terms, without the functions that the model is made of.
Everything an operating system, a network or an IME decides is an input: which spawns succeed, which RPCs or replies
are lost, what a message pump brings, when a handler is cancelled, when the clock moves.

## Findings

Some promises do not hold unconditionally. The code is modelled as it is; for each there is an input that shows it, and
the exact condition.

- Keys of one session that overlap can be applied out of order, and `last_seq` can go backwards, because check and store
  are separate sections (`GatewayRuns.OverlappingKeysRegress`, from an empty gateway
  `ClientAtGateway.OverlapBreaksTheOrder`). A key may start safely if and only if no key of its session is in flight
  (`GatewayRuns.NextKeyIsSafeIff`). Nothing is rejected even then, and overlap with queries, commits and resets is
  harmless (`ClientAtGateway.ClientIsNeverRejected`).
- A request handled between the reaper's scan and its removal does not save the session
  (`GatewayRuns.TouchAfterScanIsLost`, from an empty gateway `GatewayWitnesses.ATouchIsLost`). A removed session had
  expired at the scan, and is no longer expired exactly if it was touched since
  (`GatewayRuns.ReapedWasIdleOrTouchedSince`). A handler whose session was reaped can then give its key to another
  session's worker (`ForeignWorkers.AKeyGoesAstray`), if and only if the pool keeps released workers, `max_idle > 0`
  (`ForeignWorkers.ForeignWorkerIff`).
- A cache hit that asks for more candidates than the cached reply was fetched with gets a shorter list
  (`GrpcClients.SmallCacheFallsShort`, exactly then: `GrpcClients.CacheHitEqualsFreshReply`). A hit does not tell the
  worker about its input, so a commit by index after it can commit another text (`GrpcClients.LostKeyReplyMisleadsCommit`,
  exact condition `GrpcClients.HitCommitsWhatItListsIff`). A commit whose caller supplies a number makes the next key fail
  (`GrpcClients.HintLocksTheClientOut`) exactly if it is beyond the client's counter (`GrpcClients.HintMustNotRunAhead`).
- The v1 parser drops empty texts without renumbering the selection (`PageReader.EmptyTextMisplacesSelection`); its
  selected index is right exactly when no text before the selection on the page is empty (`PageReader.SelectedIndexIff`).
  The v2 host reports the list's own count even where it decoded fewer texts (`MenuReader.UnusableSlotIsStillCounted`);
  the plugin gets through the menu exactly when every counted slot is usable and the count is not negative
  (`MenuReader.PluginCompletesIff`).
- A candidate reply that does not fit its buffer loses its line end and runs into the next reply
  (`ReplyPrinter.CutReplyRunsOn`, exactly then: `ReplyPrinter.ReplyIsALineIff`); two full lists overflow the 2048
  characters of the command loop (`ReplyPrinter.TwoFullListsOverflow`). The two parsers disagree when list #0 was not
  printed (`ReplyPrinter.ListOneIsMissed`, exact condition `CandReply.ParsersAgreeIff`).
- Switching to ASCII by a key with no bound style makes the processor forget a text the engine still shows
  (`RemoteProcessors.UnboundToggleDesynchronises`; the exact condition is `RemoteProcessors.StaysSyncedIff`).

The comment at `src/rime-remote/src/remote_processor.cc:337` says that unbound keys do not reach the last branch of the
toggle handler. The code reaches it whenever the option is turned on by any key without a binding; the model follows
the code.

## Model

| member | source | states |
|---|---|---|
| WorkerIds.IdNumberInvertsWorkerId | src/ime-grpc-host/src/main.rs:1327-1330 | the counter can be read back from a zero-padded worker id of any width, so different counter values give different ids |
| WorkerPools.SpawnKeeps | src/ime-grpc-host/src/main.rs:1332-1412 | a spawn keeps the pool invariant and can only register an id never used before |
| WorkerPools.PrewarmKeeps | src/ime-grpc-host/src/main.rs:1414-1421 | prewarming, whatever spawns fail, keeps the invariant and the bindings, orphans nobody and never shrinks the queue |
| WorkerPools.PrewarmRefills | src/ime-grpc-host/src/main.rs:1414-1421 | if the needed spawns succeed, prewarming fills the queue to exactly min_idle behind what was queued |
| WorkerPools.AcquireKeeps | src/ime-grpc-host/src/main.rs:1423-1465 | an acquire binds exactly the new session on success; on failure it changes no binding and orphans exactly the worker it had obtained, if any |
| WorkerPools.ReleaseKeeps | src/ime-grpc-host/src/main.rs:1467-1482 | releasing unbinds exactly that session and neither orphans nor duplicates its worker |
| WorkerPools.ReleaseAllKeeps | src/ime-grpc-host/src/main.rs:2105-2109 | releasing a list of sessions unbinds exactly those and orphans nobody |
| WorkerPools.TrimKeeps | src/ime-grpc-host/src/main.rs:1484-1492 | trimming removes exactly the tail of the queue beyond max_idle |
| WorkerPools.TrimNeverRemoves | src/ime-grpc-host/src/main.rs:1467-1492 | with min_idle at most max_idle the trim of a reaper tick removes nothing, whatever was released |
| WorkerPools.MisconfiguredPoolChurns | src/ime-grpc-host/src/main.rs:2105-2112 | with min_idle above max_idle every tick over a full queue kills the surplus and spawns as many again |
| WorkerPools.ReapKeeps | src/ime-grpc-host/src/main.rs:2105-2112 | the pool section of a tick: exactly the listed sessions are unbound, nobody is orphaned, the queue bound holds afterwards |
| WorkerPools.Conservation | src/ime-grpc-host/src/main.rs:1294-1301 | the registered workers are the queued, the bound and the orphaned ones, counted without overlap |
| WorkerPools.WorkerPool.constructor | src/ime-grpc-host/src/main.rs:1313-1325 | a new pool is the prewarmed empty pool and satisfies the invariant |
| WorkerPools.WorkerPool.SpawnWorker | src/ime-grpc-host/src/main.rs:1332-1412 | the object's spawn is the specified one |
| WorkerPools.WorkerPool.PrewarmPool | src/ime-grpc-host/src/main.rs:1414-1421 | the loop with its early exit is the specified prewarm |
| WorkerPools.WorkerPool.AcquireForSession | src/ime-grpc-host/src/main.rs:1423-1465 | the object's acquire is the specified one, with its three error exits |
| WorkerPools.WorkerPool.ReleaseForSession | src/ime-grpc-host/src/main.rs:1467-1482 | the object's release is the specified one |
| WorkerPools.WorkerPool.TrimIdle | src/ime-grpc-host/src/main.rs:1484-1492 | the loop is the specified trim |
| PoolLaws.WorkerIdText | src/ime-grpc-host/src/main.rs:1327-1330 | the id is the prefix and the number with at least six digits |
| PoolLaws.WhatAnAcquireTakes | src/ime-grpc-host/src/main.rs:1423-1465 | a wanted queued worker is the one that waited longest, and uses up no id; otherwise the next id is tried; a worker whose reset fails is neither bound nor put back |
| PoolLaws.WhereAReleasedWorkerGoes | src/ime-grpc-host/src/main.rs:1467-1482 | to the end of the queue if there is room, out of the registry otherwise |
| PoolLaws.ReleasedWorkersQueueUp | src/ime-grpc-host/src/main.rs:1467-1482 | with room, workers queue up in the order of their release |
| PoolLaws.QueuedWorkersAreHandedOutInOrder | src/ime-grpc-host/src/main.rs:1423-1434 | queued workers are handed out first come, first served |
| PoolLaws.PrewarmStopsAtTheFirstFailure | src/ime-grpc-host/src/main.rs:1414-1421 | prewarming adds the ids in sequence up to the first failing spawn, whose id is used up |
| Gateway.OpenAcquireKeeps | src/ime-grpc-host/src/main.rs:1701-1722 | the acquire section of an open keeps the gateway invariant |
| Gateway.OpenEndKeeps | src/ime-grpc-host/src/main.rs:1723-1740 | so does registering the session, or being cancelled before that |
| Gateway.StepKeeps | src/ime-grpc-host/src/main.rs:1701-2114 | every step of every handler and of the reaper keeps the gateway invariant |
| Gateway.SessionsOwnTheirWorkers | src/ime-grpc-host/src/main.rs:1423-1482 | in every run each session in the table is bound to exactly the worker the pool holds busy for it, and no two live sessions share one |
| Gateway.QuiescentTablesAgree | src/ime-grpc-host/src/main.rs:1701-1740 | when no open is half done and the reaper is not about to release, table and busy map have the same keys but for cancelled opens, so the same keys exactly when none was cancelled |
| Gateway.PoolInEveryRun | src/ime-grpc-host/src/main.rs:1423-1492 | in every run: no duplicates in the queue, an injective busy map, queued and bound workers disjoint and registered, the worker count, and a queue of at most max(min_idle, max_idle) |
| GatewayRuns.OrphansComeFromFailedAcquires | src/ime-grpc-host/src/main.rs:1439-1459 | over any run the orphans grow by exactly the workers of acquires that failed after obtaining one |
| GatewayRuns.WorkerIdsAreNeverReused | src/ime-grpc-host/src/main.rs:1327-1330 | an id that was used and is no longer registered is never registered again |
| GatewayRuns.CapturedWorkerIsOwn | src/ime-grpc-host/src/main.rs:1751-1818 | while a handler's session is in the table, the worker id it captured is registered, is its session's and is nobody else's |
| GatewayRuns.SessionEndsByReaping | src/ime-grpc-host/src/main.rs:2091-2103 | a session keeps its worker until the reaper removes it; nothing else removes or rebinds it |
| GatewayRuns.ForeignWorkerOnlyAfterReaping | src/ime-grpc-host/src/main.rs:2091-2112 | a captured id can belong to another session later only if the captured session was reaped in between |
| GatewayRuns.ReapedSessionStaysGone | src/ime-grpc-host/src/main.rs:1751-1757 | a removed session never returns, so every later request for it is answered "not found" and changes nothing |
| GatewayRuns.ReapedWasIdleOrTouchedSince | src/ime-grpc-host/src/main.rs:2073-2103 | what the reaper removes was expired at the scan; it is not expired at the removal exactly if it was touched since |
| GatewayLaws.ScanListsTheIdle | src/ime-grpc-host/src/main.rs:2073-2086 | a scan lists exactly the sessions with last activity plus limit before its time |
| GatewayLaws.RemovedSessionsWereIdle | src/ime-grpc-host/src/main.rs:2073-2103 | in every run, a removed session had been idle for more than the limit at a scan before |
| GatewayLaws.UsedSessionIsSafeUntilTheLimit | src/ime-grpc-host/src/main.rs:2073-2086 | in every run, a session that is opened, sent a key or touched is in no scan until the limit has passed |
| GatewayRuns.GrowingNumbersAreNeverRejected | src/ime-grpc-host/src/main.rs:1742-1818 | for growing numbers, with any overlap of the client's own requests: last_seq never passes the client's counter and no key is rejected, whatever is lost or interleaved |
| GatewayRuns.DisciplinedKeysStayInOrder | src/ime-grpc-host/src/main.rs:1742-1818 | if moreover no two keys of the session are in flight at once, with queries, commits and resets overlapping freely, the applied numbers grow strictly |
| GatewayRuns.KeyArrives | src/ime-grpc-host/src/main.rs:1795-1818 | a key in flight can go on to its worker with nothing else changing but number, time and log |
| GatewayLaws.LateKeyIsRejected | src/ime-grpc-host/src/main.rs:1759-1793 | a key whose number is not above the stored one is no key any more: table and log stay, and after its snapshot the state is as before |
| GatewayLaws.NewKeyPasses | src/ime-grpc-host/src/main.rs:1751-1763 | a newer key is let through under its own number, to its session's worker |
| GatewayLaws.WhatIsStored | src/ime-grpc-host/src/main.rs:1795-1801 | storing takes the key's number whatever is in the table, touching the larger one; both note the time and pass the handler on |
| GatewayLaws.WhatIsInserted | src/ime-grpc-host/src/main.rs:1723-1740 | a session starts at number 0, with the time of its insertion |
| GatewayLaws.WhatIsApplied | src/ime-grpc-host/src/main.rs:1802-1818 | only a key whose worker is registered reaches it, under its own number |
| GatewayLaws.AppliedKeysWereNew | src/ime-grpc-host/src/main.rs:1751-1818 | in every run, each key that reached a worker was above the stored number when it was checked |
| GatewayRuns.OverlappingKeysRegress | src/ime-grpc-host/src/main.rs:1759-1800 | from any state with a key in flight, a newer in-order key can be checked and both be applied in the wrong order; if the older one had not stored its number yet, the smaller number stays stored |
| GatewayRuns.NextKeyIsSafeIff | src/ime-grpc-host/src/main.rs:1742-1818 | in every state a disciplined client can reach, its next key may be checked with all continuations applying its keys in order if and only if no key of its session is in flight |
| GatewayRuns.TouchAfterScanIsLost | src/ime-grpc-host/src/main.rs:2091-2103 | a session touched after the scan is removed all the same |
| GatewayWitnesses.ATouchIsLost | src/ime-grpc-host/src/main.rs:2073-2103 | from an empty gateway: a session touched at this very moment is removed by the next step |
| GatewayRuns.FreedWorkerServesNextOpen | src/ime-grpc-host/src/main.rs:2105-2112 | with an empty queue and one expired session, the reap and the next open bind the worker a handler still holds to the new session; the middle part of the run in ForeignWorkers.AKeyGoesAstray |
| ForeignWorkers.ReleasedWorkersDie | src/ime-grpc-host/src/main.rs:1467-1482 | with max_idle 0 every released worker leaves the registry |
| ForeignWorkers.NeverForeignWithoutQueue | src/ime-grpc-host/src/main.rs:2091-2112 | with max_idle 0 no handler ever holds a worker bound to another session, in any run |
| ForeignWorkers.AKeyGoesAstray | src/ime-grpc-host/src/main.rs:1802-1818 | with max_idle above 0 a run from an empty gateway whose last section gives a key to the worker of another session |
| ForeignWorkers.ForeignWorkerIff | src/ime-grpc-host/src/main.rs:1742-2112 | some run lets a handler hold another session's worker, and some run gives a key to one, if and only if max_idle is above 0 |
| GatewayObjects.GatewayState.OpenAcquire | src/ime-grpc-host/src/main.rs:1701-1722 | the section leaves table and pool as the step of the state machine does, and yields the worker that step puts aside for the insert |
| GatewayObjects.GatewayState.OpenInsert | src/ime-grpc-host/src/main.rs:1723-1740 | registering the session is the step |
| GatewayObjects.GatewayState.KeyCheck | src/ime-grpc-host/src/main.rs:1751-1763 | the read section yields what the step puts into the handler: the captured worker and whether the number is out of order; or "not found" and no step |
| GatewayObjects.GatewayState.KeyStore | src/ime-grpc-host/src/main.rs:1795-1801 | the write section is the step; it reports whether the handler goes on |
| GatewayObjects.GatewayState.TouchSession | src/ime-grpc-host/src/main.rs:1869-1884 | the shared first section of query, commit and reset is the step, with the worker it captures |
| GatewayObjects.GatewayState.ReapScan | src/ime-grpc-host/src/main.rs:2073-2086 | its result is a scan the state machine allows |
| GatewayObjects.GatewayState.ReapRemove | src/ime-grpc-host/src/main.rs:2091-2103 | the removal loop is the step |
| GatewayObjects.GatewayState.ReapRelease | src/ime-grpc-host/src/main.rs:2105-2112 | the release loop, the trim and the prewarm are the step, and keep the pool invariant |
| StubWorkers.TemplatesAreFive | src/ime-grpc-host/src/main.rs:1095-1120 | the stub's five candidate texts are different for every nonempty input, so deduplication drops none |
| StubWorkers.FakeCandidatesArePrefixes | src/ime-grpc-host/src/main.rs:1095-1120 | a smaller request gets a prefix of a larger one's list, and they are equal exactly when the smaller one already covers what the stub has |
| StubWorkers.WhatDedupKeeps | src/ime-grpc-host/src/main.rs:1095-1120 | deduplication keeps every text and leaves no two equal ones side by side |
| ClientLaws.WhatIsListed | src/ime-grpc-host/src/main.rs:1095-1120 | the list for an input: itself and four numbered variants, as many as asked for, none for the empty input |
| ClientLaws.TypingAppends | src/ime-grpc-host/src/main.rs:1122-1141 | typing a word of letters, digits and apostrophes appends it |
| ClientLaws.BackspaceErases | src/ime-grpc-host/src/main.rs:1130-1132 | backspaces take the last characters away again and stop at the empty input |
| ClientLaws.OtherKeysDoNothing | src/ime-grpc-host/src/main.rs:1129-1141 | a release, or a press of any other key, leaves the input alone |
| StubWorkers.WorkerRuntime.ApplyKeyEvent | src/ime-grpc-host/src/main.rs:1122-1151 | the stub's key handling is the specified one |
| StubWorkers.WorkerRuntime.QueryCandidates | src/ime-grpc-host/src/main.rs:1153-1176 | so is its query |
| StubWorkers.WorkerRuntime.CommitSelection | src/ime-grpc-host/src/main.rs:1178-1204 | and its commit |
| GrpcClients.CacheInvHolds | src/rime-grpc-proxy/src/grpc_client.cc:295-366 | in every reachable state the cached reply is the stub's reply to a query with the remembered count |
| GrpcClients.CacheHitEqualsFreshReply | src/rime-grpc-proxy/src/grpc_client.cc:303-321 | a hit returns what a fresh RPC would return, candidate list included, exactly when it asks for no more than the cached reply was fetched with (or than the stub has) |
| GrpcClients.SmallCacheFallsShort | src/rime-grpc-proxy/src/grpc_client.cc:303-321 | a reply fetched for one candidate and a hit that asks for two |
| GrpcClients.StubInvHolds | src/ime-grpc-host/src/main.rs:1095-1176 | in every run the stub's list is one for its input |
| GrpcClients.HitCommitsWhatItListsIff | src/rime-grpc-proxy/src/grpc_client.cc:303-321 | a commit by index after a fresh reply commits what was listed; after a hit it does so for every index exactly when the worker still has that input and a list at least as long |
| GrpcClients.LostKeyReplyMisleadsCommit | src/rime-grpc-proxy/src/grpc_client.cc:219-257 | a lost key reply after which a hit lists one text and the commit by index commits another |
| GrpcClients.NumbersAlwaysGrow | src/rime-grpc-proxy/src/grpc_client.cc:187-330 | the numbers one session sends grow strictly whatever is lost, and an open session is never replaced |
| GrpcClients.HintMustNotRunAhead | src/rime-grpc-proxy/src/grpc_client.cc:368-379 | a caller-supplied commit number makes the next key stale exactly when it exceeds the client's counter |
| GrpcClients.HintLocksTheClientOut | src/rime-grpc-proxy/src/grpc_client.cc:368-379 | a query, then a commit given number 5: the next key is number 2 and the host has stored 5 |
| ClientLaws.OpeningASession | src/rime-grpc-proxy/src/grpc_client.cc:156-194 | a session is opened by the first answered open, at number 0 and without a cache, and then stays |
| ClientLaws.NoSessionNoCall | src/rime-grpc-proxy/src/grpc_client.cc:219-385 | without a session every call fails and changes nothing |
| ClientLaws.WhatACommitCommits | src/rime-grpc-proxy/src/grpc_client.cc:368-397 | the given text, or else the candidate at the picked index, is committed, and the stub starts over; numbers and cache follow the result |
| ClientLaws.WhenACommitCommits | src/rime-grpc-proxy/src/grpc_client.cc:368-397 | the stub has committed unless the request was lost, and the call succeeds exactly with its reply |
| ClientLaws.WhatAQueryDoes | src/rime-grpc-proxy/src/grpc_client.cc:324-355 | its number, what the stub then holds, and what is returned and cached, for each fate of the call |
| ClientLaws.WhatAHitDoes | src/rime-grpc-proxy/src/grpc_client.cc:303-321 | no number is used, the worker is not asked, and the list is cut to the request |
| ClientLaws.WhatAPressedKeyDoes | src/rime-grpc-proxy/src/grpc_client.cc:219-277 | a key reaches the stub as its low byte; with all replies the client then caches what was typed |
| ClientLaws.WhatAReleasedKeyDoes | src/rime-grpc-proxy/src/grpc_client.cc:219-277 | a released key costs one number, types nothing and fetches nothing |
| GrpcClients.GrpcImeClient.QueryCandidatesLocked | src/rime-grpc-proxy/src/grpc_client.cc:295-366 | the object's query, with cache hit, lost request and lost reply, is the specified one |
| GrpcClients.GrpcImeClient.SendKeyEvent | src/rime-grpc-proxy/src/grpc_client.cc:219-277 | so is sending a key with its prefetch |
| GrpcClients.GrpcImeClient.CommitSelection | src/rime-grpc-proxy/src/grpc_client.cc:368-397 | and committing, which drops the cache only on success |
| ClientAtGateway.DeliveryGrows | src/rime-grpc-proxy/src/grpc_client.cc:230-330 | whatever part of growing numbers arrives in order is a run of growing numbers at the host, none of them unsent |
| ClientAtGateway.ClientIsNeverRejected | src/rime-grpc-proxy/src/grpc_client.cc:187-397 | for every sequence of client calls and every interleaving at the host, with any requests or replies lost: last_seq stays at or below the client's counter and no key is rejected; with no two of its keys in flight at once, keys are applied in sending order |
| ClientAtGateway.OverlapBreaksTheOrder | src/ime-grpc-host/src/main.rs:1759-1800 | from an empty gateway, keys 1 and 2 are checked in that order and applied in the other |
| Unicode.DecodeInvertsUtf16 | src/ime-grpc-host-v2/src/win_imm/imm_ops.rs:184-186 | well-formed UTF-16 is decoded to the scalars it encodes |
| Unicode.LosslessIffPaired | src/ime-grpc-host-v2/src/win_imm/imm_ops.rs:184-186 | lossy decoding can be undone exactly when no surrogate is unpaired (or the replacement was there already) |
| Unicode.WhatOneUnitDecodesTo | src/ime-grpc-host-v2/src/win_imm/imm_ops.rs:184-186 | an unpaired surrogate becomes the replacement character, any other unit its own |
| Unicode.Utf8RoundTrip | src/ime-grpc-host-v2/src/win_imm/imm_ops.rs:188-191 | the UTF-8 encoding whose lengths the offsets count can be read back |
| Unicode.TextAtCut | src/ime-grpc-host-v2/src/win_imm/imm_ops.rs:188-191 | at an index that splits no pair the text is the prefix's text followed by the rest's |
| Unicode.OffsetStep | src/ime-grpc-host-v2/src/win_imm/imm_ops.rs:188-191 | what each unit adds to the offset: its bytes, 3 for the first half of a pair, 1 for the second |
| Unicode.OffsetIncreases | src/ime-grpc-host-v2/src/win_imm/imm_ops.rs:188-191 | the offset map is strictly increasing up to the text length, for every unit sequence |
| Unicode.OffsetInRange | src/ime-grpc-host-v2/src/win_imm/imm_ops.rs:188-191 | every offset lies in the text, and the full length maps to the text's length |
| Unicode.OffsetIsBoundaryIff | src/ime-grpc-host-v2/src/win_imm/imm_ops.rs:188-198 | an offset is a character boundary exactly when its index does not split a pair; inside a pair it is one byte short of the pair's end |
| Composition.ScanAttributes | src/ime-grpc-host-v2/src/win_imm/imm_ops.rs:213-229 | the loop finds the smallest range around all target attributes, if there is one |
| Composition.GetComposition | src/ime-grpc-host-v2/src/win_imm/imm_ops.rs:183-241 | for any cursor and any attribute buffer, cursor and selection lie inside the text; the selection is the mapped target range, empty exactly when that starts beyond the text |
| ByteOrder.U32RoundTrip | src/ime-grpc-host/src/main.rs:247-263 | a little-endian 32-bit word is read back |
| CandidateBuffers.ReadWideZ | src/ime-grpc-host/src/backend/win_imm/imp.rs:1033-1050 | the loop reads the units up to a zero or the buffer's end, and never outside the buffer |
| CandidateBuffers.WideReadBack | src/ime-grpc-host/src/backend/win_imm/imp.rs:1033-1050 | a zero-free text stored with a terminator is read back |
| CandidateBuffers.NarrowReadBack | src/ime-grpc-host/src/backend/win_imm/imp.rs:1052-1068 | the same for bytes |
| MenuReader.FindBase | src/ime-grpc-host-v2/src/win_imm/imm_ops.rs:304-315 | the scan finds the first slot that looks like an offset if slot 0 is zero, and stays at 0 if there is none |
| MenuReader.ReadTexts | src/ime-grpc-host-v2/src/win_imm/imm_ops.rs:317-340 | the loop over slots, with its skip and its stop, yields the texts of the usable counted slots |
| MenuReader.GetCandidateList | src/ime-grpc-host-v2/src/win_imm/imm_ops.rs:270-356 | for any contents of at least header size every read stays inside the buffer, and the menu is the specified one |
| MenuReader.TextCount | src/ime-grpc-host-v2/src/win_imm/imm_ops.rs:317-340 | the number of texts is at most the count, with equality exactly when every counted slot is in the table and valid |
| MenuReader.WhichSlotsAreRead | src/ime-grpc-host-v2/src/win_imm/imm_ops.rs:317-325 | a slot is read exactly if it lies in the table and its offset is inside the buffer and not zero |
| MenuReader.WhereTheTableBegins | src/ime-grpc-host-v2/src/win_imm/imm_ops.rs:304-315 | at slot 0, unless that is zero and another slot is the first to point into the buffer |
| MenuReader.MenuListsTheTexts | src/ime-grpc-host-v2/src/win_imm/imm_ops.rs:293-340 | for texts stored behind any number of zero slots the menu lists exactly these texts |
| MenuReader.MenuSaysTheHeader | src/ime-grpc-host-v2/src/win_imm/imm_ops.rs:341-356 | count, highlight, page size and page number are the header's words, read as signed, with the default page size and the truncating division |
| MenuReader.PluginCompletesIff | src/rime-remote/src/remote_processor.cc:239-243 | the plugin neither reserves a negative number nor reads beyond the candidates exactly when every counted slot is usable and the count fits a signed word |
| MenuReader.UnusableSlotIsStillCounted | src/ime-grpc-host-v2/src/win_imm/imm_ops.rs:317-354 | a buffer whose menu has no candidate and counts one |
| MenuReader.ShiftIsShifted | src/ime-grpc-host-v2/src/win_imm/imm_ops.rs:293-302 | writing zero slots in front of the offsets and moving these along is the shift some IMEs produce |
| MenuReader.ShiftedTableIsRecovered | src/ime-grpc-host-v2/src/win_imm/imm_ops.rs:293-340 | any number of zero slots in front of the offsets leaves the decoded menu the same |
| PageReader.ReadWindow | src/ime-grpc-host/src/backend/win_imm/imp.rs:1189-1222 | the loop over the page, with its stop at the buffer's end, numbers the nonempty texts consecutively |
| PageReader.ReadImmCandidates | src/ime-grpc-host/src/backend/win_imm/imp.rs:1118-1243 | the first list that was written and has a positive count decides; without one the page is empty |
| PageReader.PageIsTheWindow | src/ime-grpc-host/src/backend/win_imm/imp.rs:1174-1235 | for a held buffer, in the header's own words: from min(page start, count), as many as page size, request and count allow, the nonempty texts are listed in order; the page size is reported, and a selection on the page as its distance from the page start, any other as 0 |
| PageReader.SelectedIndexIff | src/ime-grpc-host/src/backend/win_imm/imp.rs:1224-1235 | the selected index names the selected text exactly when no earlier text on the page is empty |
| PageReader.EmptyTextMisplacesSelection | src/ime-grpc-host/src/backend/win_imm/imp.rs:1209-1235 | a buffer whose selected text is listed as number 0 and reported as number 1 |
| PageReader.NonEmptyFilters | src/ime-grpc-host/src/backend/win_imm/imp.rs:1209-1211 | what is left out is exactly what is empty |
| PageReader.SecondPageIsShown | src/ime-grpc-host/src/backend/win_imm/imp.rs:1183-1187 | a buffer that shows its second page: that page is the result |
| PageReader.FirstClaimingListDecides | src/ime-grpc-host/src/backend/win_imm/imp.rs:1137-1243 | the first list that was filled and claims a candidate is taken, and without one the page is empty |
| Frames.ReadAnyPrefix | src/ime-grpc-host/src/main.rs:265-284 | any prefix of written frames yields the complete frames, then end of stream if cut at a boundary or in a header, an error if cut in a payload |
| Frames.ReadBack | src/ime-grpc-host/src/main.rs:247-284 | all frames written are read back, then the stream ends |
| Frames.HeaderBytes | src/ime-grpc-host/src/main.rs:247-263 | the length is written in the first four bytes, the lowest first, with the payload behind it |
| Frames.LongestPayload | src/ime-grpc-host/src/main.rs:245-258 | 262144 bytes are written, more are not |
| Frames.OversizedLengthIsAnError | src/ime-grpc-host/src/main.rs:265-284 | a header with a larger length is an error, and the frames before it are kept |
| Frames.Pipe.WriteFramed | src/ime-grpc-host/src/main.rs:247-263 | an oversized payload is refused before anything is written |
| Frames.Pipe.ReadFramed | src/ime-grpc-host/src/main.rs:265-284 | the two exact reads are the specified frame reader |
| Frames.Pipe.ReadFrames | src/ime-grpc-host/src/main.rs:965-1008 | the worker's loop reads every frame until the stream ends or breaks |
| Frames.SendAndReceive | src/ime-grpc-host/src/main.rs:245-284 | what one side writes is what the other side reads |
| Lines.TwoPieces | src/reverse/host/ime_host_skeleton.c:2024-2061 | lines of a stream read in two pieces: the residue of the first joins the second |
| Lines.LinesAreTheStream | src/reverse/host/ime_host_skeleton.c:2024-2061 | lines and residue put together again are the stream, and no line contains a newline |
| CommandHost.WhatACommandIs | src/reverse/host/ime_host_skeleton.c:2030-2049 | the line up to its 511th character without the carriage returns, blanks and tabs at its end; a line of nothing else is none |
| CommandHost.BufferLimit | src/reverse/host/ime_host_skeleton.c:2071-2093 | 8192 characters fit the buffer and no more; an empty receive closes |
| CommandHost.ChunkingDoesNotMatter | src/reverse/host/ime_host_skeleton.c:2024-2093 | the connection survives exactly when no receive is empty or exceeds the buffer; then the commands are the cut and trimmed lines of the whole stream and the residue holds no newline |
| CommandHost.SafeStreamSurvives | src/reverse/host/ime_host_skeleton.c:2063-2093 | a stream whose unfinished lines always leave room for a receive survives every chunking |
| CommandHost.UnsafeStreamCanBeCutOff | src/reverse/host/ime_host_skeleton.c:2085-2088 | any other stream is cut off by some chunking |
| CommandHost.ScanFindsTheLines | src/reverse/host/ime_host_skeleton.c:2024-2054 | the scan's start index and commands at every position are the residue's start and the commands of the complete lines so far |
| CommandHost.Host.ProcessRxBuffer | src/reverse/host/ime_host_skeleton.c:2024-2061 | in place, with the shift to the front: the complete lines are dispatched, the residue stays |
| CommandHost.Host.ServiceClientIo | src/reverse/host/ime_host_skeleton.c:2063-2093 | one receive is one step of the specified host, end of stream and overflow included |
| LineReaders.Reader.ReadLine | src/reverse/rime-win32-proxy/src/win32_proxy_translator.cc:441-460 | the next line is the first line of everything buffered and still to come, however it is split; false exactly if there is none |
| LineReaders.Reader.ReadAll | src/reverse/rime-win32-proxy/src/win32_proxy_translator.cc:441-460 | reading to the end yields all lines of the stream, whatever the chunking |
| LineReaders.WhatIsStripped | src/reverse/rime-win32-proxy/src/win32_proxy_translator.cc:447-449 | exactly one carriage return at the end of a line is dropped |
| CandReply.BodyFreeIff | src/reverse/host/ime_host_skeleton.c:544-696 | the printed line contains `err=` exactly when one of the printed texts does |
| CandReply.FirstItems | src/ime-grpc-host/src/main.rs:302-306 | for texts without square brackets the first `items=[` field of the line is the first printed list's, and there is none without a list |
| CandReply.ListZero | src/reverse/rime-win32-proxy/src/win32_proxy_translator.cc:133-157 | for texts also without braces `#0{` is found exactly when list #0 was printed, and then its items are extracted |
| CandReply.SplittersAgree | src/reverse/rime-win32-proxy/src/win32_proxy_translator.cc:68-80 | splitting in the Rust and in the C++ way gives the same tokens once empty ones and the ellipsis are dropped |
| CandReply.RustRoundTrip | src/ime-grpc-host/src/main.rs:308-344 | for texts without square brackets the Rust parser accepts a printed reply exactly when no text contains `err=`, and then gets back composition, reading and the first list's items, limited by the request |
| CandReply.CppRoundTrip | src/reverse/rime-win32-proxy/src/win32_proxy_translator.cc:133-157 | for texts also without braces the C++ parser does the same, with the items of list #0 if that was printed and none otherwise |
| CandReply.ParsersAgreeIff | src/reverse/rime-win32-proxy/src/win32_proxy_translator.cc:133-157 | the two parsers agree exactly when list #0 was printed, the first list has nothing to miss, or no candidate was asked for |
| ReplyLaws.FindsTheFirst | src/reverse/rime-win32-proxy/src/win32_proxy_translator.cc:49-66 | the search finds the first occurrence, if there is one |
| ReplyLaws.SplitInvertsJoin | src/ime-grpc-host/src/main.rs:329-334 | splitting what was joined gives the pieces back |
| ReplyLaws.JoinInvertsSplit | src/ime-grpc-host/src/main.rs:329-334 | joining what was split gives the text back, and no piece has the separator |
| ReplyLaws.GetlineDropsTheLastEmpty | src/reverse/rime-win32-proxy/src/win32_proxy_translator.cc:68-80 | `getline` gives the same pieces but for an empty one at the end |
| ReplyLaws.WhatIsKept | src/reverse/rime-win32-proxy/src/win32_proxy_translator.cc:72-77 | only empty tokens and the ellipsis are dropped |
| ReplyLaws.WhatIsRefused | src/ime-grpc-host/src/main.rs:312-323 | a line without the prefix, or with an error mark anywhere, is refused by both parsers |
| ReplyLaws.WhatIsAccepted | src/ime-grpc-host/src/main.rs:312-323 | every other line is accepted by both |
| ReplyLaws.WhatSanitizingChanges | src/reverse/host/ime_host_skeleton.c:164-174 | separators and line ends become blanks, every other character stays |
| ReplyLaws.HeadReadsBack | src/reverse/host/ime_host_skeleton.c:544-555 | cut at its blanks, the head of the reply has each number under its own name |
| ReplyLaws.ListReadsBack | src/reverse/host/ime_host_skeleton.c:622-632 | so has the front of each printed list |
| ReplyLaws.QuietReadsBack | src/reverse/host/ime_host_skeleton.c:525-542 | and the reply without lists |
| ReplyLaws.ItemsReadBack | src/reverse/host/ime_host_skeleton.c:639-683 | cut at its bars, a list's item text has one piece per printed item, and an ellipsis behind eight of more |
| ReplyLaws.HowManyAreProbed | src/reverse/host/ime_host_skeleton.c:525-557 | as many lists as claimed, at most four, and four if none is claimed |
| ReplyLaws.WhichListsArePrinted | src/reverse/host/ime_host_skeleton.c:557-613 | those fetched, but for large ones without pages behind the first |
| ReplyLaws.WhichFormIsPrinted | src/reverse/host/ime_host_skeleton.c:527-541 | the short form exactly if the IME claims neither lists nor bytes |
| ReplyPrinter.CutConcat | src/reverse/host/ime_host_skeleton.c:141-162 | cutting after every append and cutting once at the end come to the same |
| ReplyPrinter.Appendf | src/reverse/host/ime_host_skeleton.c:141-162 | the buffer keeps exactly the first size-1 characters of what it had and the new text, terminated; nothing else changes |
| ReplyPrinter.SanitizeToken | src/reverse/host/ime_host_skeleton.c:164-174 | separators and line ends up to the terminator become blanks in place, the rest stays |
| ReplyPrinter.PrintedLists | src/reverse/host/ime_host_skeleton.c:558-622 | the printed lists are in increasing order and start with list #0 exactly when that was fetched |
| ReplyPrinter.PutList | src/reverse/host/ime_host_skeleton.c:622-684 | the item loop with its bars, skips and ellipsis appends exactly one list's text |
| ReplyPrinter.BuildCandidateReply | src/reverse/host/ime_host_skeleton.c:520-701 | for the probes that the claimed number of lists leads to, the buffer holds the first size-1 characters of the specified reply, in either of its two forms |
| ReplyPrinter.ReplyIsALineIff | src/reverse/host/ime_host_skeleton.c:495-701 | a reply is a line of its own exactly when it fits the buffer; otherwise its line end is lost |
| ReplyPrinter.CutReplyRunsOn | src/reverse/host/ime_host_skeleton.c:141-162 | the next line a reader gets after a cut reply is the cut text with the following line behind it |
| ReplyPrinter.BodyIsNotStripped | src/reverse/rime-win32-proxy/src/win32_proxy_translator.cc:444-449 | a reply never ends in a carriage return, so the reader's strip leaves it alone |
| ReplyPrinter.BufferToCpp | src/reverse/host/ime_host_skeleton.c:544-701 | from the buffer through the C++ client's line reader to its parser: a fitting reply comes back, with the items if list #0 was fetched |
| RustReaders.ReadsTheLine | src/ime-grpc-host/src/main.rs:418-448 | a line that is not too long is read without its carriage returns, and so is a last line that the stream cuts off |
| RustReaders.OthersAreKept | src/ime-grpc-host/src/main.rs:430-435 | every carriage return is dropped and everything else is kept |
| RustReaders.LongLineIsAnError | src/ime-grpc-host/src/main.rs:436-438 | a line of more than 262144 characters is an error |
| RustReaders.Connection.ReadLine | src/ime-grpc-host/src/main.rs:418-448 | the byte loop, with its dropped carriage returns and its limit, is the specified reader |
| ReplyPrinter.BufferToRust | src/ime-grpc-host/src/main.rs:308-344 | from the buffer through the Rust host's line reader to its parser: exactly the reply is taken from the stream, and it comes back |
| ReplyPrinter.ListOneIsMissed | src/reverse/host/ime_host_skeleton.c:525-558 | two lists claimed and list #0 not fetched: the Rust parser gets an item from the printed reply and the C++ parser none |
| ReplyPrinter.TwoFullListsOverflow | src/reverse/host/ime_host_skeleton.c:1653 | two full lists of longest texts exceed the 2048 characters of the reply buffer, and the line end is lost |
| ReplyPrinter.QuietRoundTrip | src/reverse/host/ime_host_skeleton.c:525-542 | the reply without any list gives both parsers composition and reading and no items, under the same conditions on the texts |
| ReplyParser.SplitItems | src/reverse/rime-win32-proxy/src/win32_proxy_translator.cc:68-80 | the token loop yields the specified tokens |
| ReplyParser.ProxyResult.ParseCandidateReply | src/reverse/rime-win32-proxy/src/win32_proxy_translator.cc:133-157 | the result in full: a refused line changes nothing, a found field is overwritten, and a missing field, items included, keeps its value |
| ReplyParser.EmptyResultIsFilled | src/reverse/rime-win32-proxy/src/win32_proxy_translator.cc:133-157 | into an empty result that is the specified parser |
| CommitBuffer.KeyGrows | src/ime-grpc-host-v2/src/win_imm/mod.rs:438-509 | one key appends in order what its pumps produced; the leftover result string is read only if that was nothing and nothing was pending |
| CommitBuffer.SelectGrows | src/ime-grpc-host-v2/src/win_imm/mod.rs:659-824 | selecting a candidate appends, on each of its paths, what its keys and pumps produced there, in order, and takes nothing |
| CommitBuffer.WhatAHarvestAppends | src/ime-grpc-host-v2/src/win_imm/mod.rs:152-168 | the result text whatever the characters are, and the characters only without a result |
| CommitBuffer.WhatAKeyAppends | src/ime-grpc-host-v2/src/win_imm/mod.rs:438-509 | what its up to four pumps bring by that rule, in order, and the leftover result only if that and the buffer are empty |
| CommitBuffer.WhatASelectionDoes | src/ime-grpc-host-v2/src/win_imm/mod.rs:659-824 | which of the number key, the confirming Return, the notification and the completion take part, by what the steps before brought |
| CommitBuffer.TakeKeeps | src/ime-grpc-host-v2/src/win_imm/mod.rs:619-624 | taking hands out everything appended since the last take, never an empty text, and nothing exactly if nothing was there |
| CommitBuffer.OpKeeps | src/ime-grpc-host-v2/src/win_imm/mod.rs:86-93 | every operation appends exactly what it produced; the taken texts and the pending one are, in order, everything appended |
| CommitBuffer.ImmSession.AppendCommit | src/ime-grpc-host-v2/src/win_imm/mod.rs:86-93 | taking the field, extending it and storing it back is the specified append |
| CommitBuffer.ImmSession.HarvestMessages | src/ime-grpc-host-v2/src/win_imm/mod.rs:152-180 | a harvest appends the result text if there is one, else the characters |
| CommitBuffer.ImmSession.ProcessVk | src/ime-grpc-host-v2/src/win_imm/mod.rs:438-509 | the append sites of a key, in their order |
| CommitBuffer.ImmSession.Select | src/ime-grpc-host-v2/src/win_imm/mod.rs:659-824 | the append sites of a selection, on each path |
| CommitBuffer.ImmSession.TakeCommit | src/ime-grpc-host-v2/src/win_imm/mod.rs:619-624 | harvest, then take |
| RemoteProcessors.CommitTextIsConserved | src/rime-remote/src/remote_processor.cc:265-335 | in every run from any balanced state, with any RPC lost, unanswered or late: every taken text has one outcome in order, these and the pending text are all that was appended, the engine committed exactly the emitted ones, none is empty |
| RemoteProcessors.NothingGoesUnread | src/rime-remote/src/remote_processor.cc:265-332 | in every run in which all commit replies arrive, every taken text is emitted or explicitly discarded exactly once, in order |
| RemoteProcessors.UserSeesEverythingIff | src/rime-remote/src/remote_processor.cc:265-335 | the emitted text is everything appended but the pending rest exactly when no move of the run took a waiting text without its reply arriving or in a discarding switch |
| RemoteProcessors.OutcomeOfAMove | src/rime-remote/src/remote_processor.cc:301-332 | the outcomes of a move, from the move and the state before it: at most one text, exactly when one is waiting and a commit request arrives; unread without a reply, discarded by a commit_code or clear switch, emitted otherwise |
| RemoteProcessors.StaysSyncedIff | src/rime-remote/src/remote_processor.cc:95-213 | one event keeps the engine's input equal to the cached preedit exactly under a condition on the event and the state before it, whatever fails or times out |
| RemoteProcessors.TakenUpKeyResynchronises | src/rime-remote/src/remote_processor.cc:150-213 | a key the backend accepted or that changed the context restores equality from any state, unless the context has candidates without a preedit, and puts the caret where the backend has it |
| RemoteProcessors.RejectedKeyChangesNothing | src/rime-remote/src/remote_processor.cc:159-163 | after a passed-through key engine input, caret and cached preedit are what they were |
| RemoteProcessors.SelectKeysFollowThePreedit | src/rime-remote/src/remote_processor.cc:247-256 | with a v-mode test configured, a taken-up key leaves the schema one select key per candidate of the page, at most ten, all different, letters exactly in v-mode |
| RemoteLaws.WhenAContextIsKept | src/rime-remote/src/remote_processor.cc:215-263 | exactly if the reply arrives and shows a preedit or at least one candidate |
| RemoteLaws.WhereTheFieldsComeFrom | src/rime-remote/src/remote_processor.cc:222-245 | each field of the kept context comes from its own field of the reply, or is the default |
| RemoteLaws.WhereTheSelectKeysComeFrom | src/rime-remote/src/remote_processor.cc:238-256 | the menu's select keys, unless a v-mode test is configured and there is a preedit and a page; then letters or digits, one per candidate up to ten |
| RemoteLaws.OtherEventsChangeNothing | src/rime-remote/src/remote_processor.cc:96-130 | releases, modifiers, keys in ASCII mode and all keys without a session are passed through and touch nothing |
| RemoteLaws.WhenAnEventIsTaken | src/rime-remote/src/remote_processor.cc:95-213 | exactly if the mode changed, the backend said so, or the backend's preedit changed |
| RemoteLaws.WhatAKeyAsks | src/rime-remote/src/remote_processor.cc:132-148 | key, commit and context request in this order, as far as they arrive |
| RemoteLaws.WhatASwitchDoes | src/rime-remote/src/remote_processor.cc:274-339 | for each of the five styles: what is kept, what is asked and what is cleared |
| RemoteLaws.OtherSwitchesOnlyRemember | src/rime-remote/src/remote_processor.cc:107-117 | leaving ASCII mode, or entering it with nothing shown, only remembers the mode |
| RemoteLaws.WhatIsShown | src/rime-remote/src/remote_processor.cc:165-210 | after a key that is taken: the preedit or a blank for candidates alone, the caret in it, the select keys; or nothing |
| RemoteProcessors.EngineFollowsTheBackend | src/rime-remote/src/remote_processor.cc:95-335 | in every run from any state in step, ASCII mode on or off, that enters ASCII mode only by keys with a bound style and gets showable contexts, the engine's input is the cached preedit after every event, whatever RPC fails; keys typed in ASCII mode, leaving it, and late requests are all allowed |
| RemoteProcessors.UnboundToggleDesynchronises | src/rime-remote/src/remote_processor.cc:337-338 | two events after which the engine shows a text the processor no longer knows |
| RemoteProcessors.RemoteSharedState.SetContext | src/rime-remote/src/shared_state.h:48-51 | the context is replaced and marked present |
| RemoteProcessors.RemoteSharedState.ClearContext | src/rime-remote/src/shared_state.h:53-56 | the context is emptied and marked absent |
| RemoteProcessors.RemoteProcessor.constructor | src/rime-remote/src/remote_processor.cc:28-85 | a new processor has no context, and takes engine, session and ASCII mode as they are |
| RemoteProcessors.RemoteProcessor.CopyCandidates | src/rime-remote/src/remote_processor.cc:239-243 | the loop over num_candidates copies that many candidates |
| RemoteProcessors.RemoteProcessor.SyncContextFromBackend | src/rime-remote/src/remote_processor.cc:215-263 | fetching, copying all fields, overriding the select keys and storing or clearing is the specified fetch |
| RemoteProcessors.RemoteProcessor.SyncCommitFromBackend | src/rime-remote/src/remote_processor.cc:265-272 | a delivered text is emitted once |
| RemoteProcessors.RemoteProcessor.HandleAsciiModeToggle | src/rime-remote/src/remote_processor.cc:274-339 | the five switch styles, in place |
| RemoteProcessors.RemoteProcessor.ProcessKeyEvent | src/rime-remote/src/remote_processor.cc:95-213 | called on what the processors before it leave, the object's event handling and its result are the specified ones, select keys included |
| ChannelAdapter.RepliesAreStable | src/ime-grpc-host-v2/src/win_imm/channel_adapter.rs:48-80 | later commands do not change the replies of the direct run |
| ChannelAdapter.RunFollowsTheBackend | src/ime-grpc-host-v2/src/win_imm/channel_adapter.rs:39-145 | every run, with replies abandoned at any point and even a panicking backend, is the direct run of the commands in sending order, and each returned reply is that run's or, after a panic, the default |
| ChannelAdapter.SameOrderSameResults | src/ime-grpc-host-v2/src/win_imm/channel_adapter.rs:39-145 | two runs that send the same commands agree on the state and on every reply both returned, whoever gave up in either |
| ChannelAdapter.NoCallHangs | src/ime-grpc-host-v2/src/win_imm/channel_adapter.rs:89-145 | a waiting call can return, or the worker has a command to execute |
| ChannelAdapter.HistoryGrows | src/ime-grpc-host-v2/src/win_imm/channel_adapter.rs:48-80 | commands are never dropped or reordered, and returned replies stay |
| ChannelAdapter.ReturnedComesFirst | src/ime-grpc-host-v2/src/win_imm/channel_adapter.rs:89-145 | a call that has returned comes before everything sent later |
| ChannelAdapter.ACallIsAnswered | src/ime-grpc-host-v2/src/win_imm/channel_adapter.rs:48-80 | the shortest run: one call is sent, executed and answered with the backend's reply |
| ChannelAdapter.APanicIsSurvived | src/ime-grpc-host-v2/src/win_imm/channel_adapter.rs:89-145 | a call in which the backend panics gets the default, and nothing can be sent any more |
| ChannelAdapter.RepliesPassThrough | src/ime-grpc-host-v2/src/win_imm/channel_adapter.rs:89-145 | a reply that arrives is passed on as it is |
| ChannelAdapter.MissingReplies | src/ime-grpc-host-v2/src/win_imm/channel_adapter.rs:89-145 | what each method returns if its reply never comes |
| ChannelAdapter.ChannelRimeBackend.WorkOne | src/ime-grpc-host-v2/src/win_imm/channel_adapter.rs:48-80 | one round of the worker loop executes the oldest command and answers it if somebody still listens |
| ChannelAdapter.ChannelRimeBackend.Drop | src/ime-grpc-host-v2/src/win_imm/channel_adapter.rs:51-52 | a caller that gives up leaves no reply behind; the command stays in the queue |
| ChannelAdapter.ChannelRimeBackend.Call | src/ime-grpc-host-v2/src/win_imm/channel_adapter.rs:101-111 | send and wait: everything queued before is executed first, and reply and state are those of the command applied directly |
| ChannelAdapter.ChannelRimeBackend.Open | src/ime-grpc-host-v2/src/win_imm/channel_adapter.rs:89-95 | opening through the queue returns what the backend returns directly |
| ChannelAdapter.ChannelRimeBackend.Destroy | src/ime-grpc-host-v2/src/win_imm/channel_adapter.rs:97-99 | destroying only joins the queue |
| ChannelAdapter.ChannelRimeBackend.Process | src/ime-grpc-host-v2/src/win_imm/channel_adapter.rs:101-111 | a key through the queue returns what the backend returns directly |
| ChannelAdapter.ChannelRimeBackend.ReadContext | src/ime-grpc-host-v2/src/win_imm/channel_adapter.rs:113-122 | the same for the context |
| ChannelAdapter.ChannelRimeBackend.ReadCommit | src/ime-grpc-host-v2/src/win_imm/channel_adapter.rs:124-133 | the same for the commit text |
| ChannelAdapter.ChannelRimeBackend.Select | src/ime-grpc-host-v2/src/win_imm/channel_adapter.rs:135-145 | the same for a selection |

## Left out

- Win32, Wine and IME calls, window and process handling, sockets, gRPC transport, JSON, logging and configuration: their results are inputs of the model.
- What the worker processes do with a request, except for the stub worker the client's cache is compared with; the pool model records only which workers exist.
- The legacy TCP runtime of the v1 host, but for its line reader and reply parser, and the Windows backend's key handling.
- Session ids of the v1 gateway are taken to be fresh, as random UUIDs are; v2 session ids are not modelled at all, and no freshness is assumed for them.
- 64-bit wrap-around of the worker counter, of sequence numbers and of state versions.
- GatewayRuns.GrowingNumbersAreNeverRejected: a request that reaches the host late, behind a newer one of the same client, is outside its assumption of growing numbers; the host is meant to reject such a key.
- Error replies of the gateway count as lost replies for the client; both make the call fail in the same way.
- Candidate comments and quality values: `real` constants derived from the index.
- PageReader.ReadImmCandidates: buffers below header size are outside its contract, where the source reads past the end; ANSI texts stay raw bytes, because their lossy conversion to UTF-8 does not affect which texts are listed.
- MenuReader.GetCandidateList: an odd string offset is read byte by byte, where the source forms an unaligned reference from it; and buffers below header size are outside its contract, where the source reads past the end.
- CommandHost.Host.ServiceClientIo: socket errors other than end of stream are not modelled; commands are collected, not executed, so a QUIT inside a receive does not close the connection here; a NUL inside a command does not end it.
- ReplyPrinter.BuildCandidateReply: the conversion of candidate texts to UTF-8 with its fallbacks is an input, and the totals it stores for the status command are not modelled.
- RemoteProcessors.RemoteProcessor.ProcessKeyEvent: other processors change the engine's input only by clearing it.
- RemoteProcessors.RemoteProcessor.SyncContextFromBackend: a menu whose count its list cannot serve is outside the menu type; the source throws or reads beyond the list, exactly as `MenuReader.PluginCompletesIff` says.
- RemoteProcessors.TakenUpKeyResynchronises: the caret is the backend's only if that lies inside the text; the source leaves it at the end otherwise.
- ChannelAdapter.ChannelRimeBackend.Call: callers use the object one at a time, and a panicking backend appears only in the state machine.
- Key tables, switch-style names and environment defaults: finite tables.
- The v2 API hooks of the proxy module: struct plumbing around a library that is not part of this model.
