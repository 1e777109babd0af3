# Verified model of the gentle-pi session protocols

This project models the parts of gentle-pi whose correctness does not show in any
one function: protocols that several events drive over shared state, and string
algorithms that another piece of code must be able to undo. Every module is one
component. Code that updates fields or variables is a class or a loop proved
against a reference; code that computes a value is a function; a protocol whose
operations suspend and overlap is a transition system, and its theorems range
over every interleaving.

| file | component |
|---|---|
| `SessionTransport.dfy` | starting, superseding and shutting down the session transport, generation checks after every suspension |
| `TransportShutdown.dfy` | what a shutdown of the transport waits for, that the wait ends, and what is open then |
| `TransportHistory.dfy` | what becomes of every start of the transport, and who may receive, told from the events alone |
| `ParentWake.dfy` | waking an idle parent: owed and queued wakes, the starting prompt and its grace timer, the bounded retry |
| `CompletionQueue.dfy` | settled subagent completions and the flush loop with failing sends |
| `JobNotices.dfy` | the queue of background-job notices, coalesced per monitor, and one flush of it |
| `JobNoticeRuns.dfy` | whole runs of queueing and flushing notices: order, coalescing, conservation |
| `PasteFramer.dfy` | the streaming bracketed-paste framer with its size cap |
| `PromptRecovery.dfy` | recovering queued messages when Esc aborts a turn |
| `UsageRefresh.dfy` | overlapping usage refreshes, of which the newest wins |
| `Routing.dfy` | rewriting `model:` and `thinking:` lines in agent frontmatter |
| `AssetInstaller.dfy` | managed assets: retiring, copying, adopting, updating with rollback |
| `AssetLock.dfy` | the token lock around the managed-assets manifest |
| `ShellTokenizer.dfy` | the quote and escape scanner of quiet-tools |
| `ShellGrammar.dfy` | the written form of a command, which decides the scanner's verdict |
| `CommandWords.dfy` | recognising a direct call among the scanned tokens |
| `SessionScratch.dfy` | a session's temp directory: variables, ledger, reload, sweep |
| `TodoState.dfy` | todo snapshots in an append-only transcript |
| `SkillRegistry.dfy` | the table of the skill registry and the fingerprint of its files |
| `RegistryRuns.dfy` | overlapping registry runs whose writes may fail or damage, and when a cache hit is right |
| `RegistryRefresh.dfy` | one registry run as the program writes it, and the runs after which a hit is wrong |
| `MultiSelect.dfy` | the toggle loop for questions with several answers |
| `Text.dfy`, `Seqs.dfy`, `Wrappers.dfy` | JavaScript string operations, filtering, optional values |

## What the proofs found

Most laws hold as the source promises them. Where one does not, the code is kept
as it is and the theorem gives the exact condition:

- A reload that loses the state in memory restores the temp variables unless the
  session had neither a directory nor artifacts (so no ledger) and a variable was
  inherited with a value named like a session scratch, as when Pi runs inside
  another Pi session: that value is then replaced by its parent
  (`SessionScratch.Runtime.Reload`, reached in `SessionScratch.ReloadTakesTheParent`).
- Clearing a scratch directory beside a live subagent whose own directory is missing
  leaves the emptied directory and forgets it in the ledger; in every other case a
  ledger forgets only what is gone (`SessionScratch.ForgottenExactly`).
- A registry cache hit relies on the run whose fingerprint it read. If no later run
  left its two writes half done and none overlapped that run, the table on disk is
  that run's, and it is right exactly when the skill files held still between the
  run's two readings of them; otherwise it is right exactly when the last write of
  the table happens to agree (`RegistryRuns.HitIsRightExactly`). Each way to fail has
  a witness: a fingerprint that could not be written, a table write that broke off
  on a forced refresh, crossing writes of two runs, and files that changed and
  changed back.
- Of two routing updates the last wins, except after stripping a frontmatter that
  held routing lines only, which leaves an empty line behind
  (`Routing.LastUpdateWins`).
- Forced installs need up to three runs to settle (`AssetInstaller.ThirdRunMatters`);
  this bound holds whether or not sources and retired keys overlap.
- Deleting the lock file by hand keeps mutual exclusion, over every continuation,
  exactly when no installer is between acquiring and releasing at that moment
  (`AssetLock.RemovalIsSafeExactly`).
- A lock file left by an installer that died, or by a release that failed, keeps every
  installer out until an operator removes it: one can get in by itself exactly when the
  path is free or somebody inside is left to free it (`AssetLock.CanGetInExactly`).
- A flush keeps the order of a job's notices exactly when it accepts none of them
  after refusing one (`JobNotices.OrderlyMeansInOrder`); over whole runs, what a job
  was sent followed by what waits is what it reported exactly when every flush was
  of that kind and for the job's own session (`JobNoticeRuns.OrderIsKeptExactly`).
- A call found in a streamed command stays a call, however the command goes on,
  exactly when the executable is not the token still in progress: `gentle-ai` reads
  as a call and `gentle-aix` is none (`CommandWords.StreamedCallStaysExactly`,
  `CommandWords.PrefixReadsAsCall`).
- A second session start on one todo record, without a shutdown between them, leaves
  an open list marked for clearing exactly when the mark was set and the new list is
  open (`TodoState.Session.SessionStart`, reached in
  `TodoState.SecondStartClearsOpenList`).

## Model

| member | source | states |
|---|---|---|
| `SessionTransport.ActiveIsCurrent` | extensions/gentle-agents.ts:864-935 | Over every interleaving of starts, shutdowns, suspensions and failures, an active transport has the current generation and everything it created is open; no resource is ever closed twice |
| `SessionTransport.NothingLeaks` | extensions/gentle-agents.ts:874-923 | At rest, a superseded or failed start has closed whatever it created, exactly once |
| `SessionTransport.NoneActiveAfterShutdown` | extensions/gentle-agents.ts:927-935 | From a shutdown on, until a new start, no transport is active and every operation is of an earlier generation |
| `SessionTransport.ShutdownClosesEverything` | extensions/gentle-agents.ts:927-935 | When a shutdown has come to rest, every resource of every start is closed once |
| `TransportShutdown.WaitEnds` | extensions/gentle-agents.ts:932-934 | The wait of every shutdown ends: without new starts and shutdowns only so many steps can follow, one can follow as long as anything remains, and when none can, everything is at rest and every shutdown has returned |
| `TransportShutdown.SomethingGoesOn` | extensions/gentle-agents.ts:859-863 | While an operation, a tracked promise or a shutdown is unfinished, some step is enabled and does something |
| `TransportShutdown.ComesCloser` | extensions/gentle-agents.ts:859-863 | Every step the operations take by themselves leaves strictly less to do |
| `TransportShutdown.NothingOpenAtReturn` | extensions/gentle-agents.ts:927-935 | When nothing is tracked, a shutdown returns, and every start has closed whatever it created, save the transport of a later start and one that another shutdown is still closing |
| `TransportShutdown.RunKeepsTracked` | extensions/gentle-agents.ts:859-863 | Over every interleaving, a start that is not at rest is tracked, and somebody waits for every close that is still to run |
| `SessionTransport.OnlyTheLatestReceives` | extensions/gentle-agents.ts:894-898 | A notification is accepted only by the latest start's listener, and by none after a shutdown without a new start |
| `SessionTransport.StepKeepsInv` | extensions/gentle-agents.ts:864-935 | Every step keeps the protocol invariant: only the current, unclosed operation can be active, and what was created and not given up is counted once |
| `TransportHistory.EachStartHasItsFate` | extensions/gentle-agents.ts:864-923 | Over every interleaving, the events alone decide whether a start waits, serves or has given up, what it has created, and exactly when its close was called |
| `TransportHistory.ServesExactly` | extensions/gentle-agents.ts:885-923 | A start serves if and only if it found a usable id in the current session, then registry, listener and client came up, and then the listener started and published, each time as the latest start of the current session under an unchanged id |
| `TransportHistory.ActiveExactly` | extensions/gentle-agents.ts:904-922 | A start is the active transport from its publication until its listener fails or another start or shutdown comes, and at no other time |
| `TransportHistory.ReceivesExactly` | extensions/gentle-agents.ts:894-898 | A notification is accepted if and only if its start is published, the latest, of the current session and under the id it started with |
| `TransportHistory.RunIsTold` | extensions/gentle-agents.ts:850-935 | Generation, session, active transport and every operation are after any run what the events make them |
| `ParentWake.ParentDelivery.Laws` | extensions/gentle-agents.ts:1103-1217 | Over every history: two wakes are separated by a run starting or settling, grace expiry or reset; what was stored while idle is covered later or a wake is owed; an owed wake is queued, waits on an armed timer, is out of retries or was parked; at most the limit of retries in a row |
| `ParentWake.WakesAreSeparated` | extensions/gentle-agents.ts:1094-1102 | In a history where no wake was sent while another was outstanding, an event that ends a prompt lies between any two wakes |
| `ParentWake.StoredIsCovered` | extensions/gentle-agents.ts:1139-1142 | If nothing is left uncovered, each stored message is followed by a wake, a run or a session change |
| `ParentWake.RetriesInARow` | extensions/gentle-agents.ts:1116-1123 | The retry counter bounds the retries armed since the last covering event |
| `ParentWake.ParentDelivery.ParentRoute` | extensions/gentle-agents.ts:1149-1158 | No live parent, idle, in a run or held; an idle host overrides a missed lifecycle event |
| `ParentWake.ParentDelivery.RequestWake` | extensions/gentle-agents.ts:1177-1181 | An owed wake is queued once, and not while a prompt is starting |
| `ParentWake.ParentDelivery.DispatchWake` | extensions/gentle-agents.ts:1182-1217 | What each outcome leaves: sent and not owed, parked and still owed, or refused, owed and retried as far as the limit allows |
| `ParentWake.ParentDelivery.ArmDeliveryRetry` | extensions/gentle-agents.ts:1116-1123 | One timer at a time, and none beyond the limit |
| `ParentWake.ParentDelivery.SendToParent` | extensions/gentle-agents.ts:1219-1227 | Content stored for an idle parent owes a wake; a refused message changes nothing |
| `ParentWake.ParentDelivery.FlushAll` | extensions/gentle-agents.ts:1271-1331 | Each accepted message is handed over once, stored in an idle parent or steered into a run; what was stored owes one wake, a refused retryable one arms one retry, and a held flush delivers nothing |
| `ParentWake.ParentDelivery.FlushMessages` | extensions/gentle-agents.ts:1271-1282 | Messages alone: each accepted one is handed over once, up to the first refusal when the caller wants to know, which is then raised, as is an absent parent; nothing is retried |
| `ParentWake.ParentDelivery.MessageArrives` | extensions/gentle-agents.ts:1455-1475 | A notification or query is flushed at once exactly when no run is active, and else changes nothing |
| `ParentWake.ParentDelivery.GraceExpires` | extensions/gentle-agents.ts:1165-1173 | A prompt that started no run stops blocking, and an owed wake is queued again |
| `ParentWake.ParentDelivery.AgentStart` | extensions/gentle-agents.ts:1431-1439 | A run covers everything stored: nothing owed, no retry, no starting prompt |
| `ParentWake.ParentDelivery.AgentSettled` | extensions/gentle-agents.ts:1444-1448 | The final boundary ends run and prompt and then flushes everything held |
| `ParentWake.ParentDelivery.Settle` | extensions/gentle-agents.ts:1410-1414 | A settled task is flushed at once exactly when no run is active: what the flush hands over, owes and retries is stated, and else nothing changes |
| `ParentWake.ParentDelivery.AgentEnd` | extensions/gentle-agents.ts:1440-1443 | The end of an agent run counts down and flushes |
| `ParentWake.ParentDelivery.TurnEnd` | extensions/gentle-agents.ts:1449-1449 | Every turn boundary flushes |
| `ParentWake.ParentDelivery.RetryFires` | extensions/gentle-agents.ts:1116-1123 | The retry timer goes and everything is flushed, which may arm it again |
| `ParentWake.ParentDelivery.BoundaryFires` | extensions/gentle-agents.ts:1337-1343 | What compaction held is flushed on the next tick |
| `ParentWake.ParentDelivery.ResetParentDelivery` | extensions/gentle-agents.ts:1346-1358 | A session change leaves nothing owed or armed; an already queued dispatch still runs |
| `CompletionQueue.DeliveredAtMostOnce` | lib/agents-completion-delivery.ts:46-80 | Over every run, each id is forwarded at most once and never after it was consumed |
| `CompletionQueue.NothingIsLost` | extensions/gentle-agents.ts:1284-1299 | Over every run with failing sends, a completion that settled is pending, consumed, forwarded or was another session's, until the session changes |
| `CompletionQueue.SettledJoinsTheEnd` | lib/agents-completion-delivery.ts:51-54 | A settling completion joins the end of the queue if and only if its task is not already pending, consumed, forwarded or discarded; otherwise nothing changes |
| `CompletionQueue.NewIsAppended` | lib/agents-completion-delivery.ts:51-54 | A task neither settled nor consumed since the session began is queued behind all others |
| `CompletionQueue.FlushSortsOut` | extensions/gentle-agents.ts:1284-1299 | A flush keeps exactly the unconsumed completions of the session that fail, forwards exactly those that do not, discards exactly those of other sessions, all in their order |
| `CompletionQueue.ConsumedStaysBack` | lib/agents-completion-delivery.ts:55-66 | A task whose result was consumed is not forwarded any more |
| `CompletionQueue.PendingInSettleOrder` | lib/agents-completion-delivery.ts:69-73 | Pending completions stand in the order in which they settled, requeues included |
| `CompletionQueue.RunKeepsInv` | lib/agents-completion-delivery.ts:46-80 | The invariant behind these holds after every sequence of events |
| `CompletionQueue.CompletionQueue.Enqueue` | lib/agents-completion-delivery.ts:51-54 | New ids are appended; delivered, pending or consumed ones are ignored |
| `CompletionQueue.CompletionQueue.TakeDeliverable` | lib/agents-completion-delivery.ts:58-68 | Returns the live pending entries in order with their staleness and empties the queue |
| `CompletionQueue.CompletionQueue.Requeue` | lib/agents-completion-delivery.ts:69-73 | A taken entry waits again unless consumed or already pending |
| `CompletionQueue.CompletionQueue.Flush` | extensions/gentle-agents.ts:1284-1299 | The flush loop sends exactly the entries of this session that the host accepts and requeues the refused ones in order |
| `JobNotices.BatchesAreSummaries` | lib/background-monitor.ts:40-69 | Collecting line by line and merging two batches both give the bounded summary of all lines |
| `JobNotices.MergeLosesNothing` | lib/background-monitor.ts:40-69 | Of any two batches, merging shows the first, as much of the second as fits, and counts every other line |
| `JobNotices.ShownTells` | lib/background-monitor.ts:40-69 | A notice tells its job, its kind and its reason, and shows the first lines with the number of the others |
| `JobNotices.TokensTell` | lib/background-monitor.ts:40-69 | Reports that differ read differently |
| `JobNotices.QueuedExactly` | extensions/gentle-agents.ts:1385-1395 | Lines join the job's last pending notice, in its place, if and only if that is one of lines; anything else waits behind the notices of all jobs |
| `JobNotices.QueuedExtendsStream` | extensions/gentle-agents.ts:1385-1395 | A queued notice extends its own job's stream at the end and no other's, merged or not |
| `JobNotices.QueuedStaysCoalesced` | extensions/gentle-agents.ts:1385-1395 | Queueing makes no two line notices neighbours among a job's own |
| `JobNotices.FlushSplitsStream` | extensions/gentle-agents.ts:1304-1323 | A flush that accepts nothing after a refusal splits a job's stream into what was sent, then what waits |
| `JobNotices.FlushConserves` | extensions/gentle-agents.ts:1304-1323 | Whatever is refused, a flush neither loses nor repeats what a job reported |
| `JobNotices.FlushSortsOut` | extensions/gentle-agents.ts:1304-1323 | Over all jobs, a flush sends the session's accepted notices, keeps its refused ones and discards the others', each in queue order |
| `JobNotices.OrderlyMeansInOrder` | extensions/gentle-agents.ts:1304-1323 | The positions of a job's accepted notices followed by those of the refused ones are its positions in the queue if and only if no notice is accepted after one was refused |
| `JobNotices.KeptIsTheEnd` | extensions/gentle-agents.ts:1320-1321 | What such a flush keeps of a job is the end of what waited |
| `JobNoticeRuns.OrderKept` | extensions/gentle-agents.ts:1304-1323 | Over every orderly run, sent followed by pending is exactly what the job reported, in order |
| `JobNoticeRuns.OrderIsKeptExactly` | extensions/gentle-agents.ts:1304-1323 | And only over those: if a job's reports can be told apart, sent followed by pending is what it reported if and only if the run was orderly for it |
| `JobNoticeRuns.PendingInOrder` | extensions/gentle-agents.ts:1385-1395 | Whatever was refused, what waits is in the order in which it was reported |
| `JobNoticeRuns.NothingLostOrRepeated` | extensions/gentle-agents.ts:1304-1323 | Over every run, each reported thing was sent once, waits once or belonged to another session |
| `JobNoticeRuns.PendingIsCoalesced` | extensions/gentle-agents.ts:1385-1395 | In a run that is orderly for a job, refusals included, no two of its pending line notices are neighbours |
| `JobNoticeRuns.RefusalReorders` | extensions/gentle-agents.ts:1320-1322 | A concrete run in which an earlier notice is refused and a later one accepted, and order is lost |
| `JobNotices.NoticeQueue.QueueJobNotice` | extensions/gentle-agents.ts:1385-1399 | The searching and merging loop realises the reference queue on full line lists |
| `JobNotices.NoticeQueue.Flush` | extensions/gentle-agents.ts:1304-1323 | The loop sends, keeps at the front and discards as the reference does |
| `PasteFramer.ChunkingDoesNotMatter` | extensions/gentle-shell.ts:1166-1200 | After the start marker arrived in one chunk, every split of what follows has one outcome: exactly the text before the first end marker (or nothing when too long or in NORMAL), then exactly the text after it as new input |
| `PasteFramer.PasteIsOneFrame` | extensions/gentle-shell.ts:1166-1200 | However a paste is cut, the editor gets the whole frame in INSERT within the limit, and nothing in NORMAL or beyond it |
| `PasteFramer.EachInputIsReceived` | extensions/gentle-shell.ts:1166-1200 | Over every run of typing and pasting each input is received by itself, in order, and nothing else is |
| `PasteFramer.CollectedUntilMarker` | extensions/gentle-shell.ts:1187-1190 | Until the end marker is complete, chunks are only collected, however they are cut |
| `PasteFramer.FrameEndsInNewData` | extensions/gentle-shell.ts:1197-1198 | What remains after a frame is strictly shorter than the chunk, so the handler's recursion ends |
| `PasteFramer.ChunkFindsMarker` | extensions/gentle-shell.ts:1178-1180 | Searching the kept tail and the new data finds what searching the whole frame would |
| `PasteFramer.Framer.HandleVimPasteFrame` | extensions/gentle-shell.ts:1166-1200 | The handler with frame buffer, overflow flag and tail realises the reference, which keeps everything and has no cap on what it remembers |
| `PasteFramer.Framer.HandlePaste` | extensions/gentle-shell.ts:1166-1200 | The bounded handler, fed a paste in any chunks, emits the whole frame in INSERT within the limit and nothing otherwise, and is outside a frame again |
| `PasteFramer.Framer.Bounded` | extensions/gentle-shell.ts:489-490 | The frame buffer never exceeds the cap and the tail never five characters |
| `PasteFramer.Framer.Reset` | extensions/gentle-shell.ts:666-668 | A mode change forgets the frame in progress and emits nothing |
| `PromptRecovery.ExtractUndoesJoin` | extensions/gentle-shell.ts:510-515 | For every queue and draft, taking apart the host's join recovers the queued text, and nothing when it was blank |
| `PromptRecovery.HostJoinsWhatSaysSomething` | extensions/gentle-shell.ts:492-500 | The host's join is that of the texts that are not blank |
| `PromptRecovery.RecoveredOnlyFromJoin` | extensions/gentle-shell.ts:492-509 | A text worth a turn is recovered if and only if the host would have written that editor text for it |
| `PromptRecovery.UnknownShapeIsRefused` | extensions/gentle-shell.ts:503-509 | An unrecognised shape is one that no queued text explains, and it is never taken for an empty queue |
| `PromptRecovery.CollectedLikeTheHost` | extensions/gentle-shell.ts:2001-2006 | Texts of several aborts are joined as the host joins its own queue |
| `PromptRecovery.Recovery.Conserved` | extensions/gentle-shell.ts:2928-2954 | After any sequence of events each recovered text is in exactly one message the host accepted, or held for the next turn, or was put back or dropped at the end, and never in two of these |
| `PromptRecovery.Recovery.MessageHolds` | extensions/gentle-shell.ts:2940-2943 | The message a text is in really is among those sent, and contains the text whole |
| `PromptRecovery.Recovery.HeldTextHolds` | extensions/gentle-shell.ts:2320-2320 | The pending text contains every held text whole |
| `PromptRecovery.Recovery.ReturnedTextIsBack` | extensions/gentle-shell.ts:2944-2949 | What the editor was given contains every text put back whole, and the draft can be taken out of it again |
| `PromptRecovery.Recovery.OnlyRecoveredIsSent` | extensions/gentle-shell.ts:2939-2943 | Every message sent is the join of recovered texts, and of exactly those said to be in it |
| `PromptRecovery.Recovery.AbortAndDispatchQueued` | extensions/gentle-shell.ts:1219-1231 | Whatever the host queued is collected and the draft restored; an unknown shape leaves the editor alone; nothing else is collected |
| `PromptRecovery.Recovery.AgentSettled` | extensions/gentle-shell.ts:2928-2954 | Waiting texts are sent together once, or go back into the editor ahead of the draft so that they could be recovered again, or wait on when no prompt can hold them |
| `PromptRecovery.Recovery.SessionShutdown` | extensions/gentle-shell.ts:2358-2377 | Only the end of the session drops what waits |
| `UsageRefresh.Usage.NewestWins` | extensions/gentle-shell.ts:1855-1919 | Once a provider's newest refresh changed it, no refresh does again, and it is marked failed exactly when that refresh failed and no response answered since |
| `UsageRefresh.Usage.LatestIsShown` | extensions/gentle-shell.ts:1901-1919 | What is shown of a provider is what its last successful refresh or response brought |
| `UsageRefresh.NumberedAfterSettling` | extensions/gentle-shell.ts:1791-1795 | Whatever settles, the generations that changed a provider keep strictly increasing |
| `UsageRefresh.MarkedAfter` | extensions/gentle-shell.ts:1787-1790 | The failure marks and snapshots follow the last state-changing fact of each provider |
| `UsageRefresh.Usage.Dispatch` | extensions/gentle-shell.ts:1855-1860 | When a refresh is dispatched, and that it takes the next generation and the source of the moment |
| `UsageRefresh.Usage.Settle` | extensions/gentle-shell.ts:1901-1919 | A superseded or replaced refresh changes nothing; any other is recorded as failure or snapshot |
| `UsageRefresh.Usage.AfterProviderResponse` | extensions/gentle-shell.ts:1949-1958 | A response's snapshot is recorded and clears the failure |
| `Routing.StripAbsorbsUpdate` | lib/agent-assets.ts:239-260 | Stripping after any routing update equals stripping, for every content |
| `Routing.StripIsIdempotent` | lib/agent-assets.ts:262-269 | Stripping twice is stripping once |
| `Routing.UpdateCarriesRouting` | lib/agent-assets.ts:251-258 | An updated file reads back exactly the routing lines it was given, in order |
| `Routing.LastUpdateWins` | lib/agent-assets.ts:239-260 | The last of two updates wins if and only if a stated condition on the first strip holds |
| `Routing.MigrationLaw` | lib/agent-assets.ts:271-285 | A migrated file strips to the packaged one, and with frontmatter on both sides carries exactly the installed routing lines |
| `Routing.RoutingIsPlaced` | lib/agent-assets.ts:251-258 | Exactly the lines that choose a model go, the others keep their order, and new ones stand right below the description, or below the first line |
| `Routing.UpdateRewritesLines` | lib/agent-assets.ts:243-259 | Nothing outside the lines between the fences changes |
| `Routing.NoFrontmatterNoChange` | lib/agent-assets.ts:243-245 | A file without a complete frontmatter is not touched |
| `Routing.OnlyAgentsAreRouted` | lib/agent-assets.ts:262-285 | Files that are not agents are compared and replaced as they are |
| `Routing.UpdatedHasNoFenceInside` | lib/agent-assets.ts:244-259 | Rewriting never creates an earlier closing marker |
| `Routing.AssembledReadsBack` | lib/agent-assets.ts:244-248 | A reassembled file is read back as the same lines and body |
| `Routing.FirstFence` | lib/agent-assets.ts:244-244 | In joined lines none of which opens with a fence, the first closing marker is the body's |
| `AssetInstaller.UsersAreRespected` | lib/agent-assets.ts:432-477 | No run changes or removes a file that neither the manifest hash nor the legacy history vouches for; an unforced run leaves existing unretired files and entries alone |
| `AssetInstaller.EntriesAreTrue` | lib/agent-assets.ts:478-480 | After a forced run an entry is the hash of the installed file; a retired key keeps one only where nothing could be changed |
| `AssetInstaller.MissingIsInstalled` | lib/agent-assets.ts:432-480 | Every run, forced or not, installs a selected shipped file that is not there, and one it has just retired |
| `AssetInstaller.InstalledFileExactly` | lib/agent-assets.ts:433-480 | An installed file is replaced, adopted with its routing, disowned or left alone, each exactly under its condition on file, manifest entry, history and force |
| `AssetInstaller.RetiredFileExactly` | lib/agent-assets.ts:510-546 | A retired file goes if and only if the run covers it and manifest or history vouch for it; any other readable one is only disowned |
| `AssetInstaller.OthersAreLeft` | lib/agent-assets.ts:396-415 | What is neither shipped and selected nor retired stays |
| `AssetInstaller.PackageShips` | lib/agent-assets.ts:568-594 | What the package ships is exactly the files of its three directory trees, each under the key of its path |
| `AssetInstaller.ThreeRunsSettle` | lib/agent-assets.ts:548-604 | For every key, from any state, the fourth forced run changes nothing |
| `AssetInstaller.ForcedRunsConverge` | lib/agent-assets.ts:548-604 | Files and manifest as a whole reach a fixed point after three forced runs |
| `AssetInstaller.ThirdRunMatters` | lib/agent-assets.ts:438-476 | Three is exact: for an adopted agent under a stale entry each of the three runs changes something |
| `AssetInstaller.MigrationSettles` | lib/agent-assets.ts:271-285 | Migrating repeatedly to one package version settles at once with frontmatter and after one more time otherwise |
| `AssetInstaller.UpdateIsAtomic` | lib/agent-assets.ts:312-365 | Whatever write fails, file and manifest are both next, both as before or back to previous, or the could-not-restore error is raised; success exactly when the guards hold and the writes succeed |
| `AssetInstaller.PartsCombine` | lib/agent-assets.ts:568-594 | Three directories installed in turn amount to one run over the whole package |
| `AssetInstaller.KeysAreBelow` | lib/agent-assets.ts:406-415 | Every key a directory installs lies below the directory's prefix |
| `AssetInstaller.Home.RemoveRetiredManagedAssets` | lib/agent-assets.ts:510-546 | The loop removes vouched copies of retired assets, disowns the others and touches nothing else |
| `AssetInstaller.Home.CopyDirectoryFiles` | lib/agent-assets.ts:396-483 | The recursive loop gives every shipped key its per-key outcome and touches nothing else |
| `AssetInstaller.Home.InstallPackageAssets` | lib/agent-assets.ts:548-604 | A whole run gives every key the outcome the per-key laws speak of, and has installed every selected shipped file that was missing |
| `AssetInstaller.Home.UpdateOwnership` | lib/agent-assets.ts:312-365 | The update with rollback realises the reference for its key and leaves other keys alone |
| `AssetInstaller.Home.ReplaceFile` | lib/agent-assets.ts:287-310 | Whatever of looking, writing beside, renaming and removing fails, the file is the old one or, on success only, the new one whole; a temporary file stays only if it cannot be removed |
| `AssetLock.MutualExclusion` | lib/agent-assets.ts:135-194 | Over every interleaving at most one process is between acquire and release |
| `AssetLock.ReleaseRemovesOwnLock` | lib/agent-assets.ts:173-180 | The read-then-unlink release only ever unlinks its own lock file |
| `AssetLock.RemovalIsSafeExactly` | lib/agent-assets.ts:165-167 | Deleting the lock file by hand keeps mutual exclusion over every continuation if and only if nobody is between acquire and release |
| `AssetLock.RemovalLetsIn` | lib/agent-assets.ts:152-154 | While somebody is, any process outside gets in beside it and owns the file |
| `AssetLock.ForeignLockIsUnlinked` | lib/agent-assets.ts:173-180 | If that somebody had already read its own token, it unlinks the other's file and a third gets in |
| `AssetLock.CanGetInExactly` | lib/agent-assets.ts:135-180 | A process can still get in, without an operator, if and only if the path is free or somebody inside is left to free it |
| `AssetLock.EntersExactly` | lib/agent-assets.ts:146-154 | A process comes in only by creating the absent file, with a token of its own |
| `AssetLock.WaitsExactly` | lib/agent-assets.ts:144-170 | Who has not come in waits until it comes in or gives up |
| `AssetLock.LeavesExactly` | lib/agent-assets.ts:173-180 | A holder unlinks exactly if it reads its own token, and is outside afterwards |
| `AssetLock.FileExactly` | lib/agent-assets.ts:146-180 | When the lock file comes and when it goes |
| `AssetLock.RunKeepsInv` | lib/agent-assets.ts:135-194 | The invariant behind both holds after every advised run |
| `ShellTokenizer.ShellTokens` | extensions/quiet-tools.ts:208-259 | The scanning loop computes the reference scan |
| `ShellGrammar.VerdictExactly` | extensions/quiet-tools.ts:208-259 | For every command: it is complete with given tokens if and only if it is written in pieces (blanks, plain characters, backslashes, quoted passages) that spell them, generic if and only if behind some pieces stands what only a shell can evaluate, and incomplete if and only if it breaks off behind some pieces |
| `ShellGrammar.PiecesReadBack` | extensions/quiet-tools.ts:208-259 | Any mixture of bare, escaped and quoted passages within one word reads back; outside quotes a backslash and a character read as the character, unless the word so far is a Windows path |
| `ShellGrammar.InPieces` | extensions/quiet-tools.ts:208-259 | Every string has such a form |
| `ShellTokenizer.QuotingRoundTrip` | extensions/quiet-tools.ts:208-259 | Any list of tokens, written bare, in single or in double quotes as each allows and joined by spaces, tokenizes as complete to exactly that list, empty tokens included |
| `ShellTokenizer.StreamingIsStable` | extensions/quiet-tools.ts:208-259 | A generic verdict survives every extension, and otherwise the prefix's settled tokens begin the extended command's tokens |
| `ShellTokenizer.FirmStays` | extensions/quiet-tools.ts:208-259 | So do all tokens but the one in progress, which is none behind white space |
| `ShellTokenizer.UnprotectedMetaIsGeneric` | extensions/quiet-tools.ts:236-253 | A complete command followed by a metacharacter outside quotes is generic, whatever comes after |
| `CommandWords.GentleAiCommandTokensFrom` | extensions/quiet-tools.ts:302-317 | The loop skips assignments, `command` and `env` as the reference does |
| `CommandWords.AssignmentExactly` | extensions/quiet-tools.ts:261-263 | An assignment is a variable name, an equals sign and any value |
| `CommandWords.RecognisedIsCall` | extensions/quiet-tools.ts:302-317 | What is recognised has the grammar of a direct call, with the returned arguments |
| `CommandWords.CallIsRecognised` | extensions/quiet-tools.ts:302-317 | Every direct call of the grammar is recognised with exactly its arguments |
| `CommandWords.OptionsRuleOut` | extensions/quiet-tools.ts:305-314 | An option behind `command` or `env` rules a call out |
| `CommandWords.QuotedCallIsRecognised` | extensions/quiet-tools.ts:319-322 | However its words are quoted, a call is recognised in the command text |
| `CommandWords.StreamedCallStaysExactly` | extensions/quiet-tools.ts:708-717 | A call found in the tokens of a streamed prefix is found in every extension that is not generic if and only if its executable is not the token in progress |
| `CommandWords.FirmCallStays` | extensions/quiet-tools.ts:708-717 | Then its finished arguments begin the arguments of every extension |
| `CommandWords.PrefixReadsAsCall` | extensions/quiet-tools.ts:708-717 | The prefix `gentle-ai` reads as a call and its extension by one letter does not |
| `SessionScratch.RemovalKeepsHeld` | lib/session-scratch.ts:312-338 | A removal never takes a path that is or contains a held path or a live subagent's directory |
| `SessionScratch.RemovalIsConfined` | lib/session-scratch.ts:254-272 | It takes only what lies in a trusted recorded directory that holds nothing to keep |
| `SessionScratch.RemovalExactly` | lib/session-scratch.ts:312-338 | A path goes if and only if it lies in a trusted, intact directory in which nothing held lies, and, beside live subagents, belongs to an entry that is not theirs |
| `SessionScratch.AnswerExactly` | lib/session-scratch.ts:312-338 | When a removal answers refused, absent, kept or removed |
| `SessionScratch.ForgottenExactly` | extensions/session-scratch.ts:136-137 | A ledger forgets its directory if and only if it was gone, or held nothing to keep and none of its entries is left |
| `SessionScratch.TrustedExactly` | lib/session-scratch.ts:254-272 | A ledger's directory is trusted if and only if it has a session's name directly under the recorded root, which inside the home must be the asking session's |
| `SessionScratch.SubagentNameExactly` | lib/session-scratch.ts:24-25 | Which entries are named as a subagent's |
| `SessionScratch.DeadExactly` | extensions/session-scratch.ts:83-90 | A ledger is dead if and only if its process is, or its identifier has gone to another |
| `SessionScratch.SubagentsStay` | lib/session-scratch.ts:327-334 | Removing entry by entry beside live subagents leaves what the reference leaves |
| `SessionScratch.RecordingIsExact` | extensions/session-scratch.ts:243-264 | Recording adds each new unprotected path once and forgets none |
| `SessionScratch.NewestIsTheEnd` | extensions/session-scratch.ts:262-262 | Beyond sixty-four artifacts the oldest give way, and no others |
| `SessionScratch.Runtime.RemoveSessionScratch` | lib/session-scratch.ts:312-338 | The method's result and the files left are those of the reference |
| `SessionScratch.Runtime.Sweep` | extensions/session-scratch.ts:149-158 | The sweep keeps every directory in use by a live session or subagent and all that contains it, takes only from sessions that ended long enough ago, clears every directory such a session left with nothing to keep in it, forgets in the ledgers only what is gone, and changes no live one |
| `SessionScratch.Runtime.Redirect` | extensions/session-scratch.ts:194-204 | The variables get the new directory, or exactly the inherited values when none can be made |
| `SessionScratch.Runtime.EndSession` | extensions/session-scratch.ts:132-144 | The variables come back, the directory goes as far as the removal reaches and the ledger says so, other ledgers are untouched, and nothing held is removed |
| `SessionScratch.Runtime.BeginAnew` | extensions/session-scratch.ts:192-226 | A session begins with a directory of its own, variables that point there and a ledger that remembers the inherited values, and clears the directory another process left under it |
| `SessionScratch.Runtime.TakenExactly` | extensions/session-scratch.ts:176-191 | Where the values a session will put back come from: a recovered ledger, at a reload this process's record or the parent of a session's directory, else the present values |
| `SessionScratch.Runtime.RecoversExactly` | extensions/session-scratch.ts:162-166 | A ledger is recovered if and only if this process wrote it, its directory is trusted, there and intact, and the temp directory lies in it |
| `SessionScratch.Runtime.StartSession` | extensions/session-scratch.ts:170-226 | A start, resumption or switch leaves a session that will restore the original values, and removes nothing in use elsewhere |
| `SessionScratch.Runtime.Reload` | extensions/session-scratch.ts:174-195 | After a reload the session still knows the original values if and only if a stated condition holds |
| `SessionScratch.Runtime.SessionShutdown` | extensions/session-scratch.ts:347-352 | After any such sequence every temp variable has its value from before the first start, other variables are untouched, and files and ledgers are left as ending the session leaves them |
| `SessionScratch.ReloadTakesTheParent` | extensions/session-scratch.ts:187-193 | A reachable run of the failing case: started inside another session's directory, the parent is restored |
| `SessionScratch.Runtime.Capture` | extensions/session-scratch.ts:243-264 | Created directories join the ledger, newest sixty-four kept |
| `TodoState.ClosedIsNoSnapshot` | lib/shell-todo.ts:294-302 | No snapshot reads as the closing marker, so the marker means that nothing is open |
| `TodoState.FinishedExactly` | lib/shell-todo.ts:148-151 | A list is finished if and only if every task is done or dropped |
| `TodoState.SeenExactly` | extensions/gentle-todo.ts:376-382 | What the model sees is the last state message, whatever follows it |
| `TodoState.RequestIsCurrent` | extensions/gentle-todo.ts:376-382 | A request completed with what it lacked ends in the current list, or in the closing marker if a snapshot was ever shown |
| `TodoState.Session.Context` | extensions/gentle-todo.ts:366-390 | Every request extends the host's messages and its last state message is the list as it is; the hook queues at most once, and nothing when the transcript is up to date; the reminder comes once when due |
| `TodoState.Session.Execute` | extensions/gentle-todo.ts:275-297 | When a write queues a snapshot, and that reads and errors queue none |
| `TodoState.Session.TurnEnd` | extensions/gentle-todo.ts:354-364 | What was queued is appended, after which the transcript is up to date |
| `TodoState.Session.SessionStart` | extensions/gentle-todo.ts:318-332 | A finished list is history; exactly when an open list could be cleared later |
| `TodoState.Session.BeforeAgentStart` | extensions/gentle-todo.ts:338-346 | Clearing a finished list changes nothing the model reads |
| `TodoState.Session.OneTurnRepairs` | extensions/gentle-todo.ts:368-374 | Whatever the transcript lost, after one turn requests only grow and nothing more is queued; an up-to-date transcript is extended by nothing |
| `TodoState.SecondStartClearsOpenList` | extensions/gentle-todo.ts:318-346 | A reachable run in which a second start lets the next prompt clear an open list |
| `SkillRegistry.TableIsRight` | extensions/skill-registry.ts:266-281 | The table has one row per name, the first project-scoped candidate where there is one and else the first, in name order |
| `SkillRegistry.TableExactly` | extensions/skill-registry.ts:266-281 | In terms of the entries alone: strictly ordered names, all of them, each with its first project entry or else its first |
| `SkillRegistry.LoadExactly` | extensions/skill-registry.ts:240-260 | Every readable file that declares a skill adds it in its place, and no other adds anything |
| `SkillRegistry.DedupeBySkillName` | extensions/skill-registry.ts:266-281 | The bucket loops compute that table |
| `SkillRegistry.BucketDecides` | extensions/skill-registry.ts:276-279 | A name's bucket makes the choice all entries would |
| `SkillRegistry.FingerprintDetermines` | extensions/skill-registry.ts:303-322 | Files with one fingerprint are listed alike, whatever order the lines are in |
| `RegistryRuns.HitIsRightExactly` | extensions/skill-registry.ts:494-563 | Over every interleaving of runs with refused and damaging writes: a hit shows the right table if and only if, where no run left its writes half done since the stamp and none overlapped, the stamping run read steady files, and elsewhere the last table write agrees |
| `RegistryRuns.CleanTableIsStampers` | extensions/skill-registry.ts:537-540 | Without such a disturbance the table on disk is the one the stamping run wrote |
| `RegistryRuns.LaterWriterDisturbs` | extensions/skill-registry.ts:537-556 | A run that touches the table after the stamping run wrote it either had not completed both writes when the cache was read, or overlapped |
| `RegistryRuns.HitHasStamper` | extensions/skill-registry.ts:510-521 | Behind every hit there is a run that completed both writes over the very same files |
| `RegistryRuns.DecideHits` | extensions/skill-registry.ts:510-521 | A run ends content with the table on disk if and only if it hits |
| `RegistryRuns.DeletedExactly` | extensions/skill-registry.ts:510-521 | Deleting one of the two files leaves the other and every run as they were |
| `RegistryRuns.PlayKeepsInv` | extensions/skill-registry.ts:494-563 | After every sequence of steps the history tells exactly what is on disk and where each run stands |
| `RegistryRefresh.AloneOutcome` | extensions/skill-registry.ts:494-563 | The suspended steps of one run, taken in a row, have the outcome of the program text |
| `RegistryRefresh.Registry.Regenerate` | extensions/skill-registry.ts:494-563 | The program text: when a run hits, what each refused or damaging write leaves, which error is reported, and that a completed run shows the table of what it read |
| `RegistryRefresh.ResultExactly` | extensions/skill-registry.ts:509-556 | Exactly when a run is content, is stopped, completes or fails, and what each leaves of table and fingerprint |
| `RegistryRefresh.HalfWrittenRunMisleads` | extensions/skill-registry.ts:539-541 | A fingerprint that cannot be written: a later hit shows the wrong table |
| `RegistryRefresh.DamagedTableIsHit` | extensions/skill-registry.ts:539-556 | A forced refresh over unchanged files that breaks off in the table: it throws, and the next run hits the damaged file |
| `RegistryRefresh.CrossedRunsMislead` | extensions/skill-registry.ts:537-540 | Two runs whose writes cross: every later run over the edited files hits the table of the old ones |
| `RegistryRefresh.UnsteadyRunMisleads` | extensions/skill-registry.ts:509-530 | Files that change between fingerprinting and reading and change back: a later hit shows the passing state |
| `MultiSelect.OptionsAreDistinct` | extensions/ask-user-question.ts:68-73 | With distinct labels a round's options are pairwise distinct and none is "Done" |
| `MultiSelect.AskMultiSelect` | extensions/ask-user-question.ts:111-130 | Against every host the loop ends within the cap, commits only on "Done" or when every option is on, and never on cancellation, an unknown answer or a spent cap |
| `MultiSelect.EndExactly` | extensions/ask-user-question.ts:111-130 | A question is committed if and only if every option came to be on or the host said "Done" in time, and abandoned if and only if it gave no answer, one not offered, or spent the cap |
| `MultiSelect.RoundsExactly` | extensions/ask-user-question.ts:117-126 | Every round toggled the option whose row the host gave back |
| `MultiSelect.SelectedExactly` | extensions/ask-user-question.ts:94-102 | A row holds the options that are on in the question's order |
| `MultiSelect.CommittedByParity` | extensions/ask-user-question.ts:94-102 | A committed row holds exactly the options picked an odd number of times |
| `MultiSelect.OneOutcome` | extensions/ask-user-question.ts:117-129 | The reference determines picks and row, even with repeated labels |
| `MultiSelect.EverySelectionFits` | extensions/ask-user-question.ts:82-91 | For any number of options, every selection can be given within the cap |

## Left out

- Rendering, cards, themes, mouse regions, overlays and sidebar layout: presentation, which Pi's user-interface library draws.
- Vim command routing: only the paste framer in front of it is modelled.
- The Pi host: its answers (idle or not, message accepted or refused, editor text restored, answers picked) are parameters of every event.
- Messages sent by the host back into the extension during a send (reentrancy): a send returns before the next event.
- Message queues of running subagents, notifications, task store and runner: their contents are parameters of `FlushAll` and `FlushMessages`; one list of messages with a retry flag stands for the three queues a flush visits.
- `publishActivity`: one flag and one timer; it would add only an easy invariant.
- Timed retries of refused completions: a successful wake cancels the shared retry timer (extensions/gentle-agents.ts:1191), so only that completions stay pending is stated.
- `dropAll` begins a new history: the laws of `CompletionQueue` range over the events between two session changes.
- Monitor floods, timeouts and batching windows: clocks only decide when a notice is queued.
- SessionTransport, TransportShutdown, TransportHistory: a transition system on values instead of methods, because every operation suspends and resumes among others; closes that fail are swallowed by the source and count as closes; that suspended file operations settle is assumed.
- AssetLock: a transition system on values for the same reason; random tokens are taken to be distinct.
- AssetInstaller.Home.InstallPackageAssets: does not model write errors inside a run, nor the returned counts; directory listings have distinct names, and SHA-256 is taken to identify its text.
- AssetInstaller.Home.UpdateOwnership: keys outside the agents directory are refused before this method; file modes are not modelled.
- Routing.RoutingLines: a routing line is one that starts with `model:` or `thinking:` and has no line break, as the callers pass them.
- Characters: a Dafny character stands for a UTF-16 unit; the texts compared are the same either way, lengths are counted in units.
- CommandWords: which tokens name the executable is a parameter that only has to exclude assignments, options, `command` and `env`, and not to accept every lengthened name, as the source's expression does; the operation paths shown on cards are not modelled.
- SessionScratch.Runtime.StartSession: the ledger is written through (an unwritable config home, on which the source falls back to guessing, is not modelled), no other process writes the same session's ledger, and the ledgers of earlier processes with the same identifier do not record the directory the process was started in.
- SessionScratch.Runtime.RemoveSessionScratch: a removal that fails half way, and `/gentle:scratch` with its contents-only form and its Git checks, are not modelled; real paths, path resolution and scratch names of variable values are parameters.
- SessionScratch.Runtime.Sweep: what protects a recorded clone is the ledger that recorded it; a clone inside another ended session's directory goes with that directory, as in the source.
- TodoState: how task lines are rendered and how the list is edited are parameters; the system prompt block, the card and its scrolling are presentation.
- SkillRegistry.FingerprintDetermines: assumes that skill directories do not contain one another, so that each path has one place in the listing, that paths hold no line breaks, and that SHA-1 identifies a file; parsing a skill file, and the order of names, are parameters.
- RegistryRuns: runs are a transition system on values because they suspend and overlap; listing with fingerprinting, and reading the skills, are one step each; a write counts as whole when it leaves the file exactly as that run meant it, and a mixture of two writes counts as damaged; the history begins with an empty directory.
- RegistryRefresh.Registry.Regenerate: the list of source directories and the date in the rendered file are not part of the table; watchers, the startup queue and legacy migration are left out.
- JobNoticeRuns.OrderIsKeptExactly: tells lines apart by their number, and asks that a job stops and ends at most once; where reports cannot be told apart, the order of notices is the subject of `JobNotices.OrderlyMeansInOrder`.
- PromptRecovery.Recovery.Conserved: words typed after a refused text went back into the editor are the user's own; a text put back is not followed further.
- MultiSelect: prompts, headers and the other question kinds.
