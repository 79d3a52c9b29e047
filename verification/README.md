# Verified models of the agent runtime and the Buddy desktop client

This project models the hard parts of the repository in Dafny and proves what they promise. `dafny verify dfyconfig.toml`
checks all of it. Every model is in the form of the code it stands for: objects with mutable fields are classes whose methods
are proved against a function of the old state, in-memory algorithms are methods with loops, protocols between processes,
threads or callbacks are transition systems whose runs are sequences of states, and everything promised over many calls is a
lemma about these functions and runs.

| file | what it models |
|---|---|
| `TagSearch.dfy`, `ToolProtocolTags.dfy`, `ToolProtocolGrammar.dfy`, `ToolProtocolStripper.dfy` | the streaming filter that takes `<tool_calls>` blocks out of model output that arrives in chunks |
| `CommandProtocol.dfy`, `CommandAttempts.dfy` | the agent's command stream with acknowledgements, dead letters, idempotency marks, crashes and redelivery; how often a handler is called and how handling ends |
| `ConsumeLoop.dfy`, `ConsumeLoopRuns.dfy` | the consume loops and their in-flight sets; when a loop reads, waits, sleeps and ends |
| `AgentRunner.dfy`, `AgentRunnerRuns.dfy` | submits side by side in one process, the map of active runs, and what becomes of each submit |
| `RuntimeLock.dfy` | the lock with expiring leases, and the in-memory lock that it refines |
| `CheckpointRetention.dfy`, `CheckpointSweep.dfy` | the sweep of expired checkpoint threads, the delete command, and a sweep beside running graphs |
| `ProtocolLine.dfy`, `RuntimeServer.dfy`, `RuntimeServerRuns.dfy` | the runtime's line framing, request queue, workers and shutdown; what becomes of each request |
| `CoalescingWriter.dfy` | the writer that coalesces values submitted during a write |
| `RunEventWindow.dfy`, `RunSync.dfy`, `RunSyncAtRest.dfy`, `RunSyncConversation.dfy` | the bounded window of run events, the cursors that fill it page by page, what a client at rest has, and where a fetched conversation starts |
| `DesktopDraft.dfy`, `DesktopDraftRuns.dfy` | drafts, attachments, request ids, sends and navigation; what the user finds in the composer |
| `RunGroups.dfy`, `ActivityMerge.dfy`, `Transcript.dfy`, `TranscriptOrder.dfy` | how messages and run events become transcript rows, and where the rows of a run stand among the messages |
| `Utf8.dfy`, `TextSplit.dfy`, `ComposerInput.dfy`, `ComposerPayload.dfy` | how the composer's document becomes text with UTF-8 byte ranges, and the payload read off its tree |
| `VirtualList.dfy` | the search, range and scroll anchoring of the virtual list |
| `CryptoMigration.dfy` | the migration of encrypted columns to another key namespace |
| `Wrappers.dfy`, `Sequences.dfy`, `Characters.dfy` | shared helpers |

## Where the code does less than one could expect

Each of these is proved of the model; where a property fails for some inputs, so is the exact condition under which it holds.

- Cutting model output into chunks changes what the stripper emits exactly when an open tag that starts a block is longer
  than 65 code units (`ToolProtocolStripper.ChunkingLaw`, with the failing cut from `LongTagLeaks`); `<`, n blanks and
  `tool_calls>` are such a tag exactly from 54 blanks on (`ToolProtocolStripper.PaddedTagChunkingLaw`).
- An acknowledged command without a dead letter need not have had a submit that returned. It had one exactly if a handling of
  it found the key free and returned; otherwise it was turned away by a key that was marked already
  (`CommandProtocol.AcknowledgedExactly`). Within one lifetime of the key (see below), its latest submit has not returned exactly if
  it still runs, threw, died with its instance or lost the answer to its mark, none having begun since
  (`CommandProtocol.ReturnedExactly`, `CommandProtocol.SpoiledExactly`). Two runs show it: a submit that dies with its
  process is not repeated on redelivery (`CommandProtocol.CrashedSubmitIsNotRepeated`), and a duplicate is dropped although
  the submit of its twin then throws (`CommandProtocol.DuplicateIsDropped`).
- A mark can go before it has run out. A submit that is still at work when its mark runs out, and then throws, clears the mark
  that a later task has set: after that two submits run though the second one's mark is fresh
  (`CommandProtocol.StragglerFreesLiveMark`), or one is repeated that has returned
  (`CommandProtocol.StragglerRepeatsReturned`). A lifetime of a key is the time between two such ends: it ends exactly when the
  mark runs out, or when a submit of an earlier lifetime clears it (`CommandProtocol.LifetimeEndsExactly`,
  `CommandProtocol.LifetimeChangesExactly`). The first end is always an expiry (`CommandProtocol.UnexpiredIsFirst`), so as long
  as no mark of the key has run out there is one submit at a time and none after a return
  (`CommandProtocol.AtMostOneSubmitUnexpired`, `CommandProtocol.NoSubmitAfterReturnUnexpired`); within any lifetime the same
  holds (`CommandProtocol.AtMostOneSubmit`, `CommandProtocol.NoSubmitAfterReturn`).
- Taking the command handler away and giving it again while the old loop waits leaves two loops at work. At most
  maxConcurrentRuns handlers are in flight unless a loop is begun while another is alive (`ConsumeLoop.LoopIsBounded`); in any
  case at most that many per loop begun (`ConsumeLoop.EachLoopHasItsShare`), which two loops reach
  (`ConsumeLoop.TwoLoopsExceedTheBound`).
- Two tasks of one lock key overlap exactly when a lease runs out during its task (`RuntimeLock.OverlapNeedsExpiry`,
  `RuntimeLock.ExpiryAllowsOverlap`).
- The periodic sweep does not take the thread lock: it deletes a thread exactly if all accesses that it listed are before the
  cutoff, whatever leases there are (`CheckpointSweep.SweepDeletesExactly`, `CheckpointSweep.DeletionIgnoresTheLock`), so it can
  delete the thread of a running graph with every lease alive (`CheckpointSweep.SweepHitsRunningGraph`).
- A submit whose start event cannot be published keeps its generation among the active runs for the life of the process
  (`AgentRunner.LostStartIsKept`, `AgentRunner.StartCanBeLost`).
- A delete command publishes both a completion and a failure exactly when the lock cannot be released after the completion
  (`CheckpointRetention.HandleDeleteCommand`).
- When a user goes to another draft and back while a send is on its way, the sent text stays on the screen although the store
  has let go of it; and when a user has opened the new conversation before the reply, the draft moved there is not shown
  (`DesktopDraft.SyncAfterAccept` has the exact condition, `DesktopDraft.ScreenCanBeStale` a run). In the second case the moved
  draft is lost exactly when the user leaves the conversation, since the screen is saved over it
  (`DesktopDraft.MovedDraftStaysExactly`, `DesktopDraft.MovedDraftIsLost`).
- A draft moved to the new conversation takes the place of one typed there before the reply, which is lost exactly if the sent
  draft was edited to something else (`DesktopDraft.OlderDraftSurvives`, `DesktopDraft.OlderDraftIsLost`).
- An edit during a send in a conversation is thrown away exactly if it leaves the text and the attachments as they were sent,
  even if it has put in a token (`DesktopDraft.ConversationDraftSurvives`, `DesktopDraft.ComposerEditIsLost`).
- A run is given up when its requests fail five times in a row, when its update is of another conversation, or when the answers
  to a flush are thrown away because the conversation has changed. It then stays where it is until it is announced again or the
  conversation is fetched anew or left (`RunSyncAtRest.GivenUpIsLeft`, `RunSyncAtRest.GivenUpRunIsBehind`). A run that has not
  been given up since it was announced, in a conversation not fetched anew or left since, has caught up with its announcement
  once the client is at rest (`RunSyncAtRest.AtRestCaughtUp`).
- A run has no row at all when the message that it completed is listed but is none of the assistant's
  (`Transcript.EachRunIsShownOnce`, `Transcript.RunWithoutRow`).
- A prompt token loses its byte range, or gets one beyond the sent text, exactly when only spaces lie before its first or
  behind its last character, itself included (`ComposerInput.KeptExactly`), as for a label that ends with a space at the end of
  the text (`ComposerInput.PaddedTokenIsCut`, `ComposerInput.PaddedMention`).
- Scroll anchoring moves what follows exactly when the container cannot scroll by the difference
  (`VirtualList.AnchoringKeepsPositions`, `VirtualList.LargeGrowthMoves`). A late measurement of an item that is not in the list
  any more counts it as one at the top: the container scrolls by the difference exactly if the old height fits above the
  viewport, away from the bottom, though no offset changes (`VirtualList.UnlistedItemScrolls`).
- An empty text sealed under the source key is taken for plain text by the migration and sealed once more
  (`CryptoMigration.MeaningIsKept`, `CryptoMigration.EmptySecretIsLost`); all rows keep their meaning exactly if there is no
  such text (`CryptoMigration.AllRowsKeepMeaning`).

## Model

| member | source | states |
|---|---|---|
| `TagSearch.FindPatternMeaning` | packages/shared/src/agent.ts:74-82 | the search finds the leftmost tag, or there is no tag anywhere |
| `TagSearch.FindPatternStable` | packages/shared/src/agent.ts:74-82 | a tag found in the buffer stays the one found, whatever text arrives behind it |
| `TagSearch.FindPatternDrop` | packages/shared/src/agent.ts:74-82 | dropping text in front of the first tag only shifts what is found |
| `ToolProtocolTags.TagShapes` | packages/shared/src/agent.ts:4-5 | both tag languages start with `<`, end with `>` and have no angle bracket inside |
| `ToolProtocolTags.NoBodyOfBothKinds` | packages/shared/src/agent.ts:4-5 | no text is an open tag and a close tag at once |
| `ToolProtocolGrammar.TagsAreSpelled` | packages/shared/src/agent.ts:4-5 | the two tag predicates accept exactly the texts that the regular expressions spell out, piece by piece with white space behind each piece |
| `ToolProtocolGrammar.SpellingsOfTheTag` | packages/shared/src/agent.ts:4-5 | tool_calls in any mixture of upper and lower case is an open tag, and a close tag behind a slash |
| `ToolProtocolGrammar.PaddedTagIsOpenTag` | packages/shared/src/agent.ts:4 | with any number of blanks behind its bracket the tag is an open tag, so there are open tags of every length from 12 on |
| `ToolProtocolStripper.DrainRests` | packages/shared/src/agent.ts:15-61 | after every drain the buffer is empty or at most 64 code units from its only `<` outside a block, or starts with a whole open tag and holds no close tag inside one; a final drain leaves the empty outside state |
| `ToolProtocolStripper.DrainKeepsTheFuture` | packages/shared/src/agent.ts:15-66 | what a drain emits and what one pass makes of the rest plus any later text are what one pass makes of all of it |
| `ToolProtocolStripper.FinalDrainIsStrip` | packages/shared/src/agent.ts:15-70 | a flush emits what one pass makes of the retained buffer |
| `ToolProtocolStripper.StreamFromState` | packages/shared/src/agent.ts:11-72 | from any resting state, writes and a flush emit what one pass makes of the buffer and all chunks |
| `ToolProtocolStripper.ChunkingDoesNotMatter` | packages/shared/src/agent.ts:11-94 | for every cut of a text into writes followed by a flush, text and block count are those of one leftmost pass over the whole, when its open tags fit |
| `ToolProtocolStripper.LongTagLeaks` | packages/shared/src/agent.ts:84-94 | when an open tag that starts a block exceeds 65 code units, some cut in two emits something else |
| `ToolProtocolStripper.ChunkingLaw` | packages/shared/src/agent.ts:11-94 | the law holds of every cut of a text if and only if its block-starting open tags fit |
| `ToolProtocolStripper.ToolCallChunkingLaw` | packages/shared/src/agent.ts:3-94 | the same for the tags of the protocol |
| `ToolProtocolStripper.PaddedTagChunkingLaw` | packages/shared/src/agent.ts:3-94 | a tag with n blanks in it is hidden however it is cut if and only if n is at most 53 |
| `ToolProtocolStripper.StripRemovesOneBlock` | packages/shared/src/agent.ts:21-58 | the reference pass takes out exactly the text from the first open tag to the end of the first close tag behind it, as one block |
| `ToolProtocolStripper.Stripper.DrainBuffer` | packages/shared/src/agent.ts:15-61 | the loop yields the specified drain and rests; it ends because the buffer shrinks |
| `ToolProtocolStripper.Stripper.Write` | packages/shared/src/agent.ts:64-67 | appending a chunk and draining, from resting state to resting state |
| `ToolProtocolStripper.Stripper.Flush` | packages/shared/src/agent.ts:68-70 | a flush empties the buffer and leaves any block |
| `ToolProtocolStripper.StripChunks` | packages/shared/src/agent.ts:11-72 | a whole stream through a new stripper gives the text and the count of one pass over the whole text, when its open tags fit |
| `CommandProtocol.MemoryIdempotencyStore.MarkKeyStarted` | apps/agent/src/runtime/command.ts:90-97 | marks a key and says whether it was free |
| `CommandProtocol.MemoryIdempotencyStore.ClearKey` | apps/agent/src/runtime/command.ts:103-105 | frees a key and no other |
| `CommandProtocol.HandleCommand` | apps/agent/src/runtime/command.ts:42-56 | the handler submits exactly when the key is free, and frees it again exactly when the submit threw |
| `CommandProtocol.NoCommandIsLost` | apps/agent/src/integrations/redis-streams.ts:350-402 | over all runs with failing commands, crashes and redelivery, a delivered message is pending or acknowledged, not both, and an acknowledged one had its handler return or has a dead-letter entry; CommandAttempts states when which |
| `CommandProtocol.LifetimeEndsExactly` | apps/agent/src/runtime/command.ts:49-55 | for every step, the key's lifetime ends if and only if the key expires, or an applied clear of a submit of an earlier lifetime meets the marked key |
| `CommandProtocol.LifetimeChangesExactly` | apps/agent/src/runtime/command.ts:49-55 | over all runs, two places are in different lifetimes of a key if and only if such a step lies between them |
| `CommandProtocol.UnexpiredIsFirst` | apps/agent/src/integrations/redis-streams.ts:81-100 | over all runs, a key of which no mark has run out is in its first lifetime |
| `CommandProtocol.AtMostOneSubmitUnexpired` | apps/agent/src/runtime/command.ts:42-56 | across instances, redeliveries and duplicates, at most one submit per key runs as long as no mark of the key has run out |
| `CommandProtocol.NoSubmitAfterReturnUnexpired` | apps/agent/src/integrations/redis-streams.ts:81-100 | once a submit has returned the key stays marked and nothing submits for it, as long as no mark of the key has run out |
| `CommandProtocol.StragglerFreesLiveMark` | apps/agent/src/runtime/command.ts:49-55 | a run in which a submit whose mark ran out clears the mark of its successor, and a third submit begins beside that |
| `CommandProtocol.StragglerRepeatsReturned` | apps/agent/src/runtime/command.ts:49-55 | the same with a submit that begins after the successor's has returned |
| `CommandProtocol.AtMostOneSubmit` | apps/agent/src/runtime/command.ts:42-56 | across instances, redeliveries and duplicates, at most one submit per key and lifetime runs, a lifetime ending as in LifetimeEndsExactly |
| `CommandProtocol.NoSubmitAfterReturn` | apps/agent/src/runtime/command.ts:42-56 | once a submit has returned, none of this lifetime runs any more and the mark stays, until the lifetime ends by an expiry or a straggler's clear |
| `CommandProtocol.FreeOnlyAfterThrow` | apps/agent/src/runtime/command.ts:49-55 | a key that was marked is free again within its lifetime only after its latest submit threw |
| `CommandProtocol.FreedOnlyByClear` | apps/agent/src/runtime/command.ts:52-55 | the only step that frees a key within its lifetime clears it for a submit that threw |
| `CommandProtocol.LifetimeStep` | apps/agent/src/runtime/command.ts:49-55 | exactly an expiry or a straggler's clear ends a lifetime; the key was marked and becomes free, and the next lifetime begins without a submit |
| `CommandProtocol.FateStep` | apps/agent/src/runtime/command.ts:42-56 | what each step within a lifetime does to the key's latest submit: exactly its return makes it returned; exactly a throw, the death of its instance or a mark set without an answer spoils it |
| `CommandProtocol.ReturnedExactly` | apps/agent/src/runtime/command.ts:42-56 | over all runs, the latest submit of a key has returned if and only if some step of this lifetime was its return |
| `CommandProtocol.SpoiledExactly` | apps/agent/src/runtime/command.ts:42-56 | over all runs, it is over without a return if and only if some step of this lifetime spoiled it and none has begun since |
| `CommandProtocol.TurnedAwayExactly` | apps/agent/src/runtime/command.ts:45-47 | a message has been handled without a submit if and only if some task of it found the key marked |
| `CommandProtocol.ReturnedForExactly` | apps/agent/src/runtime/command.ts:49-51 | a message has had a submit of its own that returned if and only if some step was that return |
| `CommandProtocol.SubmittingFoundFree` | apps/agent/src/runtime/command.ts:43-49 | a task that submits has found its key free at an earlier step |
| `CommandProtocol.AcknowledgedExactly` | apps/agent/src/integrations/redis-streams.ts:350-402 | an acknowledged message without a dead letter is a command; a submit of its own has returned if and only if a task of it found the key free and its handler returned; otherwise one was turned away by a marked key |
| `CommandProtocol.DuplicateIsDropped` | apps/agent/src/runtime/command.ts:45-55 | a run in which a duplicate is acknowledged and the submit of its twin throws, without crash or expiry |
| `CommandProtocol.CrashedSubmitIsNotRepeated` | apps/agent/src/runtime/command.ts:45-47 | a run in which a crashed submit is acknowledged on redelivery without a second submit |
| `CommandAttempts.DeadLetteredExactly` | apps/agent/src/integrations/redis-streams.ts:355-402 | over all runs a task calls the handler at most maxAttempts times, and only for a command; once the handling is over it has sent a dead letter if and only if there was no command or all maxAttempts calls threw, and otherwise its last call returned and the others threw |
| `CommandAttempts.CallsAreBounded` | apps/agent/src/integrations/redis-streams.ts:382 | the calls of a task that has left or crashed are bounded too |
| `CommandAttempts.TaskIsGone` | apps/agent/src/integrations/redis-streams.ts:350-402 | over all runs a task that was started is gone if and only if it has left after its handling, or its instance has crashed |
| `CommandAttempts.DeadLettersExactly` | apps/agent/src/integrations/redis-streams.ts:357-402 | over all runs a message has a dead letter if and only if a task of it wrote one |
| `CommandAttempts.DeadLetterHasReason` | apps/agent/src/integrations/redis-streams.ts:357-402 | and then its entry holds no command, or the calls of that task have used up maxAttempts and all thrown |
| `CommandAttempts.AckedExactly` | apps/agent/src/integrations/redis-streams.ts:363-402 | over all runs a message is acknowledged if and only if an acknowledgement by a task of it was applied |
| `CommandAttempts.SettledHasAcknowledged` | apps/agent/src/integrations/redis-streams.ts:357-402 | over all runs a task that is through has acknowledged its message, unless its own acknowledgement or dead letter failed |
| `CommandAttempts.HandlingEnds` | apps/agent/src/integrations/redis-streams.ts:382-402 | a task takes at most 5 * maxAttempts + 3 own steps, and has one that it can take until it is through |
| `CommandAttempts.MarkedExactly` | apps/agent/src/integrations/redis-streams.ts:82-101 | over all runs a key is marked if and only if its mark has been set, and neither run out nor been cleared since |
| `CommandAttempts.StreamIsPublished` | apps/agent/src/integrations/redis-streams.ts:547-556 | over all runs the stream holds what was published, in order |
| `ConsumeLoop.LoopIsBounded` | apps/agent/src/integrations/redis-streams.ts:165-276 | in every reachable state, unless a loop was begun while another was alive: only the last loop is alive, at most maxConcurrentRuns handlers are in flight, reads in progress included, and a blocking read waits only while nothing is in flight |
| `ConsumeLoop.EachLoopHasItsShare` | apps/agent/src/integrations/redis-streams.ts:126-132 | in every reachable state at most maxConcurrentRuns handlers are in flight per loop begun |
| `ConsumeLoop.TwoLoopsExceedTheBound` | apps/agent/src/integrations/redis-streams.ts:126-137 | a run in which two loops have two messages in flight where one is allowed |
| `ConsumeLoop.InFlightSetsAgree` | apps/agent/src/integrations/redis-streams.ts:113-114 | in every reachable state no message is handled twice at once, and the two in-flight sets have one size |
| `ConsumeLoop.CommandQueue.SubscribeHandler` | apps/agent/src/integrations/redis-streams.ts:126-132 | begins a loop unless one is meant to run |
| `ConsumeLoop.CommandQueue.UnsubscribeHandler` | apps/agent/src/integrations/redis-streams.ts:134-137 | takes the handler away; loops stop at their next check unless there is a handler again |
| `ConsumeLoop.CommandQueue.TrackInFlightMessage` | apps/agent/src/integrations/redis-streams.ts:256-270 | both sets gain the message's task |
| `ConsumeLoop.CommandQueue.SettleTask` | apps/agent/src/integrations/redis-streams.ts:264-267 | a settled task leaves both sets |
| `ConsumeLoop.CommandQueue.ReceiveBatch` | apps/agent/src/integrations/redis-streams.ts:218-235 | a batch starts one task per message that is not in flight, and reports whether there was one |
| `ConsumeLoop.CommandQueue.ResumeLoop` | apps/agent/src/integrations/redis-streams.ts:165-216 | a loop from one await to the next, with its read sizes and blocking flag; ConsumeLoopRuns states where that leads |
| `ConsumeLoopRuns.SleepsOnlyWithoutWork` | apps/agent/src/integrations/redis-streams.ts:173-191 | over all runs a loop sleeps only after a failed read, or when the latest thing it did was a read of new entries that brought nothing unhandled or was not issued |
| `ConsumeLoopRuns.GoesOnAfterRead` | apps/agent/src/integrations/redis-streams.ts:174-186 | over all runs a batch with a message that was not in flight leads back to the pending entries; a pending read that brought nothing leads to a read of new entries, blocking if and only if nothing is in flight; and a read of new entries that brought nothing leads to sleep |
| `ConsumeLoopRuns.ReadIsIssuedUnlessStopping` | apps/agent/src/integrations/redis-streams.ts:196-216 | over all runs a loop that is not to stop leaves its wait for a slot with a read, for as many messages as there are slots, but at most 10 |
| `ConsumeLoopRuns.ComesToReadNew` | apps/agent/src/integrations/redis-streams.ts:165-216 | from every state with a live loop, a handler and a free slot, moving the loop on with empty batches leads in at most 8 steps to a read of new entries that blocks if and only if nothing is in flight |
| `ConsumeLoopRuns.RunningMeansAlive` | apps/agent/src/integrations/redis-streams.ts:126-137 | in every reachable state a queue that runs and is not closed has a handler and a live loop |
| `ConsumeLoopRuns.FlagsTell` | apps/agent/src/integrations/redis-streams.ts:126-162 | over all runs the queue is closed if and only if it was closed once, and runs if and only if it was subscribed to and neither unsubscribed from nor closed since |
| `ConsumeLoopRuns.HandlerTells` | apps/agent/src/integrations/redis-streams.ts:126-137 | over all runs it has a handler if and only if that was not taken away since it was given |
| `ConsumeLoopRuns.ComesToItsEnd` | apps/agent/src/integrations/redis-streams.ts:168-171 | a loop that is to stop ends after at most 7 steps |
| `ConsumeLoopRuns.InFlightChangesExactly` | apps/agent/src/integrations/redis-streams.ts:225-270 | a message is in flight from the batch that brings it until its task settles |
| `AgentRunner.OneSubmitPerGeneration` | apps/agent/src/core/runner.ts:99-180 | a generation is run by at most one submit at a time |
| `AgentRunner.ActiveExactly` | apps/agent/src/core/runner.ts:103-109 | a generation is among the active runs exactly when a submit of it is under way or could not publish its start |
| `AgentRunner.LostStartIsKept` | apps/agent/src/core/runner.ts:109-113 | after a start that could not be published every later submit of the generation is refused |
| `AgentRunner.StartCanBeLost` | apps/agent/src/core/runner.ts:109-113 | a run that reaches such a start, for every generation |
| `AgentRunner.EventsInOrder` | apps/agent/src/core/runner.ts:110-176 | a submit publishes its start and then at most one end; a normal return has published both, a cancellation only after a cancel |
| `AgentRunner.Runner.StartSubmit` | apps/agent/src/core/runner.ts:99-113 | a submit is accepted exactly when its generation is not active |
| `AgentRunner.Runner.CancelGeneration` | apps/agent/src/core/runner.ts:182-191 | cancelling aborts the active submit, and says whether there is one |
| `AgentRunnerRuns.StoryTells` | apps/agent/src/core/runner.ts:109-180 | over all runs the phase of a submit, what it has published and whether it returned normally follow from which publications went through, how its work ended, and whether it was aborted when its work threw or its event could not be published |
| `AgentRunnerRuns.RefusedExactly` | apps/agent/src/core/runner.ts:103-105 | over all runs a submit is refused if and only if another one of its generation was active when it began |
| `AgentRunnerRuns.AbortedExactly` | apps/agent/src/core/runner.ts:182-191 | over all runs a submit is aborted if and only if its generation was cancelled while the submit was active |
| `RuntimeLock.AtMostOneLiveTask` | apps/agent/src/integrations/redis-lock.ts:23-55 | two granted tasks of one key are never both without an expired lease |
| `RuntimeLock.GraphRunAndDeleteCommandDoNotOverlap` | apps/agent/src/runtime/checkpoint-retention.ts:199-211 | a graph run and a delete command of one thread overlap only if the lease of one has run out |
| `RuntimeLock.OverlapNeedsExpiry` | apps/agent/src/integrations/redis-lock.ts:26-30 | beside a granted task the key is granted again exactly if the task's lease has run out and nobody holds the key |
| `RuntimeLock.ExpiryAllowsOverlap` | apps/agent/src/integrations/redis-lock.ts:5 | a run in which an expired lease lets a graph run and a delete command overlap |
| `RuntimeLock.ReleaseDeletesOwnLease` | apps/agent/src/integrations/redis-lock.ts:6-11 | a release deletes the releaser's own lease or nothing, and leaves every other lease |
| `RuntimeLock.MemoryTryLock.TryEnter` | apps/agent/src/runtime/lock.ts:11-16 | a call is turned away exactly if the key is active |
| `RuntimeLock.MemoryTryLock.Exit` | apps/agent/src/runtime/lock.ts:20-22 | the key is free afterwards, every other as before |
| `RuntimeLock.LeasesRefineMemoryLock` | apps/agent/src/runtime/lock.ts:7-25 | without expiry every step of the Redis lock is a step of the in-memory lock on the same holders |
| `RuntimeLock.LeaseStandsForTask` | apps/agent/src/integrations/redis-lock.ts:23-55 | over all runs a lease stands for a granted call that runs or is being released, or was left behind by a lost answer, a crash or a failed release |
| `RuntimeLock.GrantedExactlyWhenFree` | apps/agent/src/integrations/redis-lock.ts:26-35 | a call is granted if and only if nobody holds the key, with a lease of its own |
| `CheckpointRetention.LatestIsLatest` | apps/agent/src/runtime/checkpoint-retention.ts:304-307 | the latest access of a thread is one of its accesses, and none is later |
| `CheckpointRetention.ListLatestCheckpointThreadAccess` | apps/agent/src/runtime/checkpoint-retention.ts:287-314 | the list holds each chat thread with a readable access once, with its latest one |
| `CheckpointRetention.SweepExpiredCheckpointThreads` | apps/agent/src/runtime/checkpoint-retention.ts:79-121 | retained, deleted and failed threads sum up to the scanned ones, deletion is tried for exactly the expired ones, and failed are those whose deletion throws |
| `CheckpointRetention.SweptExactly` | apps/agent/src/runtime/checkpoint-retention.ts:93-109 | a thread is tried if and only if it has an access and all its accesses are before the cutoff |
| `CheckpointSweep.SweepDeletesExactly` | apps/agent/src/runtime/checkpoint-retention.ts:93-103 | at every point of a sweep beside graph runs, a thread is still to be deleted if and only if it was not tried yet and the listed checkpoints tell of an access, and of none at or after the cutoff |
| `CheckpointSweep.DeletionIgnoresTheLock` | apps/agent/src/main.ts:64-79 | a deletion is possible whatever the leases and graph runs are, leaves them as they are, and hits every running graph of the thread |
| `CheckpointSweep.SweepHitsRunningGraph` | apps/agent/src/runtime/checkpoint-retention.ts:85-100 | a run in which a sweep deletes the thread of a running graph though no lease has run out |
| `CheckpointSweep.DeletionRemovesExactly` | apps/agent/src/runtime/checkpoint-retention.ts:98-113 | a deletion takes away all checkpoints of its thread and no other, a failed one none, and neither is tried again |
| `CheckpointRetention.HandleDeleteCommand` | apps/agent/src/runtime/checkpoint-retention.ts:188-223 | when the thread is deleted, when completion is published, and when one or two results are |
| `ProtocolLine.Reader.FillBuf` | apps/buddy/runtime/src/server.rs:278 | delivers a non-empty piece of what is left, or nothing at the end of the input |
| `ProtocolLine.ReadProtocolLine` | apps/buddy/runtime/src/server.rs:273-314 | whatever the chunks, the line and the input left behind it are those of the newline split of the bytes; the collected data never exceed the cap |
| `ProtocolLine.ReadAllLines` | apps/buddy/runtime/src/server.rs:112-121 | the sequence of results depends on the byte stream only |
| `ProtocolLine.NextLineUnaffected` | apps/buddy/runtime/src/server.rs:291-311 | a line of any size yields one result and leaves the lines behind it as they are |
| `ProtocolLine.LinesOfJoin` | apps/buddy/runtime/src/server.rs:273-314 | one result per newline-ended payload, too large exactly beyond the cap, a carriage return dropped only before a newline |
| `ProtocolLine.EveryStreamIsAJoin` | apps/buddy/runtime/src/server.rs:289-290 | every byte stream is such a list of payloads, so the former covers all inputs |
| `RuntimeServer.AtMostOneReply` | apps/buddy/runtime/src/server.rs:112-163 | in every reachable state a parsed request has at most one reply, and a dropped one has none |
| `RuntimeServer.ServeSettlesEveryRequest` | apps/buddy/runtime/src/server.rs:161-163 | when serve returns, no worker is alive and every parsed request was answered once or dropped after having entered the queue; accepted is replied plus dropped, and RuntimeServerRuns states which requests are accepted |
| `RuntimeServer.NothingIsDroppedBeforeShutdown` | apps/buddy/runtime/src/server.rs:237-239 | until the flag is set an accepted request is queued, with a worker or answered |
| `RuntimeServer.QueueIsBounded` | apps/buddy/runtime/src/server.rs:137-156 | at most 64 requests queued, 4 workers, no control request with them |
| `RuntimeServer.ConservedStep` | apps/buddy/runtime/src/server.rs:112-246 | every step keeps each parsed request in exactly one place |
| `RuntimeServer.ShutdownMakesProgress` | apps/buddy/runtime/src/server.rs:59-65 | once the flag is set at most 16 worker steps are left |
| `RuntimeServer.JoinIsNeverStuck` | apps/buddy/runtime/src/server.rs:62-64 | while serve waits for its workers some worker can take a step, or all have exited |
| `RuntimeServerRuns.TurnedAwayExactly` | apps/buddy/runtime/src/server.rs:137-156 | over all runs a control request never enters the queue and is answered by the main thread; any other request is answered by the main thread if and only if 64 requests were queued when it was read, and is queued otherwise |
| `RuntimeServerRuns.TakenInOrder` | apps/buddy/runtime/src/server.rs:225-236 | over all runs what the workers have taken, followed by what is queued, is what was accepted, in this order, until serve returns |
| `RuntimeServerRuns.AcceptedOrderIsAll` | apps/buddy/runtime/src/server.rs:147 | the order of acceptance contains each accepted request once |
| `RuntimeServerRuns.AcceptedAsRead` | apps/buddy/runtime/src/server.rs:112-147 | requests are accepted in the order in which they were read |
| `RuntimeServerRuns.LoopIsLeftExactly` | apps/buddy/runtime/src/server.rs:113-145 | over all runs the main loop has been left if and only if the input has ended or a control request for the shutdown has been answered |
| `RuntimeServerRuns.AnswersShutdownExactly` | apps/buddy/runtime/src/server.rs:137-144 | a reply answers a shutdown if and only if the main thread is at a request read as one |
| `RuntimeServerRuns.NothingIsReadBehind` | apps/buddy/runtime/src/server.rs:159-163 | behind the loop nothing is read |
| `RuntimeServerRuns.WorkersMakeProgress` | apps/buddy/runtime/src/server.rs:224-246 | before the shutdown every worker step takes work away, of which a read adds at most 5 |
| `RuntimeServerRuns.RestMeansAnswered` | apps/buddy/runtime/src/server.rs:224-246 | before the shutdown the workers rest only when the queue is empty and every accepted request is answered |
| `CoalescingWriter.OneWriteAtATime` | apps/buddy/src/desktop/desktopChatState.ts:83-112 | at most one write is outstanding, and the written values are those at growing places of the submitted ones |
| `CoalescingWriter.IdleMeansSettled` | apps/buddy/src/desktop/desktopChatState.ts:83-112 | whenever the writer is idle every caller has settled and the last submitted value is the last written one |
| `CoalescingWriter.SettlesWithItsWrite` | apps/buddy/src/desktop/desktopChatState.ts:90-97 | a caller settles once, with the outcome of the first write that began at or after its submission and wrote a value no older than its own |
| `CoalescingWriter.SettlementsOnlyGrow` | apps/buddy/src/desktop/desktopChatState.ts:91-96 | no settlement is taken back, and every finished write settles someone |
| `CoalescingWriter.HistoryIsTrue` | apps/buddy/src/desktop/desktopChatState.ts:83-112 | over all runs the submitted values and the outcomes are those of the events, in order |
| `CoalescingWriter.WritesLatest` | apps/buddy/src/desktop/desktopChatState.ts:83-112 | a write begins if and only if a value is submitted to an idle writer or a write ends behind which a value was submitted, and it writes the latest value |
| `CoalescingWriter.Writer.SubmitValue` | apps/buddy/src/desktop/desktopChatState.ts:102-111 | a submission and the write that it may begin, keeping the invariant |
| `CoalescingWriter.Writer.BeginNextWrite` | apps/buddy/src/desktop/desktopChatState.ts:84-88 | the next write takes the pending value and its waiters, or the writer becomes idle |
| `CoalescingWriter.Writer.SettleWaiters` | apps/buddy/src/desktop/desktopChatState.ts:91-96 | the waiters of a write are resolved or rejected one by one, in order |
| `CoalescingWriter.Writer.WriteSettles` | apps/buddy/src/desktop/desktopChatState.ts:89-99 | a finished write settles its waiters, and the loop goes on |
| `RunEventWindow.MergeLocalRunEvents` | apps/buddy/src/desktop/desktopChatState.ts:254-268 | the two loops, the sort and the cut compute the specified merge |
| `RunEventWindow.CutThenAdd` | apps/buddy/src/desktop/desktopChatState.ts:265-267 | cutting to the newest before adding more changes nothing |
| `RunEventWindow.MergeBatches` | apps/buddy/src/desktop/desktopChatState.ts:254-268 | merging two batches one after the other equals merging their concatenation |
| `RunEventWindow.MergeAllBatches` | apps/buddy/src/desktop/desktopChatState.ts:254-268 | the same for any number of batches |
| `RunEventWindow.LastVersionCounts` | apps/buddy/src/desktop/desktopChatState.ts:259-263 | of several events with one id the last counts |
| `RunEventWindow.CollectedWasThere` | apps/buddy/src/desktop/desktopChatState.ts:259-263 | nothing is collected that was not in a batch |
| `RunEventWindow.MergeMeaning` | apps/buddy/src/desktop/desktopChatState.ts:265-267 | the window is sorted by id, as long as the limit allows, and whatever is missing is older than everything kept |
| `RunSync.PageContinues` | apps/buddy/runtime/src/storage/run_events/queries/single_run.rs:51-90 | a page is the piece of the run's log right behind the cursor |
| `RunSync.NothingSkippedOrRepeated` | apps/buddy/src/desktop/useDesktopRunSync.ts:86-142 | in every reachable state what has been received of a run since the refresh is a gapless piece of the server's log from the refresh's cursor to the present one |
| `RunSync.FlushContinues` | apps/buddy/src/desktop/useDesktopRunSync.ts:95-142 | a flush keeps what has been received of a run gapless; and if the run's request was answered for the conversation, all that the server had when it answered has been received, or the run is pending again |
| `RunSync.WindowIsOneMerge` | apps/buddy/src/desktop/useDesktopRunSync.ts:135-138 | the window is what one merge of everything received would give |
| `RunSync.PendingRunsAreSeenTo` | apps/buddy/src/desktop/useDesktopRunSync.ts:76-84 | a pending run of the active conversation has the timer or a flush that ends by setting it, and the timer's flush asks for all pending runs |
| `RunSync.PendingAfterFlush` | apps/buddy/src/desktop/useDesktopRunSync.ts:111-142 | which runs a flush leaves pending, and how failures are counted up to the fifth |
| `RunSyncAtRest.AtRestCaughtUp` | apps/buddy/src/desktop/useDesktopRunSync.ts:71-166 | in every run, once the client is idle and a run is not pending, all that the server had logged when the run was announced has been received gaplessly, unless since then it failed five times, was answered with an update of another conversation or in a flush thrown away, or the conversation was fetched anew or left |
| `RunSyncAtRest.GivenUpIsLeft` | apps/buddy/src/desktop/useDesktopRunSync.ts:107-131 | a run that was given up is not asked for and keeps its cursor until it is announced again or the conversation is fetched anew |
| `RunSyncAtRest.GivenUpRunIsBehind` | apps/buddy/src/desktop/useDesktopRunSync.ts:120-129 | a reachable idle client that lacks an announced event after five failures |
| `RunSyncConversation.ConversationExactly` | apps/buddy/src/desktop/useDesktopRunSync.ts:184-197 | over all runs a conversation is active if and only if it was fetched and not left since; without one the window is empty, no cursor is known and no request is on its way |
| `RunSyncConversation.FetchedConversationStarts` | apps/buddy/src/desktop/useDesktopRunSync.ts:54-68 | a fetched conversation shows its last 1000 events, and each cursor stands at the greatest fetched event of its run |
| `RunSyncConversation.LeftConversationIsForgotten` | apps/buddy/src/desktop/useDesktopRunSync.ts:184-197 | over all runs, once a conversation is left and until one is fetched, a run is pending if and only if it was announced since, and no failure is remembered |
| `RunSync.Synchronizer.HandleRunStateEvent` | apps/buddy/src/desktop/useDesktopRunSync.ts:71-74 | the run becomes pending and the timer is set unless a flush runs |
| `RunSync.Synchronizer.UpdateRunEventCursors` | apps/buddy/src/desktop/useDesktopRunSync.ts:204-207 | each cursor moves to the greatest id of its run |
| `RunSync.Synchronizer.StartFlush` | apps/buddy/src/desktop/useDesktopRunSync.ts:86-103 | one request per pending run, from its cursor |
| `RunSync.Synchronizer.NoteUpdate` | apps/buddy/src/desktop/useDesktopRunSync.ts:113-130 | the retry bookkeeping for one settled request |
| `RunSync.Synchronizer.NoteSettledUpdates` | apps/buddy/src/desktop/useDesktopRunSync.ts:110-132 | the retry bookkeeping and the events of the matching updates |
| `RunSync.Synchronizer.AddFullPages` | apps/buddy/src/desktop/useDesktopRunSync.ts:139-142 | the runs with a full page are pending again |
| `RunSync.Synchronizer.ApplyUpdates` | apps/buddy/src/desktop/useDesktopRunSync.ts:110-142 | the whole effect of the settled requests |
| `RunSync.Synchronizer.FinishFlush` | apps/buddy/src/desktop/useDesktopRunSync.ts:155-165 | the flush is over, and the timer is set while runs are pending |
| `RunSync.Synchronizer.RefreshActiveConversation` | apps/buddy/src/desktop/useDesktopRunSync.ts:54-68 | window and cursors are those of the fetched events |
| `RunSync.Synchronizer.ClearConversationState` | apps/buddy/src/desktop/useDesktopRunSync.ts:184-197 | nothing is left of the conversation |
| `DesktopDraft.TakeAttachments` | apps/buddy/src/desktop/useDesktopDraft.ts:25-39 | the loop over the offered attachments computes those accepted and those refused |
| `DesktopDraft.KeptOrRefused` | apps/buddy/src/desktop/useDesktopDraft.ts:29-39 | each offered attachment is kept once or given back once, both in order, behind what was there |
| `DesktopDraft.RefusedDoesNotFit` | apps/buddy/src/desktop/useDesktopDraft.ts:30-36 | an attachment that was given back does not fit behind all that was kept in the end |
| `DesktopDraft.DraftsStayWithinLimits` | apps/buddy/src/desktop/useDesktopDraft.ts:9-10 | in every run the screen and every stored draft stay within 16 attachments and 32 MiB |
| `DesktopDraft.OneRequestOneDraft` | apps/buddy/src/desktop/desktopChatState.ts:178-186 | in every run one request id never stands for two different drafts |
| `DesktopDraft.RetryReusesRequest` | apps/buddy/src/desktop/desktopChatState.ts:178-186 | sending an unedited draft again with the same fingerprint sends the same draft with the same request id, whatever was done elsewhere meanwhile |
| `DesktopDraft.EditMakesNewRequest` | apps/buddy/src/desktop/useDesktopDraft.ts:70-80 | in every run the next send of an edited draft, whatever was done to others meanwhile, is a new request with what the edit left on the screen |
| `DesktopDraft.FirstSendSettles` | apps/buddy/src/desktop/desktopChatState.ts:214-224 | accepting a first send takes its draft from the source key, moves it to the new conversation in place of what is stored there if it has changed, and touches no other draft |
| `DesktopDraft.OlderDraftSurvives` | apps/buddy/src/desktop/desktopChatState.ts:214-224 | a draft that the new conversation has already is kept if and only if the sent draft was not edited, or edited to the same |
| `DesktopDraft.OlderDraftIsLost` | apps/buddy/src/desktop/desktopChatState.ts:214-224 | a run that loses what was typed in the new conversation before the reply |
| `DesktopDraft.MovedDraftStaysExactly` | apps/buddy/src/desktop/useDesktopChat.ts:241-253 | in every run, while nobody edits, sends or deletes it, the moved draft stays stored if and only if not the user had opened the new conversation before the reply, saw something else there and has left it since |
| `DesktopDraft.MovedDraftIsLost` | apps/buddy/src/desktop/useDesktopChat.ts:241-253 | a run that loses the moved draft when the conversation is left |
| `DesktopDraft.TypedTextSurvives` | apps/buddy/src/desktop/desktopChatState.ts:214-224 | in every run what was typed last during a first send is the new conversation's draft after the accept, and on a screen that never left it |
| `DesktopDraft.ConversationDraftSurvives` | apps/buddy/src/desktop/useDesktopChat.ts:615-624 | a conversation's draft survives the accept of a send of it if and only if its text or its attachments have changed |
| `DesktopDraft.ComposerEditIsLost` | apps/buddy/src/desktop/useDesktopChat.ts:615-624 | a run that throws away a token put in during a send of the same text |
| `DesktopDraft.SyncAfterAccept` | apps/buddy/src/desktop/useDesktopChat.ts:414-441 | the exact condition under which the screen shows the stored draft after an accepted send: not for a user who came back to a cleared draft, nor for one who has opened the new conversation already |
| `DesktopDraft.OtherStepsKeepSync` | apps/buddy/src/desktop/useDesktopChat.ts:241-256 | every other operation keeps screen and store alike |
| `DesktopDraft.ScreenCanBeStale` | apps/buddy/src/desktop/useDesktopChat.ts:429-434 | a run that ends with the sent text on the screen and nothing in the store |
| `DesktopDraftRuns.LastEditIsSent` | apps/buddy/src/desktop/useDesktopDraft.ts:25-68 | over all runs the next send of an edited draft sends what was typed, put in, attached or left of the attachments, under a new request id |
| `DesktopDraftRuns.SendingExactly` | apps/buddy/src/desktop/useDesktopChat.ts:369-441 | over all runs a send is on its way if and only if it was begun and has neither been accepted nor failed since, and it sends what was on the screen |
| `DesktopDraftRuns.NavigateShows` | apps/buddy/src/desktop/useDesktopChat.ts:241-253 | opening a target shows what is stored for it, or nothing |
| `DesktopDraftRuns.ComesBackAsLeft` | apps/buddy/src/desktop/useDesktopChat.ts:241-253 | over all runs who leaves a target and comes back finds the screen as it was left, whatever was done to other drafts |
| `DesktopDraftRuns.DeleteLeaves` | apps/buddy/src/desktop/useDesktopChat.ts:285-297 | deleting a conversation takes away its draft and no other, and leads to the global draft if it was shown |
| `DesktopDraftRuns.DeletedDraftIsGone` | apps/buddy/src/desktop/useDesktopChat.ts:285-297 | over all runs the draft of a deleted conversation does not come back while the user is elsewhere and no first send creates the conversation |
| `DesktopDraftRuns.AcceptedSendLeads` | apps/buddy/src/desktop/useDesktopChat.ts:414-441 | over all runs an accepted send leads to its conversation, with what is stored for it, if and only if the user has not left the screen since the send began; otherwise the screen stays |
| `DesktopDraftRuns.MatchesExactly` | apps/buddy/src/desktop/desktopChatState.ts:304-311 | a draft counts as unchanged if text, attachments and, for a first send, composer content are the same |
| `DesktopDraftRuns.TypedDuringSendIsKept` | apps/buddy/src/desktop/desktopChatState.ts:214-224 | over all runs another text typed during a first send is the new conversation's draft after the accept |
| `DesktopDraft.Composer.AppendAttachments` | apps/buddy/src/desktop/useDesktopDraft.ts:25-46 | attaching saves the draft without request id and releases the refused attachments |
| `DesktopDraft.Composer.RemoveAttachment` | apps/buddy/src/desktop/useDesktopDraft.ts:48-56 | removing releases the attachment, and is nothing beyond the list |
| `DesktopDraft.Composer.UpdateDraft` | apps/buddy/src/desktop/useDesktopDraft.ts:58-62 | typing replaces the text and drops the composer content and the request id |
| `DesktopDraft.Composer.UpdateComposerContent` | apps/buddy/src/desktop/useDesktopDraft.ts:64-68 | the same with composer content |
| `DesktopDraft.Composer.Save` | apps/buddy/src/desktop/useDesktopDraft.ts:70-80 | what is on the screen is stored under the target key |
| `DesktopDraft.Composer.Restore` | apps/buddy/src/desktop/useDesktopDraft.ts:82-87 | what is stored under the target key is on the screen |
| `DesktopDraft.Composer.OpenTarget` | apps/buddy/src/desktop/useDesktopChat.ts:241-253 | navigation saves, switches and restores |
| `DesktopDraft.Composer.DeleteConversation` | apps/buddy/src/desktop/useDesktopChat.ts:285-297 | deleting discards and releases the conversation's draft, and leaves it when it is shown |
| `DesktopDraft.Composer.StartSend` | apps/buddy/src/desktop/useDesktopChat.ts:369-388 | a send prepares the stored draft with its request id |
| `DesktopDraft.Composer.CommitSend` | apps/buddy/src/desktop/useDesktopChat.ts:414-441 | an accepted send settles the draft and switches to the conversation |
| `RunGroups.GroupEvents` | apps/buddy/src/chat/chatTranscriptView.ts:248-253 | events are filed under their run in order, runs in the order of their first events |
| `RunGroups.SortBySorts` | apps/buddy/src/chat/chatTranscriptView.ts:257 | sorting by id permutes and sorts |
| `RunGroups.OneGroupPerRun` | apps/buddy/src/chat/chatTranscriptView.ts:238-305 | there is exactly one group per run with events, made from all its events |
| `RunGroups.EarliestEventNamesUser` | apps/buddy/src/chat/chatTranscriptView.ts:960-972 | a run names the user message of the earliest of its events that name one |
| `RunGroups.EarliestEventNamesAssistant` | apps/buddy/src/chat/chatTranscriptView.ts:974-986 | a run names the assistant message of the earliest of its events that name one, which is persisted if and only if it is listed |
| `RunGroups.RowsAreReadInOrder` | apps/buddy/src/chat/chatTranscriptView.ts:255-284 | the rows and references of a run are read from all its events, in the order of their ids |
| `ActivityMerge.MergeAdjacentActivityRows` | apps/buddy/src/chat/chatTranscriptView.ts:465-490 | the nested loops compute the specified merge |
| `ActivityMerge.GroupsAreMaximal` | apps/buddy/src/chat/chatTranscriptView.ts:479-486 | the merged groups cut the rows into runs of mergeable rows that cannot be longer |
| `ActivityMerge.MergeIsByGroups` | apps/buddy/src/chat/chatTranscriptView.ts:465-490 | merging is merging these runs one by one |
| `ActivityMerge.MergeConservesItems` | apps/buddy/src/chat/chatTranscriptView.ts:505 | the total item count is conserved |
| `ActivityMerge.MergeKeepsMessages` | apps/buddy/src/chat/chatTranscriptView.ts:473-477 | all streamed messages are kept, in order |
| `ActivityMerge.MergeKeepsOrder` | apps/buddy/src/chat/chatTranscriptView.ts:507-508 | rows in order stay in order |
| `ActivityMerge.NoMergeableNeighbours` | apps/buddy/src/chat/chatTranscriptView.ts:523-531 | no two neighbours of the result could be merged |
| `ActivityMerge.MergeIsIdempotent` | apps/buddy/src/chat/chatTranscriptView.ts:465-490 | merging again changes nothing |
| `ActivityMerge.MergedRowMeaning` | apps/buddy/src/chat/chatTranscriptView.ts:492-543 | a merged row stands for all its activities; it runs while one runs, and is completed when all are |
| `Transcript.EachRunIsShownOnce` | apps/buddy/src/chat/chatTranscriptView.ts:123-180 | a run with events has exactly one row, unless its completed message is listed but none of the assistant's; no other run has one |
| `Transcript.RunWithoutRow` | apps/buddy/src/chat/chatTranscriptView.ts:123-180 | a transcript with a run that has an event and no row |
| `Transcript.ProcessRowsStandBehindTheirRun` | apps/buddy/src/chat/chatTranscriptView.ts:768-813 | right behind the row of a run stand all its process rows in order |
| `Transcript.NoStrayProcessRows` | apps/buddy/src/chat/chatTranscriptView.ts:768-813 | and they stand nowhere else |
| `Transcript.MessagesAreShownInOrder` | apps/buddy/src/chat/chatTranscriptView.ts:143-171 | the messages are shown once each in input order, but for the dropped ones |
| `Transcript.DroppedMessageIsStreamed` | apps/buddy/src/chat/chatTranscriptView.ts:757-766 | an assistant message is dropped only when its run is shown and has streamed message rows |
| `Transcript.RowAssembler.AppendAssistantRunPrelude` | apps/buddy/src/chat/chatTranscriptView.ts:768-780 | the runs that end with a message, in front of it |
| `Transcript.RowAssembler.AppendRunTailRows` | apps/buddy/src/chat/chatTranscriptView.ts:782-796 | their references behind it; the runs are used then |
| `Transcript.RowAssembler.AppendPendingRunGroups` | apps/buddy/src/chat/chatTranscriptView.ts:798-813 | runs without a persisted message, each unless used |
| `Transcript.RowAssembler.AppendMessage` | apps/buddy/src/chat/chatTranscriptView.ts:144-170 | one message with the runs around it, in the order that TranscriptOrder states of the rows |
| `Transcript.CreateChatTranscriptRows` | apps/buddy/src/chat/chatTranscriptView.ts:140-179 | the rows of all passes, which TranscriptOrder places |
| `TranscriptOrder.TranscriptIsLaid` | apps/buddy/src/chat/chatTranscriptView.ts:143-178 | the passes with their shared set of used runs compute the layout that each message and each run determines for itself |
| `TranscriptOrder.RowsAreThereExactly` | apps/buddy/src/chat/chatTranscriptView.ts:768-813 | a run has a row if and only if it has a place: the first message that brings it, or the end; and exactly one row of references if it has references, too |
| `TranscriptOrder.RunRowStandsAt` | apps/buddy/src/chat/chatTranscriptView.ts:143-178 | in front of the row of a run stand exactly the messages before its assistant message, or those up to the first user message that it names, or all |
| `TranscriptOrder.ReferencesRowStandsAt` | apps/buddy/src/chat/chatTranscriptView.ts:782-811 | in front of its references stand exactly the messages up to the one that brings it, itself included, or all |
| `TranscriptOrder.RunsStandInOrder` | apps/buddy/src/chat/chatTranscriptView.ts:768-813 | runs stand in the order of their messages, and at one message in the order of the groups |
| `TranscriptOrder.ReferencesStandInOrder` | apps/buddy/src/chat/chatTranscriptView.ts:782-813 | and so do their references |
| `TranscriptOrder.ReferencesStandBehindRuns` | apps/buddy/src/chat/chatTranscriptView.ts:768-813 | references stand behind the process rows of their run, for a run without a listed assistant message right behind them, and where they stand among the other runs of the message |
| `TranscriptOrder.GroupsFollowFirstEvents` | apps/buddy/src/chat/chatTranscriptView.ts:257-261 | the groups are in the order of the runs' first events |
| `Utf8.EncodeIsInjective` | apps/buddy/src/desktop/desktopComposerInput.ts:307-309 | different texts have different UTF-8 bytes, so a slice that equals a placeholder's bytes is that placeholder |
| `ComposerInput.TrimIsSlice` | apps/buddy/src/desktop/desktopComposerInput.ts:243-250 | the trimmed text is what lies between the two counted lengths, from the first to the last character that is no space |
| `ComposerInput.KeptExactly` | apps/buddy/src/desktop/desktopComposerInput.ts:243-264 | a token's element survives with an exact byte range if and only if the text has a non-space at or before its first and at or behind its last character |
| `ComposerInput.PaddedTokenIsCut` | apps/buddy/src/desktop/desktopComposerInput.ts:243-264 | a last token whose placeholder ends with a space does not survive with an exact range |
| `ComposerInput.PaddedMention` | apps/buddy/src/desktop/desktopComposerInput.ts:228-264 | such a token: a mention whose label ends with a space |
| `ComposerInput.RangesAreDisjoint` | apps/buddy/src/desktop/desktopComposerInput.ts:228-264 | byte ranges are increasing and disjoint for every document |
| `ComposerInput.NoTokenIsLost` | apps/buddy/src/desktop/desktopComposerInput.ts:91-124 | without empty or space-padded placeholders every token is sent, in order, with the range of exactly its bytes |
| `ComposerInput.TextThereAndBack` | apps/buddy/src/desktop/desktopComposerInput.ts:81-89 | the document made from plain text says that text |
| `ComposerInput.PlainTextIsSentTrimmed` | apps/buddy/src/desktop/desktopComposerInput.ts:81-124 | serialising the document made from plain text gives the trimmed text and nothing else |
| `TextSplit.JoinOfSplit` | apps/buddy/src/desktop/desktopComposerInput.ts:84 | joining the parts of a split text gives the text back |
| `TextSplit.PartsHaveNoSeparator` | apps/buddy/src/desktop/desktopComposerInput.ts:84 | no part of a split text holds the separator |
| `TextSplit.SplitOfJoin` | apps/buddy/src/desktop/desktopComposerInput.ts:84 | cutting what was joined gives the parts back if none holds the separator |
| `ComposerInput.SerializeState.SerializeNode` | apps/buddy/src/desktop/desktopComposerInput.ts:205-226 | the state after a node is that of the pieces before and of the node's pieces |
| `ComposerInput.SerializeState.AppendPromptToken` | apps/buddy/src/desktop/desktopComposerInput.ts:228-241 | a token adds its text, byte range and context item |
| `ComposerInput.TrimSerializedText` | apps/buddy/src/desktop/desktopComposerInput.ts:243-264 | the trimmed text, and the shifted elements whose start lies in it |
| `ComposerInput.SerializeDesktopComposerContent` | apps/buddy/src/desktop/desktopComposerInput.ts:91-124 | the payload of the document's pieces |
| `ComposerPayload.PiecesSay` | apps/buddy/src/desktop/desktopComposerInput.ts:205-226 | the pieces of a node say the text read off its tree, with line breaks between the children of a document only, and name its tokens in order |
| `ComposerPayload.SentElementsExactly` | apps/buddy/src/desktop/desktopComposerInput.ts:243-264 | the ranges sent are those of the tokens that begin behind the leading and before the trailing spaces, counted from the first character sent |
| `ComposerPayload.NamedInputsExactly` | apps/buddy/src/desktop/desktopComposerInput.ts:109-117 | each skill and each file with a path is named once, in the order of the tokens, and nothing else is |
| `ComposerPayload.PayloadSays` | apps/buddy/src/desktop/desktopComposerInput.ts:91-124 | a document is sent as its trimmed text, its tokens as context, the text with its ranges unless it is blank, and the named inputs |
| `ComposerPayload.TokenReads` | apps/buddy/src/desktop/desktopComposerInput.ts:186-193 | how a token reads: a dollar or at sign before its label, or its value when there is none; a command reads as its value |
| `VirtualList.FindOffsetIndex` | apps/buddy/src/chat/useDynamicBuddyVirtualList.ts:437-454 | the binary search returns the least index whose next offset exceeds the target |
| `VirtualList.ResolveDynamicBuddyVirtualRange` | apps/buddy/src/chat/useDynamicBuddyVirtualList.ts:393-421 | 0 <= start < end <= itemCount, and the range holds exactly the items that meet the viewport with their neighbours up to the overscan |
| `VirtualList.ComputeOffsets` | apps/buddy/src/chat/useDynamicBuddyVirtualList.ts:64-76 | offsets are the prefix sums of the sizes, and never decrease |
| `VirtualList.ResizeMoves` | apps/buddy/src/chat/useDynamicBuddyVirtualList.ts:299-300 | another size moves what follows the item, and nothing else |
| `VirtualList.AnchoringKeepsPositions` | apps/buddy/src/chat/useDynamicBuddyVirtualList.ts:292-319 | resizing an item whose end is above the viewport, away from the bottom, leaves later items where they are exactly when the container can scroll by the difference |
| `VirtualList.LargeGrowthMoves` | apps/buddy/src/chat/useDynamicBuddyVirtualList.ts:292-319 | an item that grows by 100 where 50 can be scrolled moves what follows by the rest |
| `VirtualList.SmallGrowthIsAnchored` | apps/buddy/src/chat/useDynamicBuddyVirtualList.ts:295-305 | growth up to the bottom threshold always leaves them |
| `VirtualList.UnanchoredKeepsEarlier` | apps/buddy/src/chat/useDynamicBuddyVirtualList.ts:292-309 | resizing an item that reaches into the viewport or lies below it, or any item near the bottom, scrolls nothing: the items up to it stay, those behind move by the difference |
| `VirtualList.AnchorsExactly` | apps/buddy/src/chat/useDynamicBuddyVirtualList.ts:292-305 | a measurement is anchored if and only if it is news, the item ends above the viewport and the list is not near its bottom |
| `VirtualList.MeasuredSizeIsRecorded` | apps/buddy/src/chat/useDynamicBuddyVirtualList.ts:283-300 | a positive height is recorded for its item and no other |
| `VirtualList.BottomIsAskedForExactly` | apps/buddy/src/chat/useDynamicBuddyVirtualList.ts:289-309 | a scroll to the bottom is asked for if and only if the height is news, the item was not anchored, and the list was near its bottom or sticks to it |
| `VirtualList.UnlistedItemScrolls` | apps/buddy/src/chat/useDynamicBuddyVirtualList.ts:292-305 | a late measurement of an item that is no longer listed moves no offset, but scrolls exactly if its old height fits above the viewport, away from the bottom |
| `VirtualList.DynamicList.MeasureItem` | apps/buddy/src/chat/useDynamicBuddyVirtualList.ts:283-309 | the whole effect of a measurement |
| `VirtualList.DynamicList.AdjustScrollTop` | apps/buddy/src/chat/useDynamicBuddyVirtualList.ts:311-319 | the container scrolls by the difference as far as it can, and the recorded position follows |
| `CryptoMigration.MeaningIsKept` | apps/api/src/cli/migrate-crypto-namespace.ts:184-205 | a migrated value decrypts under the target key to its earlier meaning if and only if it is not the empty text sealed under another key |
| `CryptoMigration.EmptySecretIsLost` | apps/api/src/cli/migrate-crypto-namespace.ts:250-253 | an empty source secret comes out as the text of its own ciphertext |
| `CryptoMigration.CountersSumUp` | apps/api/src/cli/migrate-crypto-namespace.ts:126-146 | the three counters sum up to the total |
| `CryptoMigration.CountersMean` | apps/api/src/cli/migrate-crypto-namespace.ts:126-146 | the counters tell how many values were under the target key, how many were no encrypted values, and how many were encrypted under another key |
| `CryptoMigration.LooksEncryptedExactly` | apps/api/src/cli/migrate-crypto-namespace.ts:250-253 | a plain text passes for an encrypted one if and only if it is three hexadecimal texts with colons between them |
| `CryptoMigration.MigratedRowsAreTarget` | apps/api/src/cli/migrate-crypto-namespace.ts:134-151 | after a migration every row counts as already migrated |
| `CryptoMigration.SecondRunChangesNothing` | apps/api/src/cli/migrate-crypto-namespace.ts:191-193 | a second migration changes no row |
| `CryptoMigration.AllRowsKeepMeaning` | apps/api/src/cli/migrate-crypto-namespace.ts:116-157 | after a migration every value of every column opens under the target key, and all rows mean what they meant if and only if none held an empty secret under another key |
| `CryptoMigration.MigrateRow` | apps/api/src/cli/migrate-crypto-namespace.ts:134-151 | one row is migrated, kept or found unreadable, and counted |
| `CryptoMigration.MigrateColumn` | apps/api/src/cli/migrate-crypto-namespace.ts:124-154 | a column is migrated row by row, or the first unreadable row is named |
| `CryptoMigration.MigrateEncryptedColumns` | apps/api/src/cli/migrate-crypto-namespace.ts:116-157 | it succeeds if and only if every value is readable, and names the first unreadable one otherwise; a dry run writes nothing and gives the same summaries |
| `CryptoMigration.RunMigration` | apps/api/src/cli/migrate-crypto-namespace.ts:80-114 | the command throws and changes nothing, exactly for wrong keys or an unreadable value, or brings every row under the target key, all with their meaning kept if and only if none held an empty secret under another key |
| `CryptoMigration.Database.UpdateEncryptedRow` | apps/api/src/cli/migrate-crypto-namespace.ts:171-182 | an update writes the row with the id and no other |

## Left out

- Regular expressions are not modelled as an engine: the two tag languages are predicates on code units with the white space, bar and case rules of the patterns.
- Redis, SQLite, threads, channels, locks and timers are atomic steps on abstract state; a Redis command that fails may or may not have been applied.
- The handler of a command, the graph, the model and the chat, memory and search services are steps that end in any way.
- In ConsumeLoop `ready` does not fail, and quitting the Redis connections is not modelled.
- CommandProtocol.NoCommandIsLost: a task may start for any delivered message at any time, acknowledged or not, which is more than the consume loops do; maxAttempts is any number, the code has 1.
- CommandProtocol.HandleCommand: the handler with nothing between its steps; interleavings are in the runs of CommandProtocol.
- RuntimeLock.AtMostOneLiveTask: with expiring leases two tasks can overlap; the condition is part of the statement.
- The runtime's writer does not fail, its handler returns, and its worker threads can be created; notifications are not modelled.
- Request parsing and JSON-RPC ids are not modelled; requests are numbered as they are read.
- A conversation refresh is one step of RunSync and does not overlap a flush; fetching messages, runs and approvals is not modelled.
- RunSync.NothingSkippedOrRepeated: the server answers with the first events behind the cursor in the order of their ids, as its query does, and its log of a run only grows by greater ids.
- RunSyncAtRest.AtRestCaughtUp: an answer holds at least what the server had logged when the request was sent.
- CheckpointSweep.SweepHitsRunningGraph: listing the checkpoints and deleting one thread are one step each; sweeps do not overlap, as their own lock provides.
- DesktopDraft: request ids are new and not empty; deleting a conversation and leaving it are one step; reading the stored workspace state at the start is the initial state.
- The texts, outputs and labels of transcript rows, their caches and the collapsed view are not modelled; a run's rows are any function of its sorted events, and merging keeps label, kind, status and count.
- ActivityMerge.MergedRowMeaning: the joined and compacted summary and output texts are not modelled.
- Lone surrogates in the composer, its triggers and its suggestions are not modelled; attributes are taken as read from the document.
- VirtualList: lengths are real numbers; the browser clamps an assigned scroll position to the range that its present heights allow; stored scroll states per list are not modelled.
- AES-GCM and HKDF are symbolic: only the key that sealed a text opens it, and nobody else makes a text that opens.
- The Markdown message cache, since its key is a hash; number formatting, routes, error codes, schemas and user interface, since they hold no hard state.
