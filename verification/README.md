# Verified model of the openharness core

This project models the event-producing and event-consuming core of openharness, a harness for agent loops
written in Go, together with the in-memory stores and indexes around it, and proves what they guarantee.
`dafny verify dfyconfig.toml` checks everything.

## What is modelled

**The run protocol of `LiteRunner`** (`Runner*.dfy`). Dispatch, the executor goroutine, the loop factory,
Interrupt, Cancel, Status, the consumer and the caller's context share the `runs` map, a status field, an event
channel with 64 slots and two mutexes. `RunnerModel` has one step per shared-memory access, lock operation or
channel operation, with a program counter for every goroutine and any number of runs and calls; a schedule is any
sequence of enabled steps. `RunnerInvariant` and `RunnerPreservation` give an inductive invariant;
`RunnerTheorems` and `RunnerProgress` say what follows for every schedule: the shape of the event log, channel
safety, truthful replies, statuses that only move forward, the outcome fixed at the moment `r.mu` is taken,
freedom from deadlock, which calls find a run (`RunnerLookups`), and a measure that drives every recorded run to a closed and drained channel.
`RunnerWitnesses` has schedules that show where the guarantees end. `RunnerObjects` has the critical sections as
methods on objects updated in place, each proved equal to the machine's steps.

**`execPage`** (`Page*.dfy`). Blocks with arbitrary parent pointers (dangling, self-referential, cyclic, with
repeated IDs) become heap nodes and are printed by a recursive writer. The recursion returns exactly when no
cycle can be reached; with unique IDs it always does, and the page is the preorder of a forest in which exactly
the blocks on or below a parent cycle are missing. The depths and titles of the lines determine the forest, and the
text determines the lines, up to white space at its very end.
`SearchGroups` has the stable grouping of `execSearch`.

**`StoreBackedEventStream`** (`EventStream.dfy`, `StreamRace.dfy`). A cursor over a log that others keep appending to
while anyone may close the stream between any two steps of `Next`. `EventStream` has the methods on the object, with
the others' steps as interference; `StreamRace` has the same code one step at a time, to say which schedules exist.

**`LiteAgentStore`** (`AgentStore.dfy`, `Decimal.dfy`). Compare-and-swap versions, archiving, generated IDs and
clones that share nothing with their source.

**The session log** (`SessionLog.dfy`, `SessionTheorems.dfy`). Files of JSON lines, their writer and their reader,
with `bufio.Scanner`'s framing and length limit, and runs of the store over many sessions; JSON is a pair of
functions.

**Tool registries** (`Tools.dfy`, `ToolRegistry.dfy`, `ToolListings.dfy`, `ToolRegistryObject.dfy`,
`TenantTools.dfy`). Nested composites, the three maps of the registry, its sorted listings over unordered maps,
and the catalogue with tenant overlays.

**Instruction-file discovery** (`Discovery.dfy`). The nested loops with two levels of break, refined to a greedy
selection that needs no set of seen paths.

`Options`, `Bytes` and `Ordering` hold shared vocabulary.

## Assumptions of the model

- Fields are sequentially consistent. `status` is written under `r.mu` and read by Interrupt under `rs.mu`; the
  model lets the read see the latest write.
- The factory sends events only before it returns, as `harness/lite/runner.go:16-20` asks of it. Every other
  behaviour of the factory, the clients, the consumer and the caller's context is allowed.
- Runs are never removed from the `runs` map, so a call that has found a run is identified with the map's key.
- Events carry their source (runner, factory or the interrupting call), because event types are chosen by the
  sender. The histories `accepted` and `delivered` are not program state.
- Times, generated UUIDs, the answers of the stores behind the stream and the page, and file contents are inputs.
- JSON is a codec given per proof. The theorems about sessions ask of the lines in question that their encoding
  has no newline and no final carriage return (section 7 of RFC 8259 has control characters escaped) and decodes
  to what was encoded; for `ToolCalls`, which is copied in, this means compact JSON.
- A run's start time is not modelled; `Status` passes it through.
- A tool's `Definitions()` is stable, and two tools are equal only when they are the same tool.

## Findings

- The comment on `Register` (tools/registry.go:36-40) promises that a failing call adds nothing. After a name
  collision the definitions before the colliding one stay registered (`ToolRegistry.FailureAddsNothingIff`,
  `ToolRegistry.CollisionLeavesEarlierDefinitions`).
- White space at the end of the last title is trimmed away with the end of the page, so two different forests can
  have the same text (`PagePrinter.TrailingSpaceIsLost`; exactly when they do not is `PageText.SameTextSameForest`).
- A Cancel that returned nil does not make the run end as cancelled: a factory that returns nil completes it, and
  after a deadline a factory error overwrites the mark (`RunnerWitnesses.CancelledRunCanComplete`,
  `RunnerWitnesses.CancelledRunCanFail`; the exact rule is `RunnerTheorems.FinalStatus`).
- The terminal event need not be the last one on the channel (`RunnerWitnesses.TerminalEventNeedNotBeLast`); when
  it can still be followed is `RunnerTheorems.LateEventIff`.
- `AppendMessage` ignores a failing `json.Marshal` and reports success although the message is lost, and a message
  whose line reaches 64 KiB hides everything behind it from the reader (`SessionTheorems.MessagesCanBeLost`,
  `SessionTheorems.LongMessageHidesTheRest`; exactly when nothing is lost is `SessionTheorems.CompleteIff`).
- Two blocks that share an ID can make `execPage` recurse for ever (`PageForestTheorems.DuplicateIdsCanLoop`). It
  returns exactly when no retained root reaches a cycle (`PageForestTheorems.PageEndsIff`, node by node
  `PageForest.WalkEndsIff`).
- After Close, a `Next` already in flight may return the context's error instead of `io.EOF`
  (harness/stream_store.go:73-75 against the comment at lines 41-43). `StreamRace.ClosedStreamCanAnswerContextError`
  is a schedule, `StreamRace.ContextErrorAfterCloseIff` says exactly when, and `StreamRace.EofPromisedIff` exactly
  when the comment's promise holds. Such a call hands out at most one more event (`StreamRace.AtMostOneMore`,
  exactly when: `StreamRace.DeliversMoreIff`).

## Model

| member | source | states |
|---|---|---|
| RunnerPreservation.InitialInv | harness/lite/runner.go:46-51 | a new runner satisfies the invariant |
| RunnerPreservation.ExecutePreserves | harness/lite/runner.go:82-136 | every step of the executor goroutine keeps the whole invariant, for all runs and calls at once |
| RunnerPreservation.EnvironmentPreserves | harness/lite/runner.go:98-98 | sends and return of the factory, receives and the caller's context keep the invariant |
| RunnerPreservation.StepPreserves | harness/lite/runner.go:53-230 | every enabled step of any goroutine keeps the invariant |
| RunnerPreservation.PlayPreserves | harness/lite/runner.go:53-230 | so does every schedule |
| RunnerTheorems.ReachableInv | harness/lite/runner.go:53-230 | the invariant holds in every reachable state |
| RunnerTheorems.PhaseMeaning | harness/lite/runner.go:90-136 | the log automaton's phases, read back as positions of run.started and of the terminal event |
| RunnerTheorems.LogShape | harness/lite/runner.go:82-136 | in every interleaving the log is interrupts, run.started with the run's ID, factory events and interrupts, exactly one terminal event with the run's ID and the text that goes with the recorded outcome, then at most one interrupt |
| RunnerTheorems.TerminalEventTells | harness/lite/runner.go:98-135 | the terminal event is run.completed for a nil result, "run cancelled" for an error of a run cancelled by a cancellation, and otherwise an error event with the factory's own text |
| RunnerTheorems.ChannelSafety | harness/lite/runner.go:64-88 | no send on a closed channel and no second close; delivered ++ buffered is the accepted log; at most 64 events are buffered |
| RunnerLookups.DispatchSucceedsOnce | harness/lite/runner.go:55-78 | in every interleaving a run exists if and only if a Dispatch for its ID has returned nil; only one ever does, and every other is a conflict with an existing run |
| RunnerLookups.LookupsTellTheTruth | harness/lite/runner.go:146-212 | Interrupt, Cancel and Status answer not found exactly when the run is not there at the moment they look, and Status reports its fields as they are |
| RunnerTheorems.InterruptReply | harness/lite/runner.go:146-174 | an Interrupt that returned nil put its event on the channel exactly once, one that returned an error never did |
| RunnerTheorems.CancelSucceedsOnce | harness/lite/runner.go:177-193 | at most one Cancel of a run returns nil |
| RunnerTheorems.StatusAnswer | harness/lite/runner.go:196-212 | a Status answer with an end time has the run's final status, end time and error; one without says running or cancelled and no error |
| RunnerTheorems.StepTrend | harness/lite/runner.go:53-230 | every step moves every run only forwards: status, end time, log, deliveries and the work left |
| RunnerTheorems.StatusOnlyMovesForward | harness/lite/runner.go:100-136 | status never returns to running, the end time is written once, and the published outcome never changes |
| RunnerTheorems.LateEventIff | harness/lite/runner.go:146-174 | behind the terminal event the log can still grow exactly when an Interrupt that read status running holds rs.mu |
| RunnerTheorems.OutcomeDetermined | harness/lite/runner.go:100-136 | from the moment executeRun holds r.mu its outcome and error text are fixed, whatever the others do |
| RunnerTheorems.FinalStatus | harness/lite/runner.go:98-136 | that outcome: completed for a nil result, cancelled for an error with status cancelled and a cancelled context, otherwise failed with the factory's error kept word for word |
| RunnerProgress.RunnerLockHolderMoves | harness/lite/runner.go:55-212 | the writer that holds r.mu, executor or call, has its own next step enabled, and so has every reader |
| RunnerProgress.StateLockHolderMoves | harness/lite/runner.go:83-88 | whoever holds rs.mu of a run has its own next step enabled |
| RunnerProgress.CallsNeverDeadlock | harness/lite/runner.go:55-212 | a call that has not returned can move exactly when nobody holds the lock its next step needs, and everybody who holds that lock can move |
| RunnerProgress.ExecutorsNeverDeadlock | harness/lite/runner.go:82-136 | an executor outside the factory can move exactly when nobody holds the lock it needs and the channel has room for its event; the holders can move, and on a full channel the consumer |
| RunnerProgress.HelpfulStep | harness/lite/runner.go:82-136 | while a recorded run is not drained, an executor, lock-holder or consumer step is enabled and lowers the measure |
| RunnerProgress.Drains | harness/lite/runner.go:82-136 | from the recorded outcome some schedule of at most that many steps closes and drains the channel |
| RunnerProgress.WorkIsBounded | harness/lite/runner.go:82-136 | and in every schedule the steps of executor and consumer plus the work left are at most the work there was |
| RunnerProgress.NothingAddsWork | harness/lite/runner.go:146-174 | no step of any goroutine adds work to a recorded run |
| RunnerProgress.LateInterruptsAreRefused | harness/lite/runner.go:155-173 | in every schedule after the record, unless one already holds rs.mu past the status check, no further Interrupt passes it: none returns nil and none finds the channel full |
| RunnerProgress.ClosedIsFinal | harness/lite/runner.go:83-88 | once the channel is closed no Interrupt is on its way to sending |
| RunnerProgress.EndOfStream | harness/lite/runner.go:224-230 | when Next reports io.EOF the consumer has the whole log, terminal event included, and it never grows again |
| RunnerWitnesses.CancelledRunCanComplete | harness/lite/runner.go:129-135 | a schedule in which a successfully cancelled run ends as completed |
| RunnerWitnesses.CancelledRunCanFail | harness/lite/runner.go:104-127 | a schedule in which a successfully cancelled run ends as failed |
| RunnerWitnesses.TerminalEventNeedNotBeLast | harness/lite/runner.go:162-170 | a schedule in which an interrupt event follows the terminal event |
| RunnerObjects.RecordSectionIs | harness/lite/runner.go:100-135 | executeRun's whole critical section in one: outcome, end time, error and matching terminal event |
| RunnerObjects.InterruptSectionIs | harness/lite/runner.go:155-173 | Interrupt's critical section in one: refused, posted when fewer than 64 events wait, or channel full |
| RunnerObjects.CancelSectionIs | harness/lite/runner.go:186-192 | Cancel's critical section in one |
| RunnerObjects.RunState.RecordOutcome | harness/lite/runner.go:100-135 | the code between taking and releasing r.mu does what the machine's steps do |
| RunnerObjects.RunState.Post | harness/lite/runner.go:155-173 | both checks and the non-blocking send do what the machine's steps do; an error changes nothing |
| RunnerObjects.RunState.Cancel | harness/lite/runner.go:186-192 | marking and firing the context do what the machine's steps do |
| RunnerObjects.RunState.Next | harness/lite/runner.go:224-230 | takes the first buffered event, blocks on an empty open channel, ends on an empty closed one |
| RunnerObjects.LiteRunner.Dispatch | harness/lite/runner.go:55-78 | a taken run ID is a conflict and changes nothing; otherwise a fresh run is entered under it |
| RunnerObjects.LiteRunner.Interrupt | harness/lite/runner.go:146-174 | not found, or the section above on that run and no other |
| RunnerObjects.LiteRunner.Cancel | harness/lite/runner.go:177-193 | not found, or the section above on that run and no other |
| RunnerObjects.LiteRunner.Status | harness/lite/runner.go:196-212 | the run's status, end time and error, or not found |
| PageForest.NodeOfIsLast | tools/core/knowledge_graph.go:241-243 | every listed ID has a node, and it is that of the last block carrying the ID |
| PageForest.ParentIs | tools/core/knowledge_graph.go:244-252 | a block's parent is the last listed block with the ID it points to; it is a root exactly when it points to nothing or to an unlisted ID |
| PageForest.RetainedIs | tools/core/knowledge_graph.go:254-256 | the kept roots are the first ones, as many as allowed |
| PageForest.WalkBoundsPaths | tools/core/knowledge_graph.go:260-267 | a finished recursion bounds the length of every chain of calls below it |
| PageForest.WalkFits | tools/core/knowledge_graph.go:260-267 | without a reachable cycle, as many nested calls as there are blocks suffice |
| PageForest.WalkEndsIff | tools/core/knowledge_graph.go:260-270 | the recursion returns from a node if and only if no cycle of children can be reached from it |
| PageForestTheorems.KidsAre | tools/core/knowledge_graph.go:244-251 | with unique IDs a node's children are exactly the blocks naming it as parent, in input order |
| PageForestTheorems.RootsAre | tools/core/knowledge_graph.go:244-253 | the roots are exactly the blocks without a listed parent, in input order |
| PageForestTheorems.UniqueIdsEnd | tools/core/knowledge_graph.go:239-270 | with unique IDs no block below a root reaches a cycle |
| PageForestTheorems.PageEnds | tools/core/knowledge_graph.go:239-270 | with unique IDs the whole page is finite, whatever the parent pointers |
| PageForestTheorems.PageEndsIff | tools/core/knowledge_graph.go:239-270 | for any IDs and parents the page is finished if and only if no retained root reaches a cycle |
| PageForestTheorems.DuplicateIdsCanLoop | tools/core/knowledge_graph.go:241-252 | two blocks that share an ID make the recursion endless |
| PageForestTheorems.PrintedBlocks | tools/core/knowledge_graph.go:239-270 | a block is printed if and only if its ancestors end in a retained root; once, and indented by their number |
| PageForestTheorems.PrintedOrder | tools/core/knowledge_graph.go:244-270 | the page is a preorder: each line stands under its parent's line with only deeper lines between; siblings keep input order |
| PageForestTheorems.RootOrCycle | tools/core/knowledge_graph.go:244-253 | following parents from a block ends in a root if and only if the block is not on or below a cycle |
| PageForestTheorems.MissingBlocksHangOnCycles | tools/core/knowledge_graph.go:239-270 | when no root is cut off, the missing blocks are exactly those on or below a parent cycle |
| PageOutline.WalkAllOutline | tools/core/knowledge_graph.go:258-270 | printing a forest prints its outline of depths and titles |
| PageOutline.OutlineInjective | tools/core/knowledge_graph.go:258-270 | different ordered forests have different outlines |
| PageOutline.LinesDetermineForest | tools/core/knowledge_graph.go:258-270 | two pages with the same lines show the same ordered forest |
| PagePrinter.MakeNodes | tools/core/knowledge_graph.go:239-243 | one fresh childless node per ID, holding the last block that carries it |
| PageText.PiecesOfEnded | tools/core/knowledge_graph.go:259-263 | splitting a text at newlines undoes ending lines with newlines |
| PageText.TrimRightIs | tools/core/knowledge_graph.go:271-271 | what trimming cuts off is exactly the white space at the end |
| PageText.SameTextSameLines | tools/core/knowledge_graph.go:258-271 | two pages with the same text have lines of the same depths and titles, but for white space at the end of the last title |
| PageText.SameTextSameForest | tools/core/knowledge_graph.go:239-271 | two pages with the same text show the same ordered forest if and only if their last titles agree, which they do unless one ends in white space |
| PagePrinter.PageTextIs | tools/core/knowledge_graph.go:258-271 | with one-line titles, the text splits into "# " and the name, then for each printed block two blanks per level, "- " and the title, up to white space at the very end |
| PagePrinter.TrailingSpaceIsLost | tools/core/knowledge_graph.go:271-271 | two titles that differ in a final blank give the same text |
| PagePrinter.LinkNodes | tools/core/knowledge_graph.go:244-253 | appending to children and roots in place builds the specified children of every node and the specified roots |
| PagePrinter.WriteNode | tools/core/knowledge_graph.go:260-267 | the recursion on heap nodes appends the specified walk's text to the shared builder |
| PagePrinter.PrintPage | tools/core/knowledge_graph.go:239-271 | the whole of it, cut to the first roots and trimmed, is the text of the specified walk, line by line as PageTextIs says |
| PagePrinter.PageLimit | tools/core/knowledge_graph.go:81-90 | the requested number of roots if it is between 1 and 100, and 100 otherwise |
| PagePrinter.ExecPage | tools/core/knowledge_graph.go:220-272 | errors of the two lookups, page not found, or that text |
| SearchGroups.GroupByPage | tools/core/knowledge_graph.go:141-148 | the map holds each page's blocks in search order; the order lists each page where it first occurs |
| SearchGroups.GroupingIsPermutation | tools/core/knowledge_graph.go:141-162 | grouping loses and invents no block |
| SearchGroups.OfPageKeepsOrder | tools/core/knowledge_graph.go:141-148 | the grouping is stable: a page's blocks keep the order of the search |
| SearchGroups.UniqueStrings | tools/core/knowledge_graph.go:307-317 | each string once, in the order of first occurrence, as FirstSeenIs says of its result |
| Ordering.FirstSeenIs | tools/core/knowledge_graph.go:307-317 | the result has each element once, exactly the elements of the input, ordered by where they first occur |
| Ordering.FirstSeenIsUnique | tools/core/knowledge_graph.go:307-317 | and it is the only list with these properties |
| EventStream.FromCursor | harness/stream_store.go:53-60 | at the cursor behind n events, position gaps notwithstanding, the query returns exactly the events after the n-th |
| EventStream.VisibleIs | harness/stream_store.go:62-67 | what is to be delivered is the log up to and including its first event of type run.completed or error |
| EventStream.VisibleGrows | harness/stream_store.go:44-80 | appending to the log takes nothing back, and a finished log shows nothing new |
| EventStream.SessionStore.GetEvents | harness/stream_store_test.go:29-39 | all events at the position or later, or an error |
| EventStream.StoreBackedEventStream.constructor | harness/stream_store.go:29-39 | a new stream has delivered nothing and starts at position 0 |
| EventStream.StoreBackedEventStream.Close | harness/stream_store.go:83-89 | the stream is done and its context cancelled |
| EventStream.StoreBackedEventStream.Poll | harness/stream_store.go:45-79 | one round under interference: EOF exactly when already done, otherwise the next undelivered event, an error that leaves the cursor alone, or nothing |
| EventStream.StoreBackedEventStream.Next | harness/stream_store.go:44-80 | appends exactly the next log event or delivers nothing; a returned run.completed or error ends the stream, any other event does not; EOF whenever called after the end or after Close |
| EventStream.StoreBackedEventStream.DeliversPrefix | harness/stream_store.go:44-80 | what was delivered is always a prefix of what is to be delivered, and all of it after a terminal event |
| EventStream.StoreBackedEventStream.Consume | harness/stream_store.go:44-80 | any number of calls, errors and retries in between, yields a prefix of the log in order, without loss or duplicates, in which only the last event can be a run.completed or error |
| StreamRace.StepKeeps | harness/stream_store.go:44-89 | every step of Next, of appenders, of Close and of the context keeps the cursor behind a delivered prefix of the log |
| StreamRace.EveryScheduleDelivers | harness/stream_store.go:44-89 | in every schedule what was handed out is a prefix of what the stream is to deliver |
| StreamRace.AtMostOneMore | harness/stream_store.go:46-51 | once the stream is done, any number of further calls hand out at most one more event, and only by a call already past the check of done |
| StreamRace.TerminalEventEndsStream | harness/stream_store.go:46-69 | after a call has returned a run.completed or error event, every later call in every schedule returns only io.EOF |
| StreamRace.OtherEventsDoNotEndStream | harness/stream_store.go:46-69 | after any other event a stream nobody has closed can still deliver |
| StreamRace.OnlyTerminalEventsEnd | harness/stream_store.go:58-89 | done is set only by Close or by returning a run.completed or error event |
| StreamRace.DeliversMoreIff | harness/stream_store.go:46-70 | one more event can still come exactly when a call stands between that check and moving the cursor |
| StreamRace.ContextErrorAfterCloseIff | harness/stream_store.go:41-79 | a call in flight when Close has completed can answer the context's error exactly when it is waiting, or about to query with nothing undelivered |
| StreamRace.EofPromisedIff | harness/stream_store.go:41-79 | the comment's promise of io.EOF holds for such a call exactly when it has not yet read done |
| StreamRace.OnlyEofFromCheck | harness/stream_store.go:46-51 | a call that begins after Close can only return io.EOF |
| StreamRace.ClosedStreamCanAnswerContextError | harness/stream_store.go:73-75 | the schedule: pass the check, Close, empty answer, context error |
| Decimal.ParseFormat | harness/lite/agent.go:91-91 | decimal formatting can be read back |
| Decimal.FormatInjective | harness/lite/agent.go:91-91 | so different counters have different decimals |
| Decimal.FormatIsDecimal | harness/lite/agent.go:91-91 | digits only, without leading zeros |
| AgentStore.AgentIdInjective | harness/lite/agent.go:91-91 | different counter values give different agent IDs |
| AgentStore.NextIdIsFresh | harness/lite/agent.go:91-98 | the next generated ID is not in the store, neither for Create nor for Clone |
| AgentStore.CreateMeans | harness/lite/agent.go:86-100 | a created agent is the given definition with ID "agent-" and the next number, the tenant, version 1, both times now, and not archived |
| AgentStore.UpdateSets | harness/lite/agent.go:133-163 | a successful update gives each of the ten patch fields the value the patch names, and leaves it where the patch names none |
| AgentStore.UpdateKeeps | harness/lite/agent.go:165-169 | it raises the expected version by one, dates the record, and leaves all other fields and all other agents |
| AgentStore.RefusedIff | harness/lite/agent.go:122-131 | exactly when an operation answers not found, archived or conflict, and that it then changes nothing |
| AgentStore.ArchiveMeans | harness/lite/agent.go:173-191 | archiving sets both times and nothing else |
| AgentStore.CloneMeans | harness/lite/agent.go:228-272 | a clone is the source with a new ID, name, version 1 and times, not archived, on the copies; the source stays |
| AgentStore.PerformKeeps | harness/lite/agent.go:86-272 | every operation keeps the store valid, removes no agent and changes at most the one it names |
| AgentStore.ArchivedStays | harness/lite/agent.go:126-191 | after any run an archived agent's record is unchanged |
| AgentStore.StepOfAgent | harness/lite/agent.go:118-191 | an operation on a live agent is a winning update of exactly its version, an archiving, or nothing |
| AgentStore.UpdatesAreSerial | harness/lite/agent.go:118-170 | in any run the winning updates expected consecutive versions, the version counts them, and the record is their patches applied in order: no update is lost |
| AgentStore.CreatedAgentHistory | harness/lite/agent.go:86-170 | from creation on these are versions 1, 2, 3, ... |
| AgentStore.TextFieldsAreLastWritten | harness/lite/agent.go:118-170 | after any run the text fields of every agent are what the last successful update naming them gave them, or what they were |
| AgentStore.OtherFieldsAreLastWritten | harness/lite/agent.go:118-170 | and so are persona, tools, skills, autonomy and metadata |
| AgentStore.LiteAgentStore.Create | harness/lite/agent.go:86-100 | a fresh ID, version 1, both times set, not archived, entered under its ID |
| AgentStore.LiteAgentStore.Update | harness/lite/agent.go:118-170 | not found, archived or conflict without change; otherwise the named fields replaced and the version raised by one |
| AgentStore.LiteAgentStore.Archive | harness/lite/agent.go:173-191 | not found or archived without change; otherwise both times set |
| AgentStore.LiteAgentStore.Clone | harness/lite/agent.go:228-272 | a new record whose slices and metadata map are fresh copies, null where the source has null |
| AgentStore.LiteAgentStore.List | harness/lite/agent.go:194-219 | the tenant's live agents, each once, cut by offset and limit |
| SessionLog.FileNameInjective | sessions/store.go:86-86 | different sessions have different files |
| SessionLog.LinesOfJoined | sessions/store.go:128-129 | splitting into lines undoes joining, whatever bytes follow |
| SessionLog.Store.CreateSession | sessions/store.go:73-89 | the session's file holds its meta line, other files are untouched |
| SessionLog.Store.AppendMessage | sessions/store.go:91-116 | one line, time filled in, at the end of an existing file; an error and no change without one |
| SessionLog.Store.LoadSession | sessions/store.go:118-149 | the last meta line and all messages of the lines before the first one that is too long, and an error exactly when there is such a line |
| SessionLog.Store.ListSessions | sessions/store.go:151-169 | an error when the directory cannot be read; otherwise, in sorted order, the sessions of the session files that load without an error |
| SessionLog.Store.DeleteSession | sessions/store.go:171-174 | the file is gone, or an error without change |
| SessionTheorems.CreatedSessionLoads | sessions/store.go:73-149 | a created session loads as its meta line and its appended messages in order, whatever malformed or blank lines stand between; a too long line behind them adds an error and nothing else |
| SessionTheorems.CompleteIff | sessions/store.go:91-149 | all messages come back without an error if and only if each line could be encoded and is shorter than 64 KiB |
| SessionTheorems.LoadedFieldsAre | sessions/store.go:91-149 | when all lines fit, the k-th loaded message is the k-th appended one field by field, with its type cleared and a missing time filled with the time of appending |
| SessionTheorems.KeptOneMore | sessions/store.go:91-149 | the same for one more entry among foreign lines and messages that do not encode |
| SessionTheorems.FitsIff | sessions/store.go:128-129 | a line fits when it can be encoded in at most 65535 bytes |
| SessionTheorems.LastMetaWins | sessions/store.go:134-136 | of several meta lines the last one counts |
| SessionTheorems.CarriageReturnIsDropped | sessions/store.go:128-129 | a carriage return before the newline is not part of a line |
| SessionTheorems.DeletedIsGone | sessions/store.go:91-174 | a deleted session is gone and appending does not bring it back |
| SessionTheorems.UnencodableMessageIsLost | sessions/store.go:105-149 | a message that does not encode is missing from the loaded session, without an error |
| SessionTheorems.MessagesCanBeLost | sessions/store.go:105-149 | a codec for which that happens |
| SessionTheorems.LongMessageHidesTheRest | sessions/store.go:105-149 | a message whose line is too long hides itself and everything appended after it |
| SessionTheorems.OtherSessionsStay | sessions/store.go:86-114 | an operation on one session leaves every other session's file alone |
| SessionTheorems.FileOfSession | sessions/store.go:73-116 | after any run of the store the file named by the session's ID and ".jsonl" is its meta line and one line per message appended to it |
| SessionTheorems.SessionSurvivesRun | sessions/store.go:73-149 | so after any run it loads completely exactly when its own lines fit |
| SessionTheorems.ListedIff | sessions/store.go:151-169 | a session is listed if and only if some file ending in ".jsonl" loads to it without an error |
| SessionTheorems.ListedOfConcat | sessions/store.go:157-168 | the listing keeps the order of the names, and each file counts once |
| SessionTheorems.SessionIsListed | sessions/store.go:73-169 | after any run a created session whose lines fit is listed, and the listing is the only one the directory allows |
| Tools.AskDefinitions | tools/composite.go:18-24 | the loop collects the definitions of the wrapped tools in order |
| Tools.Execute | tools/composite.go:27-36 | the search dispatches to the first wrapped tool that defines the name, down to a leaf |
| Tools.LeavesStandFor | tools/composite.go:18-36 | the leaves of a tool together define what it defines and take the calls it takes |
| Tools.FlatteningPreserves | tools/composite.go:18-36 | one flat composite of all leaves has the definitions and the dispatch of any nesting |
| Tools.DispatchReachesOwner | tools/composite.go:27-36 | not found exactly for names absent from Definitions; otherwise the first leaf from the left that defines the name |
| ToolRegistry.CountFreeIs | tools/registry.go:48-55 | where registering stops: before the first name taken by the registry or by an earlier definition of the tool |
| ToolRegistry.RegisterKeeps | tools/registry.go:41-57 | a registration, failed or not, keeps the three maps in step and every stored effect the scanned one |
| ToolRegistry.UnregisterKeeps | tools/registry.go:72-76 | so does a removal |
| ToolRegistry.RunKeeps | tools/registry.go:41-76 | so does every run |
| ToolRegistry.EffectsAreScanned | tools/registry.go:64-69 | after any run EffectsFor is what scanning the owning tool finds, and unspecified exactly for unknown names |
| ToolRegistry.RegisterSucceedsIff | tools/registry.go:36-57 | success exactly when all effects are given, all names are new and none is repeated; then every definition is in |
| ToolRegistry.FindsAfterRegister | tools/registry.go:41-62 | after a successful registration every name of the tool finds it, and every other name what it found before |
| ToolRegistry.UnclassifiedIff | tools/registry.go:42-47 | a registration is refused for missing effects exactly when some definition has none, names the first such definition, and adds nothing |
| ToolRegistry.FindsAfterUnregister | tools/registry.go:60-76 | after a removal the name finds nothing, and every other name what it found before |
| ToolRegistry.CollisionKeepsPrefix | tools/registry.go:48-55 | after a collision exactly the definitions before the colliding one are in |
| ToolRegistry.FailureAddsNothingIff | tools/registry.go:36-56 | a failure adds nothing, as the comment promises, exactly when it concerns effects or the very first definition |
| ToolRegistry.CollisionLeavesEarlierDefinitions | tools/registry.go:36-56 | a registration that fails and leaves a definition behind |
| ToolListings.CategoryIsExact | tools/registry.go:79-94 | with distinct names a category holds exactly its registered definitions, strictly sorted |
| Ordering.LessIff | tools/registry.go:92-95 | the order of names: a proper beginning, or the smaller character at the first difference |
| ToolListings.ListingIsUnique | tools/registry.go:79-97 | the listing does not depend on the order in which the maps yield their entries |
| ToolListings.CountsAddUp | tools/registry.go:79-97 | the counts add up to the number of registered names: each is in exactly one category |
| ToolListings.SuccessesAreDistinct | tools/registry.go:41-76 | as long as no registration fails, all registered tools have distinct definition names |
| ToolRegistryObject.Registry.Register | tools/registry.go:41-57 | both loops over the three maps do what the specification says, error included |
| ToolRegistryObject.Registry.Unregister | tools/registry.go:72-76 | removes the name from all three maps |
| ToolRegistryObject.Registry.EffectsOf | tools/registry.go:67-69 | the stored effect, or unspecified |
| ToolRegistryObject.Registry.Get | tools/registry.go:60-69 | a tool that is found defines the name, with the effects EffectsFor reports; nothing is found exactly for names whose effects are unspecified |
| ToolRegistryObject.Registry.Categories | tools/registry.go:79-97 | for any iteration order a listing sorted at both levels, each definition as often as its tool lists it, no category empty or missing |
| ToolRegistryObject.Registry.ToolsByCategory | tools/registry.go:100-116 | exactly the tools of the category, each once, sorted by first definition name |
| ToolRegistryObject.Registry.ToolsByNames | tools/registry.go:119-129 | the tools of the registered names, each where it first occurs |
| ToolRegistryObject.ToolsNamedIs | tools/registry.go:119-129 | which tools those are |
| ToolRegistryObject.ToolsComeInOrder | tools/registry.go:119-129 | a tool listed before another is named before the other is named for the first time |
| TenantTools.PerformKeeps | harness/lite/registry.go:34-154 | every definition stays under its own name and its own tenant |
| TenantTools.RunKeeps | harness/lite/registry.go:34-154 | through every run |
| TenantTools.TenantsAreIsolated | harness/lite/registry.go:68-154 | no run of other tenants' operations changes what a tenant resolves |
| TenantTools.OverlayHidesGlobals | harness/lite/registry.go:34-38 | a new global definition shows exactly where a tenant has none of its own |
| TenantTools.RegisterMeans | harness/lite/registry.go:94-108 | the entry is the definition as given, with the tenant, and with the generated ID exactly when it came without one; no other name changes |
| TenantTools.UpdateMeans | harness/lite/registry.go:112-134 | under the new name stands the definition as given with the old ID and the tenant; the old name is free unless it is the new one |
| TenantTools.OrderDoesNotMatter | harness/lite/registry.go:112-154 | with unique IDs updating and deleting do not depend on map order |
| TenantTools.UniquenessKeptIff | harness/lite/registry.go:94-154 | updating and deleting keep IDs unique; registering does exactly when no other entry has the ID |
| TenantTools.RunsAgree | harness/lite/registry.go:94-154 | whole runs come out the same for every map order as long as registrations bring in new IDs, and IDs stay unique |
| TenantTools.UpdateLosesIff | harness/lite/registry.go:121-131 | an update overwrites another entry exactly when it renames onto it, and touches no third one |
| TenantTools.DeleteUndoesRegister | harness/lite/registry.go:94-154 | deleting by ID what was registered under a new name and ID restores every lookup |
| TenantTools.LiteToolRegistry.AddGlobalTool | harness/lite/registry.go:34-38 | the global entry is replaced, the tenants stay |
| TenantTools.LiteToolRegistry.RegisterTool | harness/lite/registry.go:94-108 | the tenant's entry, with its tenant and a generated ID if it had none |
| TenantTools.LiteToolRegistry.UpdateTool | harness/lite/registry.go:112-134 | found exactly when some entry has the ID; one such entry is moved to the new name |
| TenantTools.LiteToolRegistry.DeleteTool | harness/lite/registry.go:138-154 | found exactly when some entry has the ID; one such entry is removed |
| TenantTools.LiteToolRegistry.Resolve | harness/lite/registry.go:68-90 | pointwise lookup through the overlay, failing exactly when a name is nowhere, with the first such name |
| TenantTools.LiteToolRegistry.ListGlobal | harness/lite/registry.go:41-50 | exactly the global definitions, one per name |
| TenantTools.LiteToolRegistry.ListTenant | harness/lite/registry.go:53-63 | exactly the tenant's definitions, one per name |
| Discovery.TakeIsPrefix | config/discovery.go:26-45 | a directory yields its readable files before the first that does not fit, none skipped and none behind it |
| Discovery.WalkIsInOrder | config/discovery.go:24-54 | files come in the order of the places: nearest directory first |
| Discovery.PlacesAreDistinct | config/discovery.go:27-35 | no place occurs twice, also when the walk starts inside a .ghostfin directory |
| Discovery.PlacesAre | config/discovery.go:19-35 | the candidates of a directory by name and in order, then those of its parent; the one in the .ghostfin folder is not looked at twice |
| Discovery.PlaceIff | config/discovery.go:19-54 | all in all the places are the three names in each directory from the start to the root |
| Discovery.DiscoveredIs | config/discovery.go:18-56 | distinct readable files, nearest first, each whole up to 4000 bytes and else its first 4000 bytes and the marker, all together at most 12000 bytes |
| Discovery.WalkIsCompleteIff | config/discovery.go:24-54 | from any directory and any room: nothing is left out if and only if there is room |
| Discovery.DiscoveredIsCompleteIff | config/discovery.go:18-56 | every readable file is found if and only if all fit and none lies above a directory that uses the budget up exactly |
| Discovery.DiscoverInstructionFiles | config/discovery.go:18-56 | the nested loops with their two breaks and their set of seen paths compute that selection, and end |

## Left out

- Goroutine scheduling beyond interleaving, weak memory, and the preference of a waiting writer in `sync.RWMutex`:
  the model allows more schedules than the lock does, so safety carries over.
- Fairness: progress is stated as an enabled step that lowers a measure, not as a claim about infinite schedules.
- EventStream.StoreBackedEventStream.Next: takes a number of polls and answers StillWaiting after them, because an
  endless wait for a log that never grows has no result. Which answers a call in flight at Close can give is not in
  its contract; `StreamRace` says it.
- PagePrinter.ExecPage: asks that no retained root reaches a cycle, which is exactly when the recursion returns;
  lower-casing and suffix trimming of the page name and the quoting in the not-found message are not modelled.
- PagePrinter.PageTextIs: speaks of names and titles without newlines; with a newline in it a title can make two
  pages look alike.
- AgentStore.LiteAgentStore.Clone: maps and slices inside an element of the MCP server list are shared with the
  source, as in the program; the copies are one level deep.
- AgentStore.LiteAgentStore.List: pages of separate calls need not fit together, since map order is arbitrary.
- `NewLiteAgentStoreWithSeeds` amounts to five calls of Create; `ListVersions` and `Resume` have constant answers.
- Overflow of the 64-bit version, counter and position fields.
- SessionTheorems.CompleteIff: speaks of lines whose encoding, where there is one, is faithful; a `ToolCalls` value
  that the encoder compacts comes back compacted.
- Sub-directories beside the session files, file permissions, partial writes, and session IDs that contain path
  separators.
- Failures of `filepath.Abs`, and symbolic links: a path is its clean components.
- ToolRegistryObject.Registry.ToolsByCategory: tools with the same first definition name come in any order.
- `VerifyTool`, `NewComposite` and the arguments and answers of tool calls: they would only add easy members.
- `execTraverse` and `execRelated`: plain loops over what the store returns.
- Providers, web tools, regex filters, cost accounting, the file system and memory tools, tasks, and the
  one-map stores for artifacts, skills, secrets and channels.
