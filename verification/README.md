# NPS protocol suite: a verified model

This project models, in Dafny, the parts of the NPS Python SDK that carry state, run a protocol or process a language,
and proves what they promise for every input, every run or every reachable state. `dafny verify dfyconfig.toml` checks
all of it.

The source's own form is kept. Code that updates tables, indices or buffers step by step is a class or a method with
loops, proved against a specification function or an outright property. Code made of expressions is functions. The
laws of the system are lemmas over the specification.

## What is proved

**LLM context store** (`ContextStore`, `ContextStoreClass`, `ContextStoreRuns`, `ContextStoreRules`). Three linked
tables: contexts, idempotency outcomes, reservations. Over every run of commands, with arbitrary clock readings, the
tables stay linked one to one, no owner exceeds the quota, and every retained context equals the replay of the
committed history alone: version, binding and transcript, with a fork pinned to its parent's transcript at exactly the
version it names. A reservation is granted exactly when history and what is retained allow it, and each error goes
with one failed clause. A key mutates at most once while its outcome is retained, which is for exactly the idempotency
time to live; an expired context says so for exactly its tombstone time.

**Streaming completions** (`LlmStream`, `LlmStreamMeaning`). Whatever the model source, the authorizer and the
consumer do, an active reservation is settled by exactly one of a commit and an abort. The commit happens exactly
after a successful terminal frame with commit-stage authorization, and the transcript then ends with one assistant
message that holds all deltas and all tool calls. The client sees frames 0 to n with one terminal frame, no context
but the receipt on that frame, and the code of a failure; the key shows the same. A success shown to the client
implies a commit; the converse fails in exactly one case, which is stated.

**DAG engine** (`Graphs`, `DagValidator`, `Scheduler`, `SchedulerRuns`, `SchedulerInputs`, `SchedulerTrust`,
`SchedulerQuiet`, `Saga`). Validation returns an order exactly for structurally sound acyclic graphs. The K-of-N
scheduler, with an arbitrary choice of which node finishes next and how, keeps its safety invariant over every run,
never aborts prematurely and succeeds when nothing fails. What it starts, fails and gives up on is stated on the
declared inputs and the states alone, and a completed node keeps the result it returned. "Success means that the end
nodes succeeded" is false of the code. A sequence of failures is *quiet* if none of them aborts the run when it
happens and together they block an end node. For every K and every concurrency limit, a graph without quiet failures
can be trusted; with room for all nodes at once that is exact, and quiet failures are misreported under every limit
above their number. Where every node needs all its inputs (`NeedsAll`), the edges agree with the declared inputs
(`EdgesAgree`) and two nodes may run at once, the exact condition is simpler: every other node feeds an end node
directly. A three-node K-of-N graph shows that this simpler condition is not enough for other K.

**Portable profile** (`StableTopology`, `PortableSaga`, `LeaseTable`). The execution order is the lexicographically
least topological order. Compensation undoes exactly the completed ancestors of the failed node, every dependent
first, over any number of edges. Leases exclude one another.

**Conditions** (`Condition`, `ConditionMachine`, `ConditionMeaning`, `ConditionText`, `ConditionValues`). Writing out
any condition, with any white space or none between its tokens, and evaluating the text yields its denotation;
comparisons, bare operands and number literals are also stated by value. Exactly the conditions without a boolean
literal on the left of a comparison are read to the end, and for the others it is stated when the answer is still
right. An equality gives the documented answer exactly when it does not compare a boolean with its number.

**Filters** (`Filters`, `FilterAgreement`, `FilterPlaceholders`, `FilterTranslator`, `FilterText`). The WHERE text,
with its quoted columns and numbered placeholders, read with SQL precedence and three-valued logic, keeps exactly the
rows that the in-memory evaluator selects. Where the two differ, the difference is characterised on both sides.

**Memory Node queries** (`StableSorts`, `MemoryQuery`, `Paging`, `CursorCodec`). Several stable sorts in reverse give
the lexicographic order of all clauses with ties in original order, stated on the cells. Following cursors, down to
their decimal digits and base64 letters, yields every row once for both providers. Under a token budget that fails
exactly when a page had to be trimmed.

**Discovery and ownership** (`AnnounceRegistry`, `EpochGuards`, `DelegationCache`). Sequence monotonicity, one digest
per NID and sequence, epoch fencing for any number of Anchors and frames, resolution of the one live leader, and
exactly which schedules of interleaved lookups make the delegation cache go back.

**Wire layer** (`Wire`, `PrefixCodes`, `BinaryVectors`, `Decimals`, `Handshake`). Headers round-trip in both forms.
The BinaryVector layout is a bijection. After an accepted handshake both ends hold one policy, and everything either
end may send is split and accepted by the other from the first byte on.

**Inclusion proofs** (`Merkle`), compared with the tree of section 2.1 of RFC 9162. Whatever entry, index and path are
accepted, the entry is a leaf, and it is the leaf at that index exactly under two checks that the client does not
make. The hash is any function to 32 bytes; "collision-free" is stated as "or here is a collision".

## Where code and documentation disagree

- `nps_sdk/nop/orchestrator.py:324-325` leaves the loop with unsettled end nodes and `:373-376` then reports success.
- `nps_sdk/nop/condition.py:286-287` says that booleans are kept apart from numbers; `True == 1.0` holds in the code.
- `nps_sdk/nop/condition.py:193-198` never compares a leading boolean literal, and `:311` ignores what is left over.
- `nps_sdk/nwp/memory_node_sql.py:196-202` translates `$between`, which `evaluate_filter` does not know.
- `nps_sdk/nwp/memory_node_sql.py:118-120,127-128,137-139` drops empty sub-filters, which the evaluator takes as true.
- `nps_sdk/nip/reputation.py:479-486` names RFC 9162 but uses neither the tree size nor the high bits of the index.
- `nps_sdk/nop/cluster_delegation.py:43-45` promises a cache that is monotonic per cluster; `:85-88` stores without comparing.
- `nps_sdk/nwp/memory_node_server.py:377-391` trims rows to the budget and keeps the cursor, so trimmed rows are never served.
- `nps_sdk/nwp/llm_action_server.py:310-313` does not abort when a commit is refused, although the streaming path does.

In each case the model follows the code.

## Model

| member | source | states |
|---|---|---|
| `ContextStoreRuns.EveryRunIsGood` | nps_sdk/nwp/context_store.py:194-401 | after any run of reserve, commit, abort, release and sweep, at any clock readings, the three tables are linked one to one, every owner is within quota, and each retained context is the replay of the committed history |
| `ContextStoreRuns.EveryReachableStoreIsGood` | nps_sdk/nwp/context_store.py:173-401 | the same for every store reachable from an empty one |
| `ContextStoreRuns.StepKeepsGood` | nps_sdk/nwp/context_store.py:194-401 | each single operation keeps the whole invariant |
| `ContextStoreRuns.CommitKeepsFaithful` | nps_sdk/nwp/context_store.py:262-326 | a commit adds exactly one step to the replay: create starts at version 1, append extends, reset replaces, a fork child has the parent's transcript as reserved plus its own turn |
| `ContextStoreRuns.AbortChangesNoContent` | nps_sdk/nwp/context_store.py:328-346 | an abort changes no version, transcript, binding or owner, and unlocks only what its reservation had locked |
| `ContextStoreRuns.CommitFailsOnlyOn` | nps_sdk/nwp/context_store.py:262-326 | in a linked store a commit fails only for a handle that is not running or an id factory that fails, and never at another version than its base |
| `ContextStoreRuns.CommittedSets` | nps_sdk/nwp/context_store.py:262-326 | live plus pending contexts of every owner are conserved by a commit |
| `ContextStoreRuns.KeysAreExclusive` | nps_sdk/nwp/context_store.py:201-208 | two running reservations never share an owner and idempotency key |
| `ContextStoreRuns.KeyMutatesAtMostOnce` | nps_sdk/nwp/context_store.py:580-650 | from a recorded outcome, no continuation that sweeps before its retention ends mutates under that key again |
| `ContextStoreRuns.LogGrows` | nps_sdk/nwp/context_store.py:262-326 | committed history is append-only over every run |
| `ContextStoreRuns.LeasesNeverVanish` | nps_sdk/nwp/context_store.py:513-522 | while the clock does not run back, every active context has an expiry at most the longest time to live ahead, whatever chain of forks and appends produced it |
| `ContextStoreRuns.KeyStatusIsAccurate` | nps_sdk/nwp/context_store.py:403-449 | a key reads as running exactly while a reservation holds it, with that reservation's request id |
| `ContextStoreRuns.ContextStatusIsAccurate` | nps_sdk/nwp/context_store.py:403-449 | a context reads as running exactly while an append or reset holds it, and names that request |
| `ContextStoreRuns.NextContextIdIsUnused` | nps_sdk/nwp/context_store.py:609-615 | a drawn id is well formed and names no retained context |
| `ContextStoreRules.EveryRunIsFingerprinted` | nps_sdk/nwp/context_store.py:194-401 | after any run the fingerprint of every retained context is that of its binding |
| `ContextStoreRules.GrantedExactlyWhen` | nps_sdk/nwp/context_store.py:194-260 | a reservation is granted exactly when the request is well formed and supported, its key is not taken, create and fork have room, and otherwise history shows a live, free context of that owner at the base version, under the same binding for append and fork |
| `ContextStoreRules.RefusedExactlyWhen` | nps_sdk/nwp/context_store.py:194-260 | each error code is given exactly when the clauses before it hold and its own fails, with the version that history gives |
| `ContextStoreRules.GrantedHolds` | nps_sdk/nwp/context_store.py:209-260 | a granted reservation holds the request, the transcript of the replayed context, its parent and a time to live: asked for and clamped, inherited, or for a fork the least whole number of seconds that covers the parent |
| `ContextStoreRules.ReceiptIsAccurate` | nps_sdk/nwp/context_store.py:262-326 | a receipt names the version and owner that history gives the committed context, and the operation and parent of its reservation |
| `ContextStoreRules.CommitSetsExpiry` | nps_sdk/nwp/context_store.py:271-326 | a committed context is active, unlocked and lives for the time to live from the commit on |
| `ContextStoreRules.DrawsExactly` | nps_sdk/nwp/context_store.py:609-615 | the first of eight draws that does not clash is the id, or an error if it is malformed; eight clashes are an error |
| `ContextStoreRules.OutcomeIsRemembered` | nps_sdk/nwp/context_store.py:580-650 | what a commit, abort or release recorded is kept for exactly the idempotency time to live, over every continuation, and nothing is committed under its key meanwhile |
| `ContextStoreRules.ExpiryIsRemembered` | nps_sdk/nwp/context_store.py:617-650 | a context found expired answers with the expiry error and its version for exactly the tombstone time, over every continuation, and is not found afterwards |
| `ContextStoreRules.ReleaseIsFinal` | nps_sdk/nwp/context_store.py:348-401 | a released context is not found, and its id not given out, while its tombstone lasts |
| `ContextStoreRules.ReleasedExactlyWhen` | nps_sdk/nwp/context_store.py:348-401 | a release happens exactly for a well-formed request of the owner of a live, free context at its version, under a key that is not taken |
| `ContextStoreRules.ReleaseRefusedExactlyWhen` | nps_sdk/nwp/context_store.py:348-401 | which error a release gets otherwise, and the receipt it gets when it happens |
| `ContextStoreRules.ReleaseIsReplayedExactlyWhen` | nps_sdk/nwp/context_store.py:359-374 | under a taken key the recorded receipt is given again for the same context and version, and a conflict otherwise |
| `ContextStoreRules.AbortedKeyReads` | nps_sdk/nwp/context_store.py:403-432 | after an abort the key reads as failed with its request and code for as long as it is remembered |
| `ContextStoreRules.CommittedKeyReads` | nps_sdk/nwp/context_store.py:403-449 | after a commit the key reads as the committed context as it is then, or as its receipt if that is gone |
| `ContextStoreClass.InMemoryContextStore.TryReserve` | nps_sdk/nwp/context_store.py:194-260 | the method performs the reserve transition on all three tables, error cases included |
| `ContextStoreClass.InMemoryContextStore.TryCommit` | nps_sdk/nwp/context_store.py:262-326 | the method performs the commit transition on all three tables |
| `ContextStoreClass.InMemoryContextStore.TryAbort` | nps_sdk/nwp/context_store.py:328-346 | the method performs the abort transition on all three tables |
| `ContextStoreClass.InMemoryContextStore.TryRelease` | nps_sdk/nwp/context_store.py:348-401 | the method performs the release transition, handing out a recorded receipt again for the same request |
| `ContextStoreClass.InMemoryContextStore.SweepTables` | nps_sdk/nwp/context_store.py:617-650 | sweeping expires, buries and forgets exactly what is due, and reports no change exactly when nothing changed |
| `ContextStoreClass.InMemoryContextStore.AllocationAvailable` | nps_sdk/nwp/context_store.py:524-538 | counting in two loops decides exactly whether live plus pending is below the limit |
| `ContextStoreClass.InMemoryContextStore.DrawContextId` | nps_sdk/nwp/context_store.py:609-615 | at most eight draws; the first unused one, or the error of the first malformed one, or a collision error |
| `LlmStream.CoordinateStream` | nps_sdk/nwp/llm_action_server.py:316-435 | the generator's effect on the store, its frames and its ending are those of the plan for the given source, authorization and consumer |
| `LlmStream.SettlesExactlyWhen` | nps_sdk/nwp/llm_action_server.py:328-415 | a commit is attempted exactly when a successful terminal frame follows only ordinary frames the consumer took and the commit stage is authorized; the message has role `assistant`, the concatenation of all deltas as its content and that of all tool calls, each absent if empty |
| `LlmStream.SettledExactlyOnce` | nps_sdk/nwp/llm_action_server.py:372-435 | however the stream goes, an active reservation is settled by exactly one of a commit and an abort, and is gone |
| `LlmStream.SendStream` | nps_sdk/nwp/action_node_server.py:764-826 | the loop writes the relayed frames and reports success exactly for a clean, complete stream |
| `LlmStream.StreamIsWellNumbered` | nps_sdk/nwp/action_node_server.py:778-822 | absent cancellation the client sees numbers 0 to n with exactly one terminal frame, at the end, and no error code before it |
| `LlmStream.ClientLearnsOutcome` | nps_sdk/nwp/action_node_server.py:778-826 | a success shown to the client implies the commit; a committed turn is shown as failed exactly when its terminal frame carries the wrong number |
| `LlmStream.CompletionLeaksExactlyWhen` | nps_sdk/nwp/llm_action_server.py:243-314 | without streaming, the reservation is left behind exactly when the commit is reached and has no entry to write |
| `LlmStream.MalformedDrawLeaks` | nps_sdk/nwp/llm_action_server.py:310-313 | any granted first create request with an id factory whose first draw is malformed leaves its reservation, its key and its quota unit taken |
| `LlmStreamMeaning.GathersInOrder` | nps_sdk/nwp/llm_action_server.py:349-353 | text and tool calls are gathered chunk by chunk and frame by frame, in order |
| `LlmStreamMeaning.CommittedStreamSays` | nps_sdk/nwp/llm_action_server.py:407-416 | after a committing stream the transcript is the old one, the request and one assistant message with everything the source said, and the key holds the receipt |
| `LlmStreamMeaning.CommittedStreamShows` | nps_sdk/nwp/llm_action_server.py:354-427 | its client gets the source's frames without contexts, except for the receipt on the last chunk of the last frame that gives a stop reason |
| `LlmStreamMeaning.FailedStreamShows` | nps_sdk/nwp/llm_action_server.py:368-382 | an error reported by the source is shown with its code, or a general one, to the client and under the key |
| `LlmStreamMeaning.PlanTurnsDown` | nps_sdk/nwp/llm_action_server.py:388-405 | a successful stream without commit authorization is turned down with the authorizer's code, or cancelled |
| `LlmStreamMeaning.AbortedStreamShows` | nps_sdk/nwp/llm_action_server.py:388-435 | however else a stream ends without a commit, the key shows the code of the authorizer or of the store, or a general one |
| `LlmStreamMeaning.RaisedCodeIsTold` | nps_sdk/nwp/action_node_server.py:778-826 | a stream that raises is closed for the client by one more frame with its code |
| `LlmStreamMeaning.WholeCompletionLeaves` | nps_sdk/nwp/llm_action_server.py:243-314 | a whole answer that is authorized is committed as it is, and any other end is recorded with its code |
| `DagValidator.Validate` | nps_sdk/nop/validation.py:48-137 | an order is returned exactly when the structural rules hold and the edges are acyclic; it lists every node once, every edge forward; a cycle verdict means that a cycle exists |
| `DagValidator.SoundExactlyWhen` | nps_sdk/nop/validation.py:48-118 | the structural rules at once: 1 to 32 nodes with distinct ids, known edge ends and inputs, a start, an end, conditions of at most 512 characters |
| `DagValidator.EndsExist` | nps_sdk/nop/validation.py:97-109 | a start has no edge into it and an end no edge out of it |
| `DagValidator.CheckStructure` | nps_sdk/nop/validation.py:48-118 | the first structural rule broken, in the source's order, or the adjacency lists and in-degrees |
| `DagValidator.TopologicalSort` | nps_sdk/nop/validation.py:120-137 | a full order is topological and proves acyclicity; a short one proves a cycle |
| `Graphs.QueueRanDry` | nps_sdk/nop/validation.py:120-137 | when the queue is empty, either all nodes are ordered or the rest hold a cycle |
| `Graphs.OrderExcludesCycles` | nps_sdk/nop/validation.py:120-137 | a graph with a topological order has no cycle |
| `Scheduler.RunDag` | nps_sdk/nop/orchestrator.py:270-408 | for any choice of completions the loop ends, and its report, states and results are those of the run that saw them |
| `Scheduler.TakeTurn` | nps_sdk/nop/orchestrator.py:289-348 | one turn settles the doomed nodes, starts what may start, and then breaks, aborts or absorbs one arbitrary completion, exactly when the specification says so |
| `Scheduler.CanReach` | nps_sdk/nop/orchestrator.py:789-808 | breadth-first search answers exactly whether a path exists |
| `Scheduler.ShouldAbort` | nps_sdk/nop/orchestrator.py:342-348 | abort exactly when some end node downstream of the failure can no longer get its K |
| `Scheduler.FailDoomed` | nps_sdk/nop/orchestrator.py:297-314 | reading the table while updating it fails the same nodes as reading the table from before |
| `Scheduler.IterationKeepsConsistent` | nps_sdk/nop/orchestrator.py:285-340 | an iteration that neither breaks nor aborts keeps the invariant and settles at least one node |
| `Scheduler.SettledLaunches` | nps_sdk/nop/orchestrator.py:316-322 | only ready nodes with their K start, never twice, never above the limit, and all of them while there is room |
| `SchedulerRuns.EveryRunIsSafe` | nps_sdk/nop/orchestrator.py:285-340 | over every run: nodes start at most once and only with K inputs succeeded, in-flight nodes stay within the limit and apart from settled ones, settled states are write-once, results belong to completed nodes |
| `SchedulerRuns.AbortIsNeverPremature` | nps_sdk/nop/orchestrator.py:342-370 | an abort names an end node that no continuation could bring to its K |
| `SchedulerRuns.IterationMoves` | nps_sdk/nop/orchestrator.py:285-325 | with acyclic inputs and room for one node, every iteration starts or fails something |
| `SchedulerRuns.NoFailureMeansSuccess` | nps_sdk/nop/orchestrator.py:285-408 | without failures the loop never breaks early or aborts, and ends with every node completed or skipped and success reported |
| `SchedulerInputs.InputsMean` | nps_sdk/nop/orchestrator.py:749-786 | on the declared inputs: with `min_required` of zero or less every input must have completed or been skipped, otherwise that many of them; a node is lost when too many have failed for that |
| `SchedulerInputs.IterationMeans` | nps_sdk/nop/orchestrator.py:289-322 | an iteration starts only idle nodes that have their inputs, all of them while there is room, and fails exactly the idle nodes that have lost theirs |
| `SchedulerInputs.EveryStartHadItsInputs` | nps_sdk/nop/orchestrator.py:285-340 | over every run, what was started had its inputs, and what failed without being started had lost them |
| `SchedulerInputs.WaitingIsBusy` | nps_sdk/nop/orchestrator.py:316-330 | whenever the loop waits with room left, every unsettled node that has its inputs is running |
| `SchedulerInputs.AbortsExactlyWhen` | nps_sdk/nop/orchestrator.py:342-348 | a failure aborts the run exactly when an end node it can reach has no inputs or has lost them |
| `SchedulerInputs.AbortIsJustified` | nps_sdk/nop/orchestrator.py:342-370 | no continuation of an aborted run could give the end node it is blamed on its inputs |
| `SchedulerInputs.ResultsAreReturned` | nps_sdk/nop/orchestrator.py:327-340 | over every run a node completes only with the outcome its worker returned, and its result is kept exactly then |
| `SchedulerTrust.SuccessIsTrustworthyExactlyWhenShielded` | nps_sdk/nop/orchestrator.py:285-408 | where nodes need all inputs, edges agree with the inputs and the limit is at least two: a reported success always means that the end nodes succeeded if and only if every other node feeds an end node directly |
| `SchedulerTrust.ChainMisreports` | nps_sdk/nop/orchestrator.py:324-376 | a chain of three whose first node fails is reported successful |
| `SchedulerQuiet.WithoutQuietFailuresSuccessIsReal` | nps_sdk/nop/orchestrator.py:285-408 | for every K and every limit: if no sequence of failures is quiet, a reported success means that the end nodes succeeded |
| `SchedulerQuiet.QuietFailuresMisreport` | nps_sdk/nop/orchestrator.py:285-408 | quiet failures are misreported as success by some run, under every limit above their number |
| `SchedulerQuiet.TrustworthyExactlyWhenNothingIsQuiet` | nps_sdk/nop/orchestrator.py:285-408 | for every K and room for all nodes at once: success can be trusted if and only if nothing is quiet |
| `SchedulerQuiet.RobustMeansTrust` | nps_sdk/nop/orchestrator.py:285-408 | for every K and every limit: it is enough that no set of failures which leaves every end node enough direct inputs blocks an end node |
| `SchedulerQuiet.StrictShieldMeansTrust` | nps_sdk/nop/orchestrator.py:285-408 | for every K and every limit: it is enough that every other node feeds an end node that needs all its inputs |
| `SchedulerQuiet.TriangleMisreports` | nps_sdk/nop/orchestrator.py:324-376 | a K-of-N graph in which every node feeds the end node directly, and which still reports a success that its end node did not have |
| `SchedulerQuiet.TrianglesExist` | nps_sdk/nop/orchestrator.py:324-376 | such a graph: a, b after a, and e after both that needs one of them |
| `Saga.Compensate` | nps_sdk/nop/orchestrator.py:621-688 | every completed node with an action is compensated once, after everything compensated that it leads to over any number of edges; attempted is succeeded plus failed; a strict policy refuses when an action is missing |
| `Saga.ReverseFilterUndoes` | nps_sdk/nop/orchestrator.py:629-653 | filtering a topological order backwards lists the wanted nodes once each, and whatever a node leads to before it |
| `Saga.UndoneMeans` | nps_sdk/nop/orchestrator.py:629-653 | only completed nodes count, and only actions that are not blank |
| `Saga.NotWorkingMeans` | nps_sdk/nop/orchestrator.py:655-688 | the failed ids are those whose compensation did not work, in the order tried |
| `StableTopology.StableOrder` | nps_sdk/nop/portable_profile.py:230-251 | an order exactly when every dependency is known and the graph is acyclic, duplicated dependencies included, and then the least of all topological orders |
| `StableTopology.GreedyIsLeast` | nps_sdk/nop/portable_profile.py:241-250 | taking the least ready node every time precedes every other topological order |
| `PortableSaga.Compensate` | nps_sdk/nop/portable_profile.py:254-298 | exactly the completed ancestors of the failed node with an action are undone, each after all that depend on it, directly or not; strict undoes nothing when an action is missing and stops at the first failure |
| `PortableSaga.MarkedMeans` | nps_sdk/nop/portable_profile.py:283-298 | what was undone is marked by whether that worked, and nothing else changes |
| `PortableSaga.StopsAfterFailure` | nps_sdk/nop/portable_profile.py:283-298 | a strict run stops after the first undo that does not work |
| `PortableSaga.Collect` | nps_sdk/nop/portable_profile.py:265-273 | the depth-first collection adds only ancestors and leaves no dependency of an added node out |
| `PortableSaga.CollectedAreAncestors` | nps_sdk/nop/portable_profile.py:265-273 | collected from nothing, the set is exactly the ancestors |
| `LeaseTable.Evaluate` | nps_sdk/nop/portable_profile.py:396-440 | the loop yields the outcome of every event against the table of all earlier ones |
| `LeaseTable.LeasesExclude` | nps_sdk/nop/portable_profile.py:396-440 | a claim is refused exactly while another runner's latest lease runs, a renewal granted exactly while one's own runs, and every grant lasts 10 to 600 seconds |
| `LeaseTable.ExpiryMeans` | nps_sdk/nop/portable_profile.py:403-425 | a lease lasts as long as was asked for, but at least 10 and at most 600 seconds |
| `LeaseTable.ReclaimedExactlyWhen` | nps_sdk/nop/portable_profile.py:403-416 | a claim takes over exactly a task that was leased before and that nobody holds any more |
| `LeaseTable.QueryExactlyWhen` | nps_sdk/nop/portable_profile.py:431-437 | a query answers terminal exactly when a mark with the same joined key came before |
| `LeaseTable.TerminalMeansMarked` | nps_sdk/nop/portable_profile.py:396-444 | a key is terminal exactly when it was marked before, so a mark is never lost |
| `ConditionMachine.EvaluateCondition` | nps_sdk/nop/condition.py:295-315 | the tokenizer loop and the parser object compute the specified evaluation, never reading past the end token |
| `ConditionMachine.Tokenize` | nps_sdk/nop/condition.py:62-140 | the index loop produces the specified tokens or error on every string |
| `ConditionMachine.Parser.ParseOrExpr` | nps_sdk/nop/condition.py:159-225 | the parser object agrees with the grammar functions, moves forward, and stays inside the tokens |
| `ConditionText.EvaluateWritten` | nps_sdk/nop/condition.py:62-315 | writing any condition, with any white space or none between its tokens, and evaluating the text yields its denotation or its error |
| `ConditionMeaning.ParserComputesDenotation` | nps_sdk/nop/condition.py:143-234 | conditions without a boolean literal left of a comparison, and only those, are read up to the end, with `!` over a comparison, `&&` over `\|\|` |
| `ConditionText.TokenizesAs` | nps_sdk/nop/condition.py:62-140 | tokens spelled out with any gaps, empty ones wherever the next token cannot continue the one before, tokenize back to exactly those tokens |
| `ConditionText.TokensFitTogether` | nps_sdk/nop/condition.py:62-140 | in the tokens of a condition none can continue the one before it |
| `ConditionText.LeadingLiteralWins` | nps_sdk/nop/condition.py:184-208 | whatever a boolean literal is compared with, the literal is the answer |
| `ConditionText.LiteralComparisonMisread` | nps_sdk/nop/condition.py:184-208 | a comparison whose left side is a boolean literal is answered rightly exactly when its denotation happens to be that literal |
| `ConditionText.TrueEqualsFalse` | nps_sdk/nop/condition.py:184-208 | the text `true==false` evaluates to true |
| `ConditionText.BooleanEqualsNumber` | nps_sdk/nop/condition.py:286-292 | evaluating the text of an equality or an inequality gives the documented answer exactly when the two values are not a boolean and its number |
| `ConditionText.TrueEqualsOne` | nps_sdk/nop/condition.py:286-292 | the text `$.ok==1` is true of a result whose field `ok` is the boolean true |
| `ConditionValues.NumbersCompare` | nps_sdk/nop/condition.py:249-268 | the text of a comparison of two numbers gives the comparison of those numbers, for all six operators |
| `ConditionValues.TextsCompare` | nps_sdk/nop/condition.py:249-281 | two texts are compared by the first code point that differs, a proper prefix being smaller |
| `ConditionValues.OthersDoNotCompare` | nps_sdk/nop/condition.py:254-283 | no other two values are ordered either way |
| `ConditionValues.ErrorsSpread` | nps_sdk/nop/condition.py:184-234 | a comparison whose operand has no value is an error |
| `ConditionValues.OperandHolds` | nps_sdk/nop/condition.py:237-246 | a bare operand holds unless it is false, zero, the empty text or null |
| `ConditionValues.BlankHolds` | nps_sdk/nop/condition.py:295-308 | a condition of white space alone holds |
| `ConditionValues.LiteralsRead` | nps_sdk/nop/condition.py:210-220 | a number literal is read as the number it spells, with its fraction and its sign |
| `Common.TextBeforeMeans` | nps_sdk/nop/condition.py:270-281 | the recursive text order is the order by the first code point that differs |
| `FilterAgreement.TranslationAgrees` | nps_sdk/nwp/memory_node_sql.py:93-214 | for every plain filter the fragment, as tokens, keeps a row exactly when the in-memory evaluator selects it |
| `FilterText.TextAgrees` | nps_sdk/nwp/memory_node_sql.py:90-214 | the same for the fragment as text, in both placeholder styles |
| `FilterText.TranslationIsReadBack` | nps_sdk/nwp/memory_node_sql.py:90-214 | the text of every translation, of whatever filter, reads back as its tokens |
| `FilterText.PrintedIsRead` | nps_sdk/nwp/memory_node_sql.py:90-214 | any printed fragment reads back as its tokens: columns, operators and placeholder numbers |
| `FilterText.PrintsJoin` | nps_sdk/nwp/memory_node_sql.py:107-142 | the printed conjunction or disjunction is the joined text of its clauses |
| `FilterText.PrintsNot` | nps_sdk/nwp/memory_node_sql.py:125-142 | a printed negation is NOT and the text of its operand |
| `FilterText.PrintsParentheses` | nps_sdk/nwp/memory_node_sql.py:125-166 | parentheses print around the text of what they hold |
| `FilterText.PrintsComparison` | nps_sdk/nwp/memory_node_sql.py:168-214 | a comparison prints as column, sign and placeholder |
| `FilterAgreement.OrAgreesExactlyWhen` | nps_sdk/nwp/memory_node_sql.py:125-142 | when a disjunction with empty or silent items still agrees with the evaluator |
| `FilterAgreement.NotAgreesExactlyWhen` | nps_sdk/nwp/memory_node_sql.py:125-142 | a negation agrees exactly when its operand is not silent |
| `FilterAgreement.EmptyOperatorMapIsUnreadable` | nps_sdk/nwp/memory_node_sql.py:144-166 | an empty operator map becomes an empty pair of parentheses, which no reader accepts |
| `FilterAgreement.BetweenIsOneSided` | nps_sdk/nwp/memory_node_sql.py:196-202 | the fragment of `$between` keeps the rows in range while the evaluator selects none |
| `Filters.ComparisonsSelect` | nps_sdk/nwp/memory_node_server.py:124-145 | which rows the four ordering operators select, for numbers, for texts and for anything else |
| `Filters.EqualitiesSelect` | nps_sdk/nwp/memory_node_server.py:124-145 | which rows equality and membership select |
| `FilterPlaceholders.PlaceholdersAreDistinct` | nps_sdk/nwp/memory_node_sql.py:210-214 | placeholders are numbered consecutively in order of appearance, one per bound operand, for every filter that translates |
| `FilterTranslator.Translator.TranslateObject` | nps_sdk/nwp/memory_node_sql.py:107-123 | the translator object produces the specified tokens and appends exactly the specified operands to its table |
| `FilterTranslator.Translator.TranslateCondition` | nps_sdk/nwp/memory_node_sql.py:144-202 | the same for the operators of one field |
| `FilterTranslator.Translator.TranslateLogical` | nps_sdk/nwp/memory_node_sql.py:125-142 | the same for `$and`, `$or` and `$not` |
| `MemoryQuery.OrderRows` | nps_sdk/nwp/memory_node_server.py:190-197 | the reversed loop of sorts performs one pass per clause, and fails exactly when a column mixes numbers and texts |
| `MemoryQuery.OrderIsLexicographic` | nps_sdk/nwp/memory_node_server.py:190-197 | the passes give the one arrangement of the rows that is lexicographic in all clauses with ties in original order, nothing lost or added |
| `MemoryQuery.OrderIsByCells` | nps_sdk/nwp/memory_node_server.py:190-197 | on the cells alone: the first clause whose cells differ decides, smaller numbers and texts first, missing cells last, all of it reversed for a descending clause, ties in original order; the result is the one such arrangement |
| `MemoryQuery.UnsortableExactlyWhen` | nps_sdk/nwp/memory_node_server.py:190-197 | ordering fails exactly when a clause meets a number in one row and a text in another |
| `StableSorts.SortRefines` | nps_sdk/nwp/memory_node_server.py:193-197 | a stable sort turns any earlier order into the tie-break of the new one |
| `StableSorts.OrderedIsUnique` | nps_sdk/nwp/memory_node_server.py:193-197 | there is one such arrangement, so the sorting algorithm does not matter |
| `Paging.MemoryPagingExactlyWhen` | nps_sdk/nwp/memory_node_server.py:199-208 | following cursors ends with every row once, in order, exactly when the limit allows progress, and within the number of pages |
| `Paging.SqlPagingExactlyWhen` | nps_sdk/nwp/memory_node_providers.py:74-90 | the same for the provider that fetches one row more than the limit |
| `Paging.FollowCollects` | nps_sdk/nwp/memory_node_providers.py:74-90 | pages put together from any offset are the rest of the result, after exactly as many requests as there are pages |
| `Paging.TrimToBudget` | nps_sdk/nwp/memory_node_server.py:475-484 | the accumulating loop returns the specified prefix and its cost |
| `Paging.TrimIsLongestPrefix` | nps_sdk/nwp/memory_node_server.py:475-484 | that prefix is the longest one within the budget, and all rows exactly when they fit |
| `Paging.BudgetedPagingExactlyWhen` | nps_sdk/nwp/memory_node_server.py:371-391 | following cursors under a budget gives the whole result exactly when no page had to be trimmed |
| `Paging.TrimmedRowsAreLost` | nps_sdk/nwp/memory_node_server.py:377-391 | two rows, a page each, under a budget below one row: rows are lost |
| `Paging.BudgetIsHarmlessExactlyWhen` | nps_sdk/nwp/memory_node_server.py:371-391 | with either provider, cursors under a budget give the whole result exactly when every page fits |
| `Paging.PagesAreBounded` | nps_sdk/nwp/memory_node_providers.py:74-90 | a page has as many rows as asked for and allowed, and fewer only at the end |
| `Paging.TokensAreQuarters` | nps_sdk/nwp/memory_node_server.py:472-479 | a token is four characters, the last one perhaps fewer |
| `Paging.PageIsMeasured` | nps_sdk/nwp/memory_node_server.py:472-473 | a page is measured by the text of its JSON array |
| `CursorCodec.CursorRoundTrips` | nps_sdk/nwp/memory_node_sql.py:325-341 | every offset comes back from its base64 cursor |
| `CursorCodec.LettersAreTheAlphabet` | nps_sdk/nwp/memory_node_sql.py:325-341 | the letters are those of the URL-safe alphabet, each for its value |
| `CursorCodec.SextetsAreBits` | nps_sdk/nwp/memory_node_sql.py:325-341 | three octets and their four sextets are one number, most significant part first |
| `CursorCodec.CursorsAreFaithful` | nps_sdk/nwp/memory_node_sql.py:325-341 | both cursor formats, decimal and base64, give back every offset |
| `CursorCodec.WrittenCursorsCollect` | nps_sdk/nwp/memory_node_server.py:199-208 | following the cursors of either provider as they are written ends with every row once |
| `AnnounceRegistry.RegistryProfile.ApplyAnnounce` | nps_sdk/ndp/registry_profile.py:110-173 | the method performs the admission transition on both tables |
| `AnnounceRegistry.EveryRunIsGood` | nps_sdk/ndp/registry_profile.py:110-173 | over every sequence of announcements the highest sequence never decreases, one digest is ever stored per NID and sequence, and entries sit at their highest sequence |
| `AnnounceRegistry.StepKeepsEntries` | nps_sdk/ndp/registry_profile.py:110-173 | a rejected or duplicate announcement changes nothing |
| `AnnounceRegistry.RemovalHolds` | nps_sdk/ndp/registry_profile.py:145-166 | a removal keeps its NID out until a higher sequence arrives |
| `AnnounceRegistry.AdmittedExactlyWhen` | nps_sdk/ndp/registry_profile.py:110-173 | each decision, by the fields of the announcement, its sequence, digest and freshness, and what was known |
| `AnnounceRegistry.AdmittedIsLive` | nps_sdk/ndp/registry_profile.py:145-173 | what is admitted is live for exactly its time to live, counted from when the node was last seen or from the announcement |
| `AnnounceRegistry.ResolveCluster` | nps_sdk/ndp/registry_profile.py:187-204 | the leader is the one live Anchor of the cluster at the highest epoch; none exactly when the cluster has no live Anchor, split otherwise |
| `EpochGuards.AnchorEpochGuard.CheckInbound` | nps_sdk/nwp/anchor_server.py:142-191 | fence first, for any frame, then the leader check for writes |
| `EpochGuards.AnchorEpochGuard.OnTakeOwnership` | nps_sdk/nwp/anchor_server.py:217-239 | ownership is taken exactly at a strictly greater epoch, and a refusal changes nothing |
| `EpochGuards.OneWriterPerEpoch` | nps_sdk/nwp/anchor_server.py:142-244 | when promotions use epochs above all earlier ones, active Anchors have distinct epochs, one Anchor writes per epoch, and no write stamped above the writer's epoch is admitted, over every run |
| `EpochGuards.FencedStaysSilent` | nps_sdk/nwp/anchor_server.py:157-191 | a fenced Anchor admits no write until it takes ownership again, over every run |
| `EpochGuards.NewerFrameFences` | nps_sdk/nwp/anchor_server.py:157-176 | any frame of a newer owner fences the old one at once and admits nothing |
| `EpochGuards.AnswersExactlyWhen` | nps_sdk/nwp/anchor_server.py:142-191 | fenced by anything newer, silent on writes while it does not lead or lacks its quorum, admitting otherwise |
| `EpochGuards.EventsTell` | nps_sdk/nwp/anchor_server.py:157-239 | being fenced and taking over are each told once, with the owner and epoch they are due to |
| `EpochGuards.AbsentStampIsOne` | nps_sdk/nwp/anchor_server.py:150-160 | a frame without an epoch counts as one of epoch 1 |
| `EpochGuards.ReusedEpochSplits` | nps_sdk/nwp/anchor_server.py:224-232 | without the documented duty of the caller two Anchors write under one epoch |
| `EpochGuards.ResolutionIgnoresOrder` | nps_sdk/ndp/cluster.py:53-81 | resolution does not depend on the order of the members |
| `EpochGuards.OwnerIsUniqueMaximum` | nps_sdk/ndp/cluster.py:53-81 | the owner is the single member at the highest epoch of its cluster, an absent epoch counting as 1, and nobody otherwise |
| `EpochGuards.UnresolvedExactlyWhen` | nps_sdk/ndp/cluster.py:53-81 | no name, no member, or a split at the highest epoch of the cluster |
| `DelegationCache.ClusterDelegationResolver.ResolveActive` | nps_sdk/nop/cluster_delegation.py:71-89 | a hit answers from the cache, a miss stores what was found, a negative answer is not stored |
| `DelegationCache.ClusterDelegationResolver.OnAnchorFailover` | nps_sdk/nop/cluster_delegation.py:93-116 | a failover is applied exactly when its epoch is strictly newer than the cached one or nothing is cached |
| `DelegationCache.StoreRegressesExactlyWhenOvertaken` | nps_sdk/nop/cluster_delegation.py:71-126 | a store makes a cached epoch go back exactly when, between lookup and store, some step wrote that cluster with a greater epoch than the answer and no later one invalidated or lowered it |
| `DelegationCache.MonotonicExactlyWhenInTime` | nps_sdk/nop/cluster_delegation.py:71-126 | over a whole schedule the cache is monotonic exactly when no store comes after a step that overtook its answer |
| `DelegationCache.EpochsNeverDrop` | nps_sdk/nop/cluster_delegation.py:71-126 | over any such schedule a cluster that is not invalidated keeps its entry and its epoch never drops |
| `DelegationCache.AtomicIsInTime` | nps_sdk/nop/cluster_delegation.py:80-88 | calls that run undivided are always in time |
| `DelegationCache.FailoverCanBeForgotten` | nps_sdk/nop/cluster_delegation.py:80-88 | a failover between a lookup and its store is overwritten by the older answer |
| `Wire.HeaderRoundTrips` | nps_sdk/core/frames.py:149-196 | every header that fits its form parses back from its bytes, whatever follows |
| `Wire.ParsedHeaderRewrites` | nps_sdk/core/frames.py:149-196 | a parsed header serialises to the bytes read, exactly unless the reserved bytes were not zero |
| `Wire.FlagsReadBack` | nps_sdk/core/codec.py:344-392 | tier, final and extended flags and the length survive encoding |
| `Wire.HeaderLayout` | nps_sdk/core/frames.py:149-196 | kind, flags and the length in two bytes, or after two zeros in four, most significant first |
| `Wire.FrameLayout` | nps_sdk/core/codec.py:344-392 | a frame byte by byte, and that it is encoded exactly when its payload fits the limit and the length field |
| `Wire.ReceivedExactlyWhen` | nps_sdk/ncp/session.py:22-103 | a frame is received exactly when header and payload are there, its kind is known, and its tier is the negotiated one or, on a query, vectors where enabled; payload and rest are split accordingly |
| `Wire.Session.SendFrame` | nps_sdk/ncp/session.py:79-96 | a frame is written whole when the policy and the codec allow it, and not at all otherwise |
| `Wire.Session.ReceiveFrame` | nps_sdk/ncp/session.py:98-103 | what is returned and what is left unread, for every stream, errors and truncation included |
| `Wire.StreamSplitsAsSent` | nps_sdk/ncp/session.py:22-103 | any concatenation of frames one end may send is split at the same boundaries and accepted by the other |
| `Wire.CleanDrainLosesNothing` | nps_sdk/ncp/session.py:22-103 | a stream taken to its end is the concatenation of what was taken |
| `Wire.RefusedFrameIsSkipped` | nps_sdk/ncp/session.py:98-103 | a frame refused by the policy is consumed whole, so the next one is still found |
| `Wire.DifferentPoliciesClash` | nps_sdk/ncp/encoding_policy.py:37-44 | two different negotiated policies refuse some frame of each other |
| `BinaryVectors.DecodeInvertsAssemble` | nps_sdk/core/codec.py:130-228 | a payload decodes to a content exactly when it is that content's assembly, byte for byte |
| `BinaryVectors.EncodePayload` | nps_sdk/core/codec.py:130-162 | the buffer filled in place is the assembly, and encoding fails exactly when a count or length does not fit its field |
| `BinaryVectors.DecodePayload` | nps_sdk/core/codec.py:183-228 | the offset loop computes the specified content or the first error, without reading out of bounds |
| `BinaryVectors.PayloadLayout` | nps_sdk/core/codec.py:130-162 | magic, version, the two counts, zeros, metadata and segments, each in its place |
| `BinaryVectors.SegmentLayout` | nps_sdk/core/codec.py:154-162 | a segment is the dimension and then the elements |
| `BinaryVectors.ElementLayout` | nps_sdk/core/codec.py:154-162 | each element stands in its own four bytes |
| `BinaryVectors.ElementsAreLittleEndian` | nps_sdk/core/codec.py:154-162 | least significant byte first |
| `PrefixCodes.TakeThenPut` | nps_sdk/core/codec.py:210-228 | what is taken off a concatenation of items puts back together to it |
| `PrefixCodes.PutThenTake` | nps_sdk/core/codec.py:154-162 | items written one after another are taken off again one by one |
| `Handshake.AcceptedExactlyWhen` | nps_sdk/ncp/handshake_profile.py:87-147 | acceptance exactly when versions overlap, a stable encoding and `ncp` are shared and all limits are positive; the announced version is the highest one both ranges contain |
| `Handshake.FirstStableIsPreferred` | nps_sdk/ncp/handshake_profile.py:105-109 | the negotiated encoding is the client's first one that the server has |
| `Handshake.SharedIsIntersection` | nps_sdk/ncp/handshake_profile.py:116-119 | the protocols are the intersection, each once |
| `Handshake.VersionRoundTrips` | nps_sdk/ncp/handshake_profile.py:136-154 | an announced version parses back to itself |
| `Handshake.VersionReadsExactly` | nps_sdk/ncp/handshake_profile.py:150-154 | a version is exactly two runs of digits with one dot between them, read as two numbers |
| `Handshake.VersionsOrder` | nps_sdk/ncp/handshake_profile.py:98-103 | versions are ordered as two-digit numbers in any base above both minor numbers |
| `Handshake.AgreedIsCommon` | nps_sdk/ncp/handshake_profile.py:105-147 | payload and stream limits are the lesser ones, extension support and vectors need both ends, protocols are the shared ones |
| `Handshake.EncodingBlamedExactlyWhen` | nps_sdk/ncp/handshake_profile.py:105-114 | an encoding is blamed exactly when the versions overlap and no stable encoding is shared |
| `Handshake.PolicyFollowsOffers` | nps_sdk/ncp/server.py:74-82 | the session policy is the negotiated encoding, with vectors exactly when both ends offer them |
| `Handshake.BothEndsAgree` | nps_sdk/ncp/server.py:74-94 | the client derives the server's policy from the header and the echoed encodings, and stands at the byte after the capabilities |
| `Handshake.SessionDelivers` | nps_sdk/ncp/client.py:79-107 | from the first byte on, everything the server sends after accepting is received frame by frame |
| `Handshake.SessionReceives` | nps_sdk/ncp/session.py:79-103 | everything the client may send under the policy it derived is received by the server frame by frame |
| `Merkle.VerifyInclusion` | nps_sdk/nip/reputation.py:461-491 | the loop accepts exactly when everything decodes and the fold along the index bits is the root |
| `Merkle.SmallRoots` | nps_sdk/nip/reputation.py:461-491 | the hashes of one, two and three leaves, written out with their prefixes |
| `Merkle.HighBitsAreIgnored` | nps_sdk/nip/reputation.py:479-486 | index bits beyond the path length do not matter |
| `Merkle.SidesAreBitsAtFullHeight` | nps_sdk/nip/reputation.py:479-486 | the sides of a leaf's honest path are its index bits exactly when the leaf is at full height |
| `Merkle.FullHeightPathsAreAccepted` | nps_sdk/nip/reputation.py:461-491 | the honest path of a leaf at full height is accepted, in a tree of any size |
| `Merkle.PerfectTreesAreAccepted` | nps_sdk/nip/reputation.py:461-491 | in a tree of 2^k leaves every honest path is accepted |
| `Merkle.ShortPathsAreRejected` | nps_sdk/nip/reputation.py:461-491 | below full height the honest path is rejected, short of a collision or two equal siblings |
| `Merkle.ThreeLeaves` | nps_sdk/nip/reputation.py:461-491 | the last of three leaves is such a leaf |
| `Merkle.AcceptanceProvesMembership` | nps_sdk/nip/reputation.py:461-491 | for any entry, index and path: what is accepted is the leaf whose sides are the low bits of the index, or exhibits a collision; it is the leaf at that index exactly when the index is in range and the path is as long as the tree is high |
| `Merkle.PositionExactlyWhen` | nps_sdk/nip/reputation.py:479-486 | a leaf whose sides are the index bits sits at that index exactly when the index is in range and the path has full height |
| `Merkle.AcceptedAtWrongIndex` | nps_sdk/nip/reputation.py:461-491 | the last of three leaves is accepted at index 1 |
| `Merkle.EmptyTreeHoldsNothing` | nps_sdk/nip/reputation.py:461-491 | nothing is accepted against the root of the empty tree without a collision |

## Left out

- HTTP, ASGI, sockets, TLS, DNS, callback delivery and every other I/O path.
- Ed25519, AES-GCM, X.509, ACME, JSON and MessagePack internals: parameters here, constrained only where an inverse is needed.
- Per-vector policy files, frame dataclasses, manifests, telemetry and header gates: single decisions without state, easy members only.
- The orchestration transcript, aggregation and delegation scope checks of the portable profile: scripted, mostly one-branch decisions.
- Context store: clock readings, reservation ids and context id draws are inputs; a reservation handle is compared by value and not by identity; `descriptor` and `snapshot` copy fields and are not modelled.
- ContextStoreRuns.EveryRunIsGood: assumes that a newly drawn reservation id is not one that is still running, which random UUIDs provide.
- Scheduler.RunDag: retries, timeouts and preflight are folded into the arbitrary outcome of a node; outcomes drained after an abort are not recorded, as in the source; the task store's bookkeeping is not modelled.
- SchedulerTrust.SuccessIsTrustworthyExactlyWhenShielded: for nodes that need all inputs (`NeedsAll`), edges that agree with the declared inputs (`EdgesAgree`, because cycle checking and scheduling read different fields) and a limit of two or more; `SchedulerQuiet` has the other K.
- SchedulerQuiet.TrustworthyExactlyWhenNothingIsQuiet: exact with room for all nodes and for a K of at most the number of inputs; under a smaller limit the sufficient half holds as it is, and the necessary half for quiet failures fewer than the limit.
- Saga.Compensate: takes the validator's order as given; whether a single compensation works is an input.
- ConditionText.EvaluateWritten: numbers are exact reals, and letters and digits outside ASCII are not classified.
- FilterText.TextAgrees: column names without double quotes, which the source does not escape; SQL Server's bracket quoting is not printed; booleans as operands and `$contains` are not covered.
- Filters: an operand of `$and` or `$or` that is not an array counts as empty for the evaluator, where the source raises.
- MemoryQuery.OrderRows: the comparison `dir.upper() == "DESC"` is an input; sorting is modelled as insertion sort, which `StableSorts.OrderedIsUnique` makes immaterial.
- Paging.SqlPagingExactlyWhen: takes the database to return one fixed ordered result, and limits that are not negative; databases differ on negative ones. Any cursor format that gives back every offset will do, which `CursorCodec.CursorsAreFaithful` provides.
- CursorCodec.CursorsAreFaithful: cursors nobody wrote are read as offset 0 where the source may accept other JSON documents or skip letters outside the alphabet.
- LlmStream.CoordinateStream: the asynchronous generator is run to its end against given events; cancellation is one of them.
- AnnounceRegistry: bridge discovery and the listing of live NIDs; the canonical form is any function of the signed part, and the cluster, epoch and roles of a frame are any functions of it.
- DelegationCache.MonotonicExactlyWhenInTime: a caller does not start a lookup while it still has an answer to store.
- EpochGuards: stream closing and event callbacks.
- Wire: the end-to-end encryption flag is read and never set; the negotiated payload limit and extension flag are not enforced by the session, as in the source.
- BinaryVectors.EncodePayload: vector elements are float32 bit patterns; rounding a double to float32 and the marker objects inside the metadata are not modelled.
- Handshake: preamble and timing checks; digits outside ASCII in version numbers.
- Merkle.VerifyInclusion: base64 decoding is an input that may fail; signatures of tree heads are not modelled.
