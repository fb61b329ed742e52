# Model of flowforge's scheduler, wire formats, templates and pool

This project models the parts of flowforge whose correctness is hard to see from any one function, and
proves what those parts are for.

* **The scheduler** (`Graphs`, `Engine`, `Frontiers`, `Scheduler`, `Histories`, `RunTheorems`, `Routing`,
  `Endings`, `CrashRecovery`, `Levels`, `GraphBuild`, `WaveLevels`, `WaveWidth`, with witnesses in `Examples`
  and `WideWave`, and the order of identifiers in `Ordering`). A graph is any validated DAG; what a node does is an arbitrary function of its predecessors'
  outputs and the variable pool. `Engine` gives the meaning of one wave, one save and one resume as relations
  between values; `Scheduler` holds the loops of the engine (`_settle`, `_drain_settles`, the gather with
  every interleaving, `_drive`, `resume`) as methods proved against those relations, with the class `RunState`
  as the object they update. `Histories`, `RunTheorems` and `CrashRecovery` are about whole runs: any sequence
  of waves, saves, pauses, crashes and resumes. `Routing` and `Endings` tell from outcomes, records and labels
  alone which record a node is left with, where its edges lead and how a run ends.
* **The Kafka codec** (`Octets`, `Dicts`, `Registers`, `Crc32c`, `Varint`, `RecordBatch`,
  `BatchTheorems`, `BatchHeaders`) and **the event sink** (`Sinks`). The CRC is the Castagnoli polynomial of section 12.1 of
  RFC 3720; the layout is that of sections 5.3.1 and 5.3.2 of the Apache Kafka documentation.
* **Templates** (`Values`, `Paths`, `Variables`, `Templates`, `TemplateTheorems`, `References`): the lookup of a
  path, the reference interpreter, the compiler and its plans. `Paths` and `References` also say what a path finds
  and what a text with references reads, without walking or scanning.
* **The connection pool** (`Pool`, `PoolClosing`, `ConnectionPools`): a state machine cut at the awaits, and a
  class with one method for each stretch between two awaits.
* **Framing** (`Framing`): event-stream messages and Server-Sent Events from chunks cut anywhere.

Concurrency is modelled by nondeterminism at the awaits: between two awaits a task runs undisturbed, at
an await any other task may run. Python's unbounded integers are Dafny's `int`; shifts, `^` and `|` on
them are written out in `Varint`. Slices and negative indices follow Python's rules (`Octets.Slice`,
`Octets.At`). Error messages are kept as data: the values a message names, not its wording.

## Where the code and its documentation differ

The model follows the code.

* `_state_from_checkpoint` rebuilds the outputs handed to successors from COMPLETED records only, while the
  live run also keeps those of a failure that was routed to an error edge. `RunTheorems.RestoreExact` says
  exactly when a restore shows every undecided node what the live run would have shown it, and
  `Examples.RecoveredFailureForgotten` gives a run in which it does not.
* The same function never restores the namespace `inputs`, although a node may have that id
  (`Examples.ShadowedInputsRestored`). The theorems about whole histories therefore assume that none has
  (`RUN_NAMESPACE !in g.nodes`), and `RestoreExact` has the clause that decides it.
* `_apply_error_strategy` says that a recovered node still reports FAILED; with a default output it reports
  COMPLETED.
* `CycleError` names the nodes on a cycle and all nodes downstream of one (`GraphBuild.TopologicalOrder`).
* `max_width` is not a bound on a wave: a skipped branch lets nodes run before their level
  (`WideWave.WiderThanEveryLevel`: one wave from the start, three nodes are due, and no level has more than two).
  `WaveWidth.WaveExact` gives the wave in which a node is decided, and `WaveWidth.WidthExact` says exactly for which
  numbers, `max_width` or another, no wave of any run without questions is larger: those that no assignment of
  outcomes to the nodes exceeds. On a graph without labelled edges `max_width` is one
  (`WaveLevels.UnlabelledWithinWidth`).
* `encode_varint` documents no range. A value comes back exactly from -2^63 up to, not including, 2^69
  (`Varint.VarintRoundTrip`); so a record more than 2^63 milliseconds older than its batch's first timestamp
  does not (`BatchTheorems.EncodedRoundTrip`).
* A fallback in a template covers whatever is missing, but not an index that passes `isdigit` and that `int`
  refuses: `--5`, a superscript, or more digits than the interpreter converts (`TemplateTheorems.UnreadableIndices`).
  Nor does it cover a value that was found and cannot be printed into a text, such as an integer of more digits than
  `str` converts (`TemplateTheorems.LongNumberUnprintable`). `TemplateTheorems.FallbacksCover` has both conditions.
* A fallback is documented to be JSON or else a bare string. For, say, an integer of too many digits `json.loads`
  raises a ValueError that `_literal` lets through, and the compiler parses every fallback, the interpreter only
  those it needs. The compiled form and the interpreter then differ (`TemplateTheorems.RefusedThoughResolved`), and
  `TemplateTheorems.CompilerCorrect` says exactly when they do not.
* The pool can exceed `max_size` while `close` is still closing: an acquire already under way finds no idle
  connection and opens a new one (`Pool.ClosingOverruns`). The lock serves its waiters in the order of arrival, so
  those at the lock before the `close` still take idle connections out. The bound can be exceeded exactly if they
  leave some, and these, the tasks that then have a socket and all who wait for a permit are more than `max_size`
  (`PoolClosing.CallingClose`; `PoolClosing.ClosingBounded` says it for the moment of the sweep).

## Model

| member | source | states |
|---|---|---|
| GraphBuild.Build | flowforge/graph.py:51-93 | the constructor accepts exactly lists of nodes and edges without defect, keeps their order, and otherwise reports a defect that is there |
| GraphBuild.CheckEdges | flowforge/graph.py:71-91 | every edge has known, different ends and stands once, or the reported edge breaks that rule |
| GraphBuild.CountDown | flowforge/graph.py:195-203 | counting down a node's edges lowers each counter by the number of edges to it and lists, once each, the counters that reach zero |
| GraphBuild.TopologicalOrder | flowforge/graph.py:188-206 | succeeds exactly on acyclic graphs, with a permutation whose edges all point forward; otherwise names exactly the nodes on or below a cycle |
| GraphBuild.Round | flowforge/graph.py:219-228 | one round turns level k into level k + 1 and keeps the counters exact |
| GraphBuild.MaxWidth | flowforge/graph.py:233-236 | the size of the widest level, zero for the empty graph; it fails exactly on a cycle |
| GraphBuild.Waves | flowforge/graph.py:208-231 | level k holds exactly the nodes whose longest path from a root has k edges, and every node has a level |
| Levels.EndsPathMeansPath | flowforge/graph.py:208-231 | the recursive notion of a path of k edges ending at a node is that of a sequence of nodes along edges |
| Levels.LongPathMeansCycle | flowforge/graph.py:204-205 | a path as long as the graph has nodes runs through or below a cycle |
| Frontiers.FailureVerdict | flowforge/engine.py:785-809 | a failure is fatal exactly if no strategy absorbs it; an absorbed one is still FAILED exactly if it is routed, and COMPLETED with the configured output otherwise; both show the error to the successors; a routed one takes the error edges, at least one of them, and no other |
| Frontiers.BranchLeadsOn | flowforge/engine.py:811-824 | a node that completes on a branch takes an edge of that branch; one that completes without never takes the edge kept for its failure |
| Frontiers.InitialFrontier | flowforge/engine.py:236-250 | a new run starts with exact counters and exactly the roots in the queue |
| Frontiers.OffWorklist | flowforge/engine.py:745-754 | taking a settled node off the worklist counts exactly its outgoing edges, and as taken exactly those it takes |
| Frontiers.FrontierJustified | flowforge/engine.py:515-543 | between waves a node is skipped only with every source settled and no edge taken, and has run only as a root or along a taken edge |
| Frontiers.DrainedUnique | flowforge/engine.py:515-543 | whatever order the worklist is drained in, the records, counters and queue end the same |
| Routing.WaveOutcomes | flowforge/engine.py:318-436 | a node executed in a wave sees the outputs its completed predecessors published; its outcome alone, its policy and the labels of its edges decide its record; its question is kept, its outputs are published if it ran, and the run fails for exactly the failures nothing absorbs, in batch order |
| Routing.FateOfNode | flowforge/engine.py:712-754 | in every frontier of every run that pauses, crashes and resumes: a node with an unsettled predecessor is pending and not ready; any other is skipped if and only if it has incoming edges and each comes from a skipped node, from a routed failure whose error label it does not carry, or from a completed node that chose another label than this edge's, or chose none where this is its error edge; the rest are ready until executed |
| Ordering.TextAtMostIff | flowforge/engine.py:249 | identifiers are ordered by prefix or the first differing code point, the smaller first |
| Scheduler.Settle | flowforge/engine.py:712-754 | one node's edges each lower their target's counter, credit it if taken, and unlock exactly the counters that pass through zero |
| Scheduler.Decide | flowforge/engine.py:524-542 | an unlocked node is kept if an edge to it was taken and skipped onto the worklist if none was; the invariant of the drain is kept |
| Scheduler.Drain | flowforge/engine.py:515-543 | from exact counters with a worklist to exact counters without one, changing records only by skipping |
| Scheduler.Unblock | flowforge/engine.py:439 | draining and extending the sorted queue gives again an exact frontier |
| Scheduler.Upstream | flowforge/engine.py:323-326 | a node is given the outputs of exactly those predecessors that have any |
| Scheduler.Gather | flowforge/engine.py:318-416 | for every interleaving of a wave's executions the same state results, with never more than `max_concurrency` of them at once |
| Scheduler.Collect | flowforge/engine.py:421-436 | after the gather, and only then, outputs are published; failures for good and settled nodes are listed in batch order |
| Scheduler.RunWave | flowforge/engine.py:410-447 | one turn of the loop is one wave step; without failure the frontier is exact again and fewer nodes are pending |
| Scheduler.Turn | flowforge/engine.py:410-447 | the same with the per-wave checkpoint of a durable run |
| Scheduler.DriveLoop | flowforge/engine.py:410-494 | the loop ends and its trace is a sequence of waves; the run is reported failed exactly if some record failed and was not absorbed, paused exactly if none did and some record is paused, and, the graph being acyclic, completed exactly if every node ran, was stepped around or was skipped; only a paused run leaves a checkpoint, that of its last state, which awaits exactly the paused nodes and can be resumed; any other end deletes a durable run's |
| Scheduler.Conclude | flowforge/engine.py:457-494 | after the loop: the status told from the records as for `DriveLoop`, a paused run saved, a finished durable run's checkpoint deleted |
| Endings.EndVerdict | flowforge/engine.py:468-473 | the status computed from the failure list and the open questions is the one the records call for |
| Scheduler.Reopen | flowforge/engine.py:252-292 | resume refuses exactly when an answer is missing, naming the missing ones; otherwise it answers all paused nodes and drains |
| Scheduler.RunState.DrainSettles | flowforge/engine.py:515-543 | the drain, on the run's own fields |
| Scheduler.RunState.Resume | flowforge/engine.py:252-292 | resume on the run's own fields; with an answer missing nothing changes |
| Scheduler.RunState.Drive | flowforge/engine.py:294-494 | the driving loop on the run's own fields, with the same verdict and the same checkpoint left behind |
| Scheduler.RunState.ResumeRun | flowforge/engine.py:252-292 | what a paused run leaves behind is all that resuming it needs: given an answer to every question it goes on and ends with the verdict and checkpoint of `DriveLoop`, otherwise it refuses and nothing changes; so a run pauses and resumes any number of times |
| RunTheorems.WaveUnique | flowforge/engine.py:318-441 | schedule independence: from a given state a wave can end in one state only |
| RunTheorems.ResumeUnique | flowforge/engine.py:252-292 | a resume leaves no choice either |
| Histories.Agreement | flowforge/engine.py:410-447 | two sound states agree on the record of every node settled in both, whatever led to them |
| Histories.WaveKeeps | flowforge/engine.py:410-447 | a wave keeps the records explained by the nodes' behaviour, and settles no node twice |
| Histories.ResumeKeeps | flowforge/engine.py:252-292 | a resume keeps them too, under the two conditions on what a restore forgets |
| RunTheorems.HistoryKeeps | flowforge/engine.py:252-292 | after any sequence of waves, saves, pauses, crashes and resumes the state and the checkpoint are explained by the nodes' behaviour |
| RunTheorems.NothingRedone | flowforge/engine.py:441-447 | whatever the nodes do and however the run crashes and resumes: no node that the surviving checkpoint records as settled is dispatched again, and none at all that has a record |
| RunTheorems.NoJoinStranded | flowforge/engine.py:410-473 | when the loop exits without failure, the unsettled nodes are exactly the awaiting ones and their descendants |
| RunTheorems.SkippedMeansUnreachable | flowforge/engine.py:515-543 | in a completed run the executed nodes are the least set with the roots closed under taken edges, and the skipped ones its complement |
| RunTheorems.HistoriesEndAlike | flowforge/engine.py:441-447 | crash recovery: if one history of deterministic nodes completes, no other fails, and every other that completes ends with the same records, pool and counters |
| CrashRecovery.SameWavesSameState | flowforge/engine.py:441-447 | whatever crashed and was resumed from checkpoints that await nothing: after the same number of waves the state is the same, wave numbers and questions included; only `completed_outputs` may differ, and not for a completed node |
| CrashRecovery.CrashesLeaveNoTrace | flowforge/engine.py:441-447 | a run that crashes and so resumes any number of times ends, completed, failed or paused, in the state of the run that never did, after as many waves |
| RunTheorems.PausesAreTransparent | flowforge/engine.py:252-292 | a run paused and resumed any number of times ends as the run in which every question is answered at once, and that run completes |
| RunTheorems.CountersAlwaysExact | flowforge/engine.py:515-543 | after any sequence of waves, saves, crashes and resumes without a failure for good, whatever the nodes do, the counters are exact |
| RunTheorems.EdgesCountedOnce | flowforge/engine.py:745-754 | over any sequence of waves, saves, pauses, crashes and resumes: from a state that has survived to a later one exactly the edges are counted down, and credited if taken, whose source was settled in between |
| RunTheorems.CountersAddUp | flowforge/engine.py:745-754 | the counters add up to the edges whose source is unsettled |
| RunTheorems.CountdownsAreEdges | flowforge/engine.py:745-754 | over a completed run the count-downs total the number of edges |
| RunTheorems.RestoreExact | flowforge/engine.py:572-609 | saving and restoring shows every undecided node the same predecessors and pool if and only if no routed failure has an undecided successor and the pool still holds the run's inputs |
| Examples.RecoveredFailureForgotten | flowforge/engine.py:595-596 | a reachable state in which a restore hides a routed failure from the node that was to handle it |
| Examples.ShadowedInputsRestored | flowforge/engine.py:573-576 | a reachable state of a graph with a node called `inputs` in which a restore puts the run's inputs in the place of that node's outputs |
| WaveLevels.BatchIsAntichain | flowforge/engine.py:410-420 | no two nodes of one wave are connected by a path |
| WaveLevels.WavesWithinLevels | flowforge/graph.py:208-231 | without pauses, failed or not, a node of level k is decided in wave k + 1 at the latest, earlier only below a skipped node, and there are no more waves than levels |
| WaveLevels.WavesAreLevels | flowforge/graph.py:208-231 | where every node has run, the nodes of wave k + 1 are exactly those of level k |
| WaveLevels.WaveWithinWidth | flowforge/graph.py:233-236 | without pauses, a wave no node of which lies below a skipped one is part of one level and no larger than `max_width` |
| WaveLevels.UnlabelledWithinWidth | flowforge/graph.py:233-236 | on a graph without labelled edges no wave is larger than `max_width` |
| WaveWidth.WaveExact | flowforge/engine.py:410-439 | without pauses, failed or not, a root is decided in the first wave and any other node with the last of its predecessors if it is skipped, one wave later if not |
| WaveWidth.DecidedAsPlanned | flowforge/engine.py:515-543 | whether and in which wave a node is skipped or run follows from the outcomes of the nodes before it alone |
| WaveWidth.PlanRuns | flowforge/engine.py:410-441 | every assignment of outcomes without questions and fatal failures is that of a run, wave by wave |
| WaveWidth.WidthExact | flowforge/graph.py:233-236 | all runs without questions keep every wave to a given width if and only if no assignment of outcomes to the nodes makes more nodes due in one wave |
| WideWave.WiderThanEveryLevel | flowforge/graph.py:233-236 | a graph and its first wave after which more nodes are due than any level has |
| Crc32c.BuildTable | flowforge/kafka.py:78-85 | entry i is the register after eight shifts of i |
| Crc32c.Checksum | flowforge/kafka.py:91-108 | the table-driven loop computes the bit-serial Castagnoli register on every input |
| Crc32c.RegisterAppend | flowforge/kafka.py:105-108 | feeding two parts is feeding the second from where the first left the register |
| Crc32c.BurstDetected | flowforge/kafka.py:91-108 | two texts of one length that differ, but only inside four consecutive bytes, never share a checksum |
| Crc32c.CheckValue | tests/test_kafka.py:55-67 | the published check value: the checksum of `123456789` is 0xE3069283, that of nothing 0 |
| Varint.EncodeVarint | flowforge/kafka.py:114-125 | the loop yields the base-128 groups of the zigzag value |
| Varint.DecodeVarint | flowforge/kafka.py:128-140 | the loop reads at most ten groups as one number, or fails on a missing byte or an eleventh group |
| Varint.VarintRoundTrip | flowforge/kafka.py:114-140 | wherever the encoding stands, decoding gives the value and stops right behind it, if and only if it is at least -2^63 and below 2^69 |
| Varint.ZigzagOf | flowforge/kafka.py:116 | down to -2^63 zigzag interleaves the negative and the other numbers |
| Varint.UnzigzagByXor | flowforge/kafka.py:140 | the decoder's shift and xor undo that interleaving |
| Varint.EncodedLength | flowforge/kafka.py:114-125 | the encoding has at most k bytes exactly if the zigzag value is below 128^k |
| Varint.EncodedLengthBound | flowforge/kafka.py:114-125 | a 64-bit value takes at most ten bytes |
| Varint.AcceptedReadsTenAtMost | flowforge/kafka.py:128-140 | an accepted decode reads at least one byte and no more than its groups |
| Octets.FieldRead | flowforge/kafka.py:255-266 | a number in a signed field's range survives packing and unpacking |
| RecordBatch.EncodeRecord | flowforge/kafka.py:239-252 | the layout of one record |
| RecordBatch.EncodeRecordBatch | flowforge/kafka.py:225-266 | the layout of the batch, or the error for no records or a number out of its field's range |
| RecordBatch.DecodeRecord | flowforge/kafka.py:295-328 | one record is read as specified, error by error |
| RecordBatch.DecodeBatch | flowforge/kafka.py:284-328 | magic, checksum and fields are checked in this order before the records are read |
| RecordBatch.DecodeRecordBatches | flowforge/kafka.py:269-329 | the loop over a fetch reads batch after batch and stops at a short tail |
| BatchTheorems.EncodedRoundTrip | flowforge/kafka.py:225-329 | keys (None kept apart from empty), values and headers come back, offsets count from zero, a zero timestamp becomes the first; if and only if no record is more than 2^63 older than the first |
| BatchTheorems.TruncatedFetch | flowforge/kafka.py:269-285 | encoded batches under any base offsets, cut at any byte, decode to exactly the records of the batches wholly before the cut |
| BatchTheorems.RebasedFetch | flowforge/kafka.py:280 | rewriting the base offset shifts the offsets and changes nothing else |
| BatchTheorems.DamageNoticed | flowforge/kafka.py:286-288 | any change inside four consecutive bytes from the attributes on makes the decoder reject the fetch, whatever stands before and behind |
| BatchTheorems.RecordMisread | flowforge/kafka.py:296-323 | a delta below -2^63 is never read back |
| BatchHeaders.HeaderStates | flowforge/kafka.py:254-266 | every encoded batch, field by field: its length, epoch, magic, checksum, zero attributes of batch and records, last offset delta, first timestamp, the latest timestamp (no record's is later, and it is the first or some record's), minus one for the transaction fields, and the count |
| BatchHeaders.HeaderMatchesRecords | flowforge/kafka.py:225-329 | what decoding the same bytes returns, spelled out record by record, against the header: the last offset delta is the last record's offset, the latest timestamp the largest of them and the first |
| BatchHeaders.ChecksumBytes | flowforge/kafka.py:263 | the checksum is written high byte first |
| BatchHeaders.BatchVerdict | flowforge/kafka.py:283-290 | which error a malformed batch gives, in the order of the checks, and that any other goes on to its records |
| BatchHeaders.TombstoneRead | flowforge/kafka.py:295-328 | a record with a null value, whatever its attributes, is read with an empty value, and the next begins where its length says |
| BatchHeaders.NullHeaderRead | flowforge/kafka.py:309-318 | a header with a null value is read as an empty one |
| Dicts.PutNew | flowforge/kafka.py:318 | writing a new key to a dict appends it |
| Dicts.PutPresent | flowforge/variables.py:318-322 | overwriting a key leaves its place and everything else |
| Sinks.KafkaEventSink.Call | flowforge/kafka.py:694-716 | a call up to its first await, or all of it |
| Sinks.KafkaEventSink.Started | flowforge/kafka.py:703-716 | the rest of a call that had to connect: queued, or counted as dropped |
| Sinks.KafkaEventSink.Sent | flowforge/kafka.py:738-755 | a batch is counted as published or as dropped, and `_idle` is set if nothing is queued |
| Sinks.ExactlyOnePlace | flowforge/kafka.py:694-755 | every event that called is in exactly one place: published, dropped from a batch, in hand, queued, in its call, or refused |
| Sinks.CountersExact | flowforge/kafka.py:757-770 | published and dropped are the numbers of events published and dropped, and with those under way they account for all |
| Sinks.ArrivalsAccepted | flowforge/kafka.py:694-716 | the events that the calls of a run appended to the queue, in this order, are those published, dropped from a batch, in hand and queued, in this order |
| Sinks.DeliveredInOrder | flowforge/kafka.py:722-755 | the batches produced over a run, one after the other, are a subsequence of the events its calls appended to the queue |
| Sinks.IdleMeansDone | flowforge/kafka.py:711-742 | `_idle` is set exactly while nothing is queued or in hand |
| Sinks.BatchesBounded | flowforge/kafka.py:722-755 | each batch has between one and `batch_size` records, and the queue keeps its bound |
| Sinks.FlusherProceeds | flowforge/kafka.py:722-742 | while anything is queued or in hand the flusher can move, and each of its moves leaves it less to do |
| Variables.VariablePool.Lookup | flowforge/variables.py:102-129 | the loop with its dict shortcut gives the one outcome `Paths.Found` allows: object segments lead to the value under the key, list segments to the item with the number they write in decimal, counted from the end behind a dash; otherwise the error of the first segment that leads nowhere, with the segments before it |
| Paths.LookedMeansFound | flowforge/variables.py:102-155 | the walk and that account of it agree on every path, in both directions |
| Paths.DecimalIndex | flowforge/variables.py:138-149 | a list read at the decimal text of k gives item k, at a dash and that text the k-th from the end, and out of range exactly beyond its length |
| References.AloneGives | flowforge/variables.py:184-197 | a string that is one reference, in any white space, gives the value its path finds, with its type, or its fallback if that is not empty and the path is missing |
| References.TextResolves | flowforge/variables.py:184-197 | any text of brace-free pieces and references is read piece by piece: the pieces stay, each reference becomes what it gives as a text, and the first trouble is the result |
| TemplateTheorems.NextMatchIsLeftmost | flowforge/variables.py:38 | the scan finds the leftmost `{{`, brace-free text, `}}` |
| Templates.CompileString | flowforge/variables.py:365-392 | the parts loop yields the plan of the string, or raises for its first fallback that cannot be parsed |
| Templates.RenderMapping | flowforge/variables.py:314-322 | copying the base and overwriting the open keys, in order, stopping at the first error |
| Templates.RenderSequence | flowforge/variables.py:328-339 | the same for lists and tuples |
| Templates.RenderPlan | flowforge/variables.py:242-339 | rendering, for each kind of plan |
| TemplateTheorems.ReferenceAgrees | flowforge/variables.py:260-284 | the two-segment shortcut and the fallback parsed ahead change nothing |
| TemplateTheorems.PartsAgree | flowforge/variables.py:287-299 | joining the rendered parts is substituting the matches |
| TemplateTheorems.OverwriteAgrees | flowforge/variables.py:302-322 | overwriting the open keys of a dict resolves its fields, in order and with the first error |
| TemplateTheorems.CompileRaises | flowforge/variables.py:342-392 | compiling raises exactly if some fallback cannot be parsed, and for the first such in the order of the text |
| TemplateTheorems.CompilerCorrect | flowforge/variables.py:342-361 | for every value and every pool, compiling and rendering is what the reference interpreter resolves, error or not, if and only if every fallback can be parsed or the first trouble with any reference, printing included, is to fall back on the first that cannot |
| TemplateTheorems.RefusedThoughResolved | flowforge/variables.py:265-266 | a value the interpreter resolves and the compiler refuses |
| TemplateTheorems.StaticMeansNoReference | flowforge/variables.py:342-392 | a plan is static if and only if no reference stands in the value |
| TemplateTheorems.NothingToResolve | flowforge/variables.py:168-182 | a value without references resolves to itself |
| TemplateTheorems.KeysKept | flowforge/variables.py:176-177 | a resolved object has the keys of the original in their order |
| TemplateTheorems.FirstErrorWins | flowforge/variables.py:168-197 | resolving raises the error of the first reference, in the order of the text, that cannot be looked up or, inside a text, whose value cannot be printed, and none if there is no such |
| TemplateTheorems.FallbacksCover | flowforge/variables.py:138-145 | if every reference carries a fallback, resolving fails if and only if some reference's path leads to a list at a segment of digits behind two or more dashes, with a digit that has no decimal value, or with too many digits, or a value inside a text cannot be printed |
| TemplateTheorems.LongNumberUnprintable | flowforge/variables.py:46-56 | such a value, with a fallback beside it |
| TemplateTheorems.UnreadableIndices | flowforge/variables.py:138-145 | two such segments: a doubled sign and a superscript |
| Pool.SafeKept | flowforge/pool.py:108-154 | every step of every task keeps the invariant: permits, counts and owners |
| Pool.SocketsBounded | flowforge/pool.py:108-154 | never more than `max_size` sockets, besides those a close is still closing |
| Pool.OpenPoolBounded | flowforge/pool.py:108-147 | never more than `max_size` sockets at all before `close` is called |
| Pool.ClosingOverruns | flowforge/pool.py:149-154 | a run of a pool of one with two sockets while it is closing |
| PoolClosing.ClosingBounded | flowforge/pool.py:149-154 | when a first close sweeps, every continuation stays within `max_size` if and only if there are no idle connections or there is room, besides them and the tasks with a socket, for the tasks behind it at the lock in their order and then for those without a permit |
| PoolClosing.CallingClose | flowforge/pool.py:149-154 | calling `close` on any open pool, every continuation stays within `max_size` if and only if the tasks now at the lock leave no idle connection over, or there is room for those they leave, for all that then have a socket and for all who wait for a permit |
| Pool.OneHolder | flowforge/pool.py:108-147 | no connection has two holders, or is held and idle |
| Pool.NoPermitLost | flowforge/pool.py:132-147 | when all tasks have left, all permits are back and nothing counts as in use |
| Pool.StatsBalance | flowforge/pool.py:108-147 | created minus discarded is idle plus handed out, until a close takes the idle ones over |
| Pool.SweptStaysEmpty | flowforge/pool.py:138-154 | once some close has swept, the idle list stays empty, however many closes follow |
| Pool.InUseIsExact | flowforge/pool.py:132-140 | `_in_use` counts the tasks connecting, failing, holding or returning, and never has to be clamped |
| Pool.UsesBounded | flowforge/pool.py:100-106 | nobody is handed a connection beyond `max_uses` |
| Pool.NoDeadlock | flowforge/pool.py:108-154 | if nothing inside the pool can move, who waits does so for a permit, and all permits are with holders |
| ConnectionPools.ConnectionPool.Check | flowforge/pool.py:114-129 | one turn of the checkout loop: the last idle connection is handed out with one more use, unless it is dead, worn out, or stale while more than `min_size` are idle |
| ConnectionPools.ConnectionPool.PutBack | flowforge/pool.py:138-146 | back to the idle list exactly if reusable, open and alive |
| ConnectionPools.ConnectionPool.Sweep | flowforge/pool.py:149-154 | close takes over the whole idle list |
| Framing.TakeFrameStable | flowforge/providers.py:497-512 | a frame that is there, or seen to be broken, stays so when more bytes follow |
| Framing.ParseResumes | flowforge/providers.py:479-494 | parsing what there is and going on later is parsing everything at once |
| Framing.EventStreamPayloads | flowforge/providers.py:479-494 | for every split into chunks: the payloads, the error and the unread rest are those of the joined bytes |
| Framing.FrameVerdict | flowforge/providers.py:497-512 | a frame is taken exactly if one with both checksums right stands at the front; the parser waits exactly while the stated lengths are plausible and the bytes not there; otherwise it names the first thing wrong |
| Framing.HeadersReadBack | flowforge/providers.py:515-523 | a block of headers whose lengths count bytes can be read back |
| Framing.FrameTaken | flowforge/providers.py:497-528 | an encoded frame is taken off whole, and what follows it is left |
| Framing.EncodedFramesParse | flowforge/providers.py:479-528 | frames sent one after the other come out as their payloads in order |
| Framing.SseData | flowforge/providers.py:460-476 | for every split into chunks, and every list of lines the bytes consist of, some with a payload behind `data:` and white space around it, some without the mark, the last with or without a newline: the result is exactly the payloads of the former, in order |
| Framing.EveryStream | flowforge/providers.py:460-476 | every byte string consists of such lines |
| Framing.DataStreamParses | flowforge/providers.py:460-476 | one `data:` line each, the payloads come back in order, stripped |

## Left out

- What nodes do, retries, timeouts and durations: a node's outcome is an arbitrary function of its context, taken after its retries.
- Events, their order and the history projection, the CLI, the HTTP layer, LLM vendors and MCP transports: input and output.
- `graph_fingerprint`: a resumed graph is taken to be the same graph. The hash does not cover retry policies.
- `Checkpoint.as_dict` and `from_dict`, and the stores: the engine saves and restores the record itself; the conversions copy field by field.
- `_compile_config` and `_resolve_config`: they call the template compiler, which is modelled on its own.
- JSON text, the regex engine and UTF-8: values are a datatype, `_literal` (which may raise) and `json.dumps` are parameters, header names stand as their bytes with a parameter that says which bytes are text. Which characters are digits, their decimal values and the number of digits `int` converts are parameters too.
- Which task a free permit goes to: any that waits for one, at any time. Those that wait are alike, so this changes no count.
- The clock: `encode_record_batch` takes the present time as a parameter, idle times and lingering are free choices.
- The run store as a service: it is the last checkpoint saved for the run.
- `lru_cache`, and that a static plan returns the original object rather than a copy: values have no identity here.
- The sink's `required` mode, which sends each record itself, and `close`, which cancels the flusher.
- Cancellation inside the pool and the sink, and exceptions outside the caught sets.
- HistoriesEndAlike: compares records without their wave numbers, which differ when pauses do (`CrashRecovery` compares them where there are none); assumes that no node has the id `inputs` and, through its histories, that a resume happens only where no routed failure has an undecided successor; without that the code does not have the property (`RestoreExact`).
- CrashesLeaveNoTrace: the same two assumptions, and resumes from checkpoints that await nothing; a resume that answers questions is in PausesAreTransparent. SameWavesSameState likewise.
- PausesAreTransparent: the assumptions of HistoriesEndAlike, and that an answer carries no branch, as in the code.
- BatchTheorems.DamageNoticed: says nothing of damage to the first 21 bytes, which the checksum does not cover.
- References.TextResolves: texts in which a brace stands outside every reference are left to NextMatchIsLeftmost and CompilerCorrect.
