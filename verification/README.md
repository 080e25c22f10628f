# PlantForge: a verified model of the deterministic machines

PlantForge turns plant documents and telemetry into a knowledge graph, alarms and diagnoses. Between its
calls to language models sit small deterministic machines whose guarantees the comments state in words.
This project models those machines in Dafny and proves the guarantees, or, where one does not hold of the
code, gives an input on which it fails and the condition under which it holds.

- **The graph write path.** `BatchLaws` says what a subgraph writes. `Batching.GroupBatch` regroups subgraphs by label and edge type, `Store` gives MERGE
  and MATCH their meaning on a map from ids to labels and properties and a map from (source, type, provenance,
  target) to properties, `Writer` drains the buffer in rounds with retries and a dead letter queue. `GraphWrites`
  proves that batching means what writing the subgraphs one at a time means, and where it does not; `FlushLaws`,
  `FlushGraph` and `DeltaLaws` carry this to whole flushes and their announcements. `Tags` and `Resolver` prove why an id determines its label, which
  the regrouping needs.
- **The claim and lock protocol** (`Pipeline`): interleaved workers as atomic steps with redelivery, workers lost
  at any point, calls that fail outside every handler, and locks left behind. The two releases of a failing lane are
  separate steps, as in the code. `StrandsExactlyWhen` says exactly which step strands a claim. `PipelineRuns` proves what
  the cache holds and saves and what gets written.
- **The historian sink** (`HistorianSink`, `SinkLaws`): land then ack, with a failure or crash at every point.
- **The section chunker** (`Chunker`, `ChunkerShape`, `ChunkerLaws`) as a partition of the document with greedy packing.
- **Corrections** (`Corrections`, `RoundTrip`): the printer and the parser, with the meaning of its regular
  expressions, and the exact set of corrections that survive the round trip.
- **Alarms and diagnoses** over whole runs: `TepWatching` and `WatcherLaws`, `Diagnostics` and `DiagnosticsLaws`,
  `OnlineDetector`, with `Spacing` for what cooldowns imply.
- **Denoise reconciliation** (`Denoise`, `DenoiseEffects`, `DenoiseLaws`, `DenoiseView`) under arbitrary plans and store failures.
- **Ranking and scoring**: `Pruner` and `PrunerLaws`, `Signatures`, `SignatureLaws`, `MatchLaws` and `SampleOrder`,
  over `Sorting`.
- **Scaling**: `Fleet`, `FleetLaws`, `Autoscaler`, `AutoscalerLaws`.
- **Control**: `Pid` and `ControllerBank` over the reals.

Code that changes state is a class or a method with a loop, proved equal to a specification function; the laws are
lemmas about those functions. The table lists the methods and the laws, not the specification functions or the
lemmas that only serve a proof. `dafny verify dfyconfig.toml` checks everything.

What came out false of the code, each with its lemma:

- Batched and sequential writing differ on an edge written before its endpoints (`GraphLimits.EarlyEdgeIsDropped`;
  exactly when, `GraphWrites.SameEdgesExactlyWhen`) and on an id under two labels (`GraphLimits.ClashingLabelsPartWays`).
- A document can be stranded for good, claimed and never in the graph (`Pipeline.StrandedForever`): by a failing lane
  (`Pipeline.GapStrandsClaim`), by a worker lost after claiming (`Pipeline.LossStrandsClaim`), by the lock a lost
  worker leaves behind (`Pipeline.LockLeftBehindStrandsClaim`) and by a send that fails
  (`Pipeline.FailedSendStrandsClaim`). The exact step is `Pipeline.StrandsExactlyWhen`.
- A correction without author or date does not read back (`RoundTrip.EmptyValueSwallows`), nor do the others that
  `RoundTrip.RoundTrips` excludes.
- Validation lets a plan merge two labels into each other, which hides their failures from the next pass
  (`DenoiseLaws.CrossMergeHides`; exactly when, `DenoiseView.PlanKeepsViewExactlyWhen`).
- A detector whose `persistence_count` exceeds its `window_size` never fires (`OnlineDetector.ShortWindowNeverFires`).
- The order of the samples can matter to a signature (`SignatureLaws.TiesFollowOrder`; exactly when,
  `SampleOrder.OrderIsIrrelevantExactlyWhen`).
- The simulator's reset clears the faults after the bumpless reset, which shuts the valves it meant to hold
  (`ControllerBank.ClearingFaultsShutsValves`).

## Model

| member | source | states |
|---|---|---|
| `Properties.CleanProps` | services/graphd/batching.py:34-49 | drops None, keeps primitives and flat lists, stores anything richer as json text, for every dict |
| `Properties.CleanOverride` | services/graphd/batching.py:69-70 | cleaning an overridden dict is overriding the cleaned dict if and only if no None in the override hides a value: `surface_form` is lost exactly when `props` maps it to None |
| `Properties.CleanLosesNothing` | services/graphd/batching.py:34-49 | different values other than None stay different, and json text is used exactly for what is neither a primitive nor a flat list |
| `Regrouping.RegroupingKeepsClasses` | services/graphd/batching.py:72-77 | regrouping rows by label or type, with or without merging rows of one id, changes the effect on no item under any class |
| `Regrouping.RegroupingKeepsEffects` | services/graphd/batching.py:52-101 | when no item is written under two classes, regrouping keeps the last-writer-wins effect of the whole list on every item, although it reorders writes |
| `Batching.WriteBatch.AddNode` | services/graphd/batching.py:64-78 | one node row is appended or merged into the row of its id, and the batch's sets grow with it |
| `Batching.WriteBatch.AddEdge` | services/graphd/batching.py:80-97 | one edge row, its endpoints looked up among the subgraph's surface forms first |
| `Batching.WriteBatch.AddNodes` | services/graphd/batching.py:58-78 | the rows of a subgraph's nodes and its id map, or the error of its first unresolved node |
| `Batching.WriteBatch.AddEdges` | services/graphd/batching.py:80-97 | the rows of a subgraph's edges in order |
| `Batching.WriteBatch.AddSubgraph` | services/graphd/batching.py:55-99 | a whole subgraph, or the error of its first unresolved node |
| `Batching.GroupBatch` | services/graphd/batching.py:52-101 | the grouped batch of all subgraphs, or the error of the first unresolved node, and which of the two |
| `BatchLaws.EdgesAreWritten` | services/graphd/batching.py:80-97 | each edge is written once, in order; each end is the resolved id of the last node of the subgraph with that surface form, or the reference itself when none has it; provenance properties override its own, which are cleaned |
| `BatchLaws.NodesAreWritten` | services/graphd/batching.py:58-78 | each node is written once, in order, under its type and resolved id, with its own properties cleaned and its surface form unless they say otherwise |
| `BatchLaws.HashTellsExtractions` | services/graphd/batching.py:25-27 | two provenances hash alike if and only if document, page, span, box and extractor version are the same |
| `BatchLaws.LinkIsStored` | services/graphd/store.py:55-63 | an edge between two nodes of one of the subgraphs is stored under their resolved ids by one transaction on any graph |
| `BatchLaws.EdgesJoinNodes` | services/graphd/store.py:55-63 | an edge is only ever stored between two stored nodes |
| `BatchLaws.TransactionStamps` | services/graphd/store.py:46-63 | one transaction stamps the nodes and the linkable edges it writes with its version and leaves everything else as it was |
| `BatchLaws.NodeRowStamps` | services/graphd/store.py:48-53 | a new node gets its creation stamp, an existing one keeps it, unless the row sets that property itself |
| `Store.GraphStore.MergeNodeRows` | services/graphd/store.py:47-54 | MERGE by id, the label added, properties overridden one by one, version stamps set |
| `Store.GraphStore.MergeEdgeRows` | services/graphd/store.py:55-63 | MATCH of both endpoints or no effect, then MERGE by type and provenance between them |
| `Store.GraphStore.WriteBatch` | services/graphd/store.py:33-43 | one transaction: all node rows, then all edge rows against the nodes then stored; nothing when refused |
| `GraphWrites.BatchedNodesAreSequential` | services/graphd/batching.py:52-101 | one batched transaction leaves the same nodes, labels and properties, versions erased, as writing the subgraphs one at a time, for any list whose ids determine their labels and any starting graph |
| `GraphWrites.SequentialEdgesAreBatched` | services/graphd/store.py:55-63 | every edge, and every property of it, that sequential writing stores is in the batched result |
| `GraphWrites.TimelyEdgesAreEqual` | services/graphd/store.py:55-63 | the edges are equal when every subgraph is closed, or more generally when no edge is written before its endpoints |
| `GraphWrites.SameEdgesExactlyWhen` | services/graphd/store.py:55-63 | both ways store the same edges with the same properties if and only if, for every edge the whole list can link, what was written before its endpoints is recovered: the edge is stored already or written in time, and each property so written is set again in time or stored already with that value |
| `GraphWrites.SameEdgeKeysExactlyWhen` | services/graphd/store.py:58-60 | both ways store the same edges if and only if every edge the list can link is stored already or written at least once after both its endpoints |
| `GraphWrites.ReplayedBatchIsHarmless` | services/graphd/store.py:46-63 | any batch written again right after itself changes nothing but version stamps, several rows of one edge key included |
| `GraphWrites.SecondPassIsBatched` | services/graphd/store.py:46-63 | two sequential passes leave what one batched transaction leaves, edges dropped by the first pass included |
| `GraphWrites.ReplayedSequenceIsHarmless` | services/graphd/store.py:46-63 | replaying a whole written sequence of closed or timely subgraphs changes nothing but version stamps |
| `GraphLimits.EarlyEdgeIsDropped` | services/graphd/store.py:58-59 | concrete subgraphs whose edge the batch stores and sequential writing silently drops |
| `GraphLimits.ClashingLabelsPartWays` | services/graphd/batching.py:66-77 | three one-node subgraphs that write one id under labels t, u, t come out the same on an empty graph, batched and sequential, if and only if their properties do not conflict, so regrouping needs ids that determine labels |
| `Tags.FullMatchDecides` | libs/core/plantmind_core/tags.py:41 | the matcher finds the groups of the tag pattern, and only those |
| `Tags.NormalizeIsIdempotent` | libs/core/plantmind_core/tags.py:38-45 | normalizing twice is normalizing once, for every string |
| `Tags.NormalizeIsCompleteKey` | libs/core/plantmind_core/tags.py:38-50 | two strings normalize equally if and only if both are tag-shaped with the same letters and digits up to case, separators and accepted hyphens, or neither is and they agree up to outer whitespace and case |
| `Tags.NoiseIsIgnored` | libs/core/plantmind_core/tags.py:38-45 | whitespace, an underscore or an ampersand anywhere in the spelling of a tag makes no difference |
| `Tags.NormalizeSpells` | libs/core/plantmind_core/tags.py:43-45 | a tag normalizes to its letters, a hyphen, its digits and its suffix |
| `Tags.MentionsAreCanonical` | libs/core/plantmind_core/tags.py:32-35 | every string of the shape `find_tags` matches normalizes to a canonical tag, which is a fixpoint |
| `Resolver.Resolve` | services/resolution/resolver.py:37-40 | every node gets its canonical id in place up to the first node type without a prefix, where the lookup raises; that node and the later ones stay as they were |
| `Resolver.CanonicalIsKey` | services/resolution/resolver.py:43-51 | ids of different node types never coincide, and within a type they coincide exactly when the normalized surface forms do |
| `Resolver.SameTagSameId` | services/resolution/resolver.py:1-7 | two tag spellings name one piece of equipment exactly when their letters and digits agree up to case |
| `Resolver.SlugIsKey` | services/resolution/resolver.py:32-33 | two texts have the same slug if and only if they have the same runs of letters and digits up to case |
| `Resolver.SameIdExactlyWhen` | services/resolution/resolver.py:42-51 | two surface forms share an id if and only if the types are the same and the forms are: tags by spelling, documents verbatim, work orders up to outer whitespace and case, the rest by their words |
| `Resolver.ResolvedHasOneClass` | services/resolution/resolver.py:14-26 | whatever the resolver has resolved groups without error and writes no id under two labels |
| `Writer.GraphWriter.Parse` | services/graphd/writer.py:57-66 | valid items in order; the others parked and counted |
| `Writer.GraphWriter.Commit` | services/graphd/writer.py:68-108 | a round with an unresolved node is parked whole, an empty batch is not counted, a refused one is retried one by one, a written one is announced and counted |
| `Writer.GraphWriter.CommitSingly` | services/graphd/writer.py:94-98 | the recursive retry: one commit per subgraph, in order |
| `Writer.GraphWriter.Drain` | services/graphd/writer.py:40-49 | at most `max_rounds` rounds, ending at an empty or a short take |
| `Writer.GraphWriter.Flush` | services/graphd/writer.py:32-55 | nothing happens without the lock; with it, the drain's effect, the lock given back and the stats returned |
| `FlushLaws.FlushConserves` | services/graphd/writer.py:32-108 | every item taken ends exactly as often as it was taken among committed, parked and parsed-but-empty, and `subgraphs` and `bad` count the first two |
| `FlushLaws.VersionsRise` | services/graphd/writer.py:83-105 | published versions strictly increase and announcements are only added |
| `FlushLaws.RoundParksCulprits` | services/graphd/writer.py:85-98 | when all nodes are resolved and refusal depends on the subgraphs alone, a round parks exactly the refused ones |
| `FlushLaws.FlushParksCulprits` | services/graphd/writer.py:32-98 | the same over a whole flush: the DLQ grows by exactly the malformed and the refused items taken, in order |
| `DeltaLaws.FlushIsAnnounced` | services/graphd/writer.py:100-108 | over a whole flush the new announcements split the newly committed subgraphs into consecutive runs, and each names the resolved ids of the nodes, the types of the edges and the document ids of its run; `nodes` counts the ids announced, batch by batch, and `edges` all edges committed |
| `DeltaLaws.AnnouncementsAreTrue` | services/graphd/writer.py:83-105 | after a flush a node has changed only if some new announcement names it, and then it carries the version of the last one that does |
| `DeltaLaws.FlushTakesInOrder` | services/graphd/writer.py:40-49 | a flush takes the first min(size of the buffer, max_rounds * batch_size) items, in order, and `rounds` is their number over the batch size, rounded up |
| `FlushGraph.FlushIsSequential` | services/graphd/writer.py:32-108 | whatever the store refuses, the flushed graph has exactly the nodes, and at least the edges, of the committed subgraphs written one at a time, and exactly the edges with their properties when these are closed |
| `FlushGraph.BatchingIsInvisible` | services/graphd/writer.py:40-49 | when nothing is refused, the flushed graph has the nodes, and at least the edges, of all items taken written one at a time, and exactly the edges when these are closed, whatever the batch size and the rounds |
| `Pipeline.SingleFlight` | services/extraction/tasks.py:53-87 | in every interleaving with duplicate deliveries, failures and lost workers at most one worker is anywhere between taking and releasing the lock of a lane and hash, and the lock is its own |
| `Pipeline.StrandsExactlyWhen` | services/extraction/tasks.py:78-87 | a step leaves a held claim without a carrier if and only if it drops the claim's only carrier: a task refused by a lock whose holder has released the claim or is lost, a worker lost between claiming and sending the document to its lane, or a call that fails where no handler gives the claim back |
| `Pipeline.NoStrandedClaim` | services/extraction/tasks.py:33-35 | in every run without such a drop every held claim has a queued message, a running step, the buffer, the graph or the DLQ behind it, lost workers and duplicates elsewhere included |
| `Pipeline.FusedReleaseNeverStrands` | services/extraction/tasks.py:78-87 | with claim and lock released in one step, every run in which no worker is lost and no call fails outside a handler leaves every held claim with a carrier |
| `Pipeline.StrandedForever` | services/ingestion/service.py:33-37 | a stranded document stays out of the graph in every continuation, resubmissions included, since they are dropped as duplicates |
| `Pipeline.GapStrandsClaim` | services/extraction/tasks.py:54-69 | for every document and lane, a run of the code as it is that strands the document |
| `Pipeline.LossStrandsClaim` | libs/core/plantmind_core/celeryapp/worker_app.py:52-56 | for every document, a run in which the worker is lost after claiming and the message put back is then a duplicate, which strands the document |
| `Pipeline.LockLeftBehindStrandsClaim` | services/extraction/tasks.py:53-69 | for every document and lane, a run in which a worker is lost in the handler and its message, put back, is refused by the lock it left and dropped |
| `Pipeline.FailedSendStrandsClaim` | services/ingestion/tasks.py:47-53 | for every document and lane, a run in which the send after a successful classification fails and strands the document |
| `PipelineRuns.CacheFromScratch` | services/extraction/tasks.py:71-77 | in every run the cache holds an extraction if and only if a worker whose handler had returned for it wrote the cache and the write went through |
| `PipelineRuns.HitSendsOn` | services/extraction/tasks.py:40-50 | a readable cache hit, at the start or after a refused lock, ends the lane task with its result sent on |
| `PipelineRuns.CachedIsNotExtractedAgain` | services/extraction/tasks.py:39-50 | once an extraction is cached, no worker that had not begun on it runs the handler for it, as long as the cache can be read, whatever is delivered twice |
| `PipelineRuns.LeftLockExpires` | libs/core/plantmind_core/bus/redis_bus.py:76-81 | a lock that a lost worker left refuses its slot until it expires, and can then be taken |
| `PipelineRuns.SecondDeliveryHits` | services/extraction/tasks.py:39-50 | a run in which a lane task is delivered twice: the second worker reads the cache and sends the result on without lock or handler |
| `PipelineRuns.DocumentIsWritten` | services/ingestion/service.py:25-68 | from any state without a trace of a document, the run that claims, extracts, caches, resolves and writes it, and leaves no worker, message or lock behind |
| `PipelineRuns.ResubmissionHeals` | services/extraction/tasks.py:32-35 | a document whose handler raises leaves no trace, and is written when it is submitted again |
| `PipelineRuns.WrittenExactlyWhen` | services/graphd/writer.py:40-55 | in every run a document is in the graph if and only if a flush of it was accepted, and in the dead letter queue if and only if one was refused |
| `PipelineRuns.NothingWithoutClaim` | services/ingestion/service.py:33-37 | in every run whatever is extracted, resolved, buffered, written or parked had its claim granted before |
| `HistorianSink.ConsumerGroup.XReadGroup` | services/historian/sink.py:102-105 | the live cursor delivers new entries and makes them pending, "0" repeats pending ones |
| `HistorianSink.ConsumerGroup.XAck` | services/historian/sink.py:121 | exactly the acked entries leave the pending list |
| `HistorianSink.TelemetrySink.DrainOnce` | services/historian/sink.py:94-125 | read, land, ack and the next cursor, with a failure possible at each point |
| `HistorianSink.TelemetrySink.Run` | services/historian/sink.py:80-92 | the run loop over any schedule of arrivals, drains, failures and crashes |
| `SinkLaws.AtLeastOnce` | services/historian/sink.py:13-15 | in every run acked entries that parse have landed, the log without repeats is the parseable stream up to a delivered entry in order, the live cursor means nothing is pending, and repeats are at most batch size times failures |
| `SinkLaws.CleanDrainCatchesUp` | services/historian/sink.py:97-100 | one drain without failure, whatever went wrong before, leaves nothing pending and every delivered parseable entry landed |
| `SinkLaws.CleanDrainsFinish` | services/historian/sink.py:94-125 | after any run with a positive batch size, 2 + the number of undelivered entries clean drains, or fewer, leave the cursor live, every entry delivered, nothing pending and exactly the parseable entries landed in order |
| `SinkLaws.StreamIsProduced` | services/historian/sink.py:80-92 | the stream is what was produced, in order, and only drains that went wrong count as failures |
| `Chunker.SectionChunker.SectionSpans` | services/extraction/text/chunker.py:50-59 | the bodies between header lines with their titles |
| `Chunker.SectionChunker.Paragraphs` | services/extraction/text/chunker.py:74-86 | the runs of non-blank lines of a stretch of text |
| `Chunker.SectionChunker.PackedParagraphs` | services/extraction/text/chunker.py:61-72 | the paragraphs packed in order |
| `Chunker.Tighten` | services/extraction/text/chunker.py:89-93 | cuts only whitespace, ends on other characters, and is empty only for a blank span |
| `Chunker.SectionChunker.Split` | services/extraction/text/chunker.py:30-48 | the sections of the document with their chunks, blank bodies dropped |
| `Chunker.BodiesSound` | services/extraction/text/chunker.py:50-59 | bodies run in order and leave out the header lines and nothing else |
| `ChunkerShape.LinesAreLines` | services/extraction/text/chunker.py:53 | the lines are the text cut after each line break and nowhere else, "\r\n" being one break |
| `ChunkerShape.TitleIs` | services/extraction/text/chunker.py:54-56 | a line is a header with a title if and only if it is whitespace, hashes, whitespace, the title and whitespace, the title trimmed and without a hash right after the hashes |
| `ChunkerShape.SectionsAreTitled` | services/extraction/text/chunker.py:50-59 | every section has the title of the last header line that begins before it, and none when there is none |
| `ChunkerShape.ParagraphsOfBody` | services/extraction/text/chunker.py:74-86 | two offsets of a body are in one paragraph if and only if no blank line touches the stretch from one to the other |
| `ChunkerLaws.ChunksPartition` | services/extraction/text/chunker.py:21-25 | every chunk is the exact text of its offsets; chunks are disjoint, increasing and numbered 0.. through the document; every character that is not whitespace is in exactly one chunk, or on a header line and in none |
| `ChunkerLaws.SectionsNumbered` | services/extraction/text/chunker.py:44-47 | sections are numbered 0.., hold a chunk, and span from their first chunk to their last |
| `ChunkerLaws.NoParagraphIsCut` | services/extraction/text/chunker.py:61-63 | a chunk of the document holds all of the characters of a paragraph of any body that are not whitespace, or none |
| `ChunkerLaws.PackIsTheGreedyGrouping` | services/extraction/text/chunker.py:64-72 | packing is the one grouping that keeps all paragraphs in order, fits every group of several, and never closes a group the next paragraph would fit |
| `ChunkerLaws.EveryGroupIsAChunk` | services/extraction/text/chunker.py:38-39 | inside a body every group gives a chunk: the branch for an empty chunk is never taken |
| `RoundTrip.RoundTrips` | libs/core/plantmind_core/corrections.py:35-80 | `parse(render(c)) == c` if and only if author and date are non-empty single lines not begun by whitespace, the header has no "---", document ids are non-empty, trimmed, comma-free single lines, and the sections are trimmed with no line that marks a heading |
| `RoundTrip.ParsedShape` | libs/core/plantmind_core/corrections.py:52-63 | whatever text is parsed, every field has this shape |
| `RoundTrip.EmptyValueSwallows` | libs/core/plantmind_core/corrections.py:18 | an empty field takes the line below it as its value |
| `RoundTrip.SectionPassed` | libs/core/plantmind_core/corrections.py:74-80 | the search for one heading passes over another section without a mark |
| `RoundTrip.HeaderReads` | libs/core/plantmind_core/corrections.py:52-63 | a header of any fields in any order reads back, and the metadata are read from it |
| `RoundTrip.LastEntryCounts` | libs/core/plantmind_core/corrections.py:54 | the last entry of a name counts, and a missing one reads as empty |
| `RoundTrip.FirstSectionCounts` | libs/core/plantmind_core/corrections.py:74-80 | sections are found in any order, the first of a heading counts, and a missing one reads as empty |
| `TepWatching.TepWatcher.CheckMessage` | services/agents/watchers/tep.py:114-179 | one message: actuators, unknown tags and unparsable values ignored; breach, escalation, peak, clearing and re-arming as the alarm state says |
| `TepWatching.TepWatcher.RearmAll` | services/agents/watchers/tep.py:181-190 | a reset drops every open alarm and nothing else |
| `TepWatching.TepWatcher.UpdateLimits` | services/agents/watchers/tep.py:80-84 | new limits replace one tag's envelope; an empty dict or tag changes nothing |
| `WatcherLaws.RepeatNeedsClearSpell` | services/agents/watchers/tep.py:168-177 | two consecutive alarms of one tag at one level with no reset between are separated by two samples inside the envelope at least DEBOUNCE_S apart and none outside between them |
| `WatcherLaws.ClearSpellRearms` | services/agents/watchers/tep.py:174-177 | conversely such a spell re-arms the tag, on a clock that does not run backwards |
| `WatcherLaws.AlarmsExactlyWhen` | services/agents/watchers/tep.py:136-157 | in every run a sample outside its envelope alarms if and only if its tag's last alarm is not at that level with neither a reset nor a clear spell since: no breach is lost, and a level change alarms at once |
| `WatcherLaws.TagsAreIndependent` | services/agents/watchers/tep.py:136-143 | a tag's envelope, alarm and alerts after any run are those after its own messages and the resets alone |
| `WatcherLaws.IgnoredSamples` | services/agents/watchers/tep.py:114-131 | actuators, tags without an envelope and values that do not parse change nothing, and of the others every breach has an open alarm after it |
| `WatcherLaws.EnvelopeInForce` | services/agents/watchers/tep.py:80-84 | the envelope in force is the last one given, or the first there was |
| `WatcherLaws.LevelsAreStretches` | services/agents/watchers/tep.py:99-112 | with limits in order HH, H, L and LL are each their own stretch of values and inside all limits there is no level |
| `WatcherLaws.LevelsRise` | services/agents/watchers/tep.py:99-112 | a higher value never has a lower level |
| `WatcherLaws.AlertsTell` | services/agents/watchers/tep.py:146-157 | the alerts of a run are the alarms fired, in order, each with the tag, value and time of its event and the level of its value |
| `WatcherLaws.AlarmRemembers` | services/agents/watchers/tep.py:146-166 | an open alarm holds the time it began, the farthest value since and the last time its tag was outside |
| `Diagnostics.DiagnosticsRuntime.MaybeArm` | services/diagnostics/service.py:244-258 | arms the slot with the alarm's own time, or now, unless it is taken or cooling down |
| `Diagnostics.DiagnosticsRuntime.MaybeArmMl` | services/diagnostics/service.py:178-193 | the same for an event of the detector |
| `Diagnostics.DiagnosticsRuntime.FlushReady` | services/diagnostics/service.py:270-276 | a ready episode leaves the slot, starts the cooldown and is diagnosed |
| `DiagnosticsLaws.EpisodesAreConserved` | services/diagnostics/service.py:12-19 | in every run the episodes diagnosed, in order, and then the one in the slot are exactly the episodes armed, in order: none overwritten, none diagnosed twice |
| `DiagnosticsLaws.DiagnosesAreSpaced` | services/diagnostics/service.py:48-56 | no diagnosis before onset + after_s + margin, starts a cooldown apart, and at most floor(T / cooldown) + 1 in an interval of length T |
| `DiagnosticsLaws.SlotIsHeld` | services/diagnostics/service.py:246-247 | an armed episode holds the slot whatever else happens, and the first flush at or after its time diagnoses it |
| `DiagnosticsLaws.ArmsExactlyWhen` | services/diagnostics/service.py:244-258 | after any run a live alarm or an anomaly arms its episode, from its own time or now, if and only if everything armed has been diagnosed and the last diagnosis is a cooldown ago; otherwise nothing changes |
| `DiagnosticsLaws.DiagnosesExactlyWhen` | services/diagnostics/service.py:270-276 | after any run a flush diagnoses the slot if and only if its clock has reached onset + after_s + margin; otherwise nothing changes |
| `OnlineDetector.OnlinePCADetector.ProcessSample` | services/diagnostics/detector/online.py:58-101 | one sample: window, cooldown, persistence and the event |
| `OnlineDetector.OnlinePCADetector.UpdateModel` | services/diagnostics/detector/online.py:54-56 | a new model clears the window |
| `OnlineDetector.WindowRefinesHistory` | services/diagnostics/detector/online.py:47 | with persistence_count <= window_size the bounded window raises exactly the events, onsets included, of the full history since the last model update |
| `OnlineDetector.ShortWindowNeverFires` | services/diagnostics/detector/online.py:79 | with a larger persistence_count no run raises any event |
| `OnlineDetector.FiresExactlyWhen` | services/diagnostics/detector/online.py:74-86 | an event is raised at a sample if and only if it is out of cooldown and the last persistence_count scores since the model update are all anomalous; its onset is the first of them |
| `OnlineDetector.EventsAreSpaced` | services/diagnostics/detector/online.py:75-82 | events are a cooldown apart whatever the timestamps do, and none precedes one cooldown on the samples' own clock |
| `Denoise.Validate` | services/graphd/denoise/reconciler.py:88-108 | the groups and links that name supplied labels only |
| `Denoise.DenoiseGraph.MergeFailureModes` | services/graphd/denoise/graph.py:63-81 | redirect, then supersede with a trail, cut off where the store fails |
| `Denoise.DenoiseRunner.ReconcileOne` | services/graphd/denoise/runner.py:57-88 | the queries of one equipment in order, up to the point where the store fails, with the stats they come to |
| `Denoise.DenoiseRunner.ReconcileFailures` | services/graphd/denoise/runner.py:43-55 | every equipment in turn, each failure costing that equipment alone, with all four stats |
| `Denoise.StatsCount` | services/graphd/denoise/runner.py:74-88 | `merged` and `causal_added` count the merges that are through and the links added among the queries that took effect |
| `DenoiseEffects.ValidationKeeps` | services/graphd/denoise/reconciler.py:88-108 | validation keeps exactly the groups of supplied canonical labels, less variants not supplied or equal to it, and exactly the links between two different supplied labels |
| `DenoiseEffects.LabelsAreLast` | services/graphd/denoise/runner.py:62 | a label stands for the last failure supplied under it, whatever its case |
| `DenoiseEffects.CausesExactlyWhen` | services/graphd/denoise/runner.py:79-88 | one equipment reconciled to the end has gained a cause between two nodes if and only if a validated link says so of the nodes its labels stand for after all groups, and these are two different stored nodes |
| `DenoiseEffects.TrailsExactlyWhen` | services/graphd/denoise/graph.py:74-80 | and a trail from one stored node to another if and only if a validated group has the one as variant and the other as canonical |
| `DenoiseLaws.AnyPlanKeeps` | services/graphd/denoise/runner.py:57-88 | under any plan and any failure of the store one equipment keeps its pairs, nodes and trails, and gains causes only between two different supplied nodes |
| `DenoiseLaws.PhaseKeeps` | services/graphd/denoise/graph.py:1-5 | over the whole phase: the (equipment, prov_hash) pairs with a HAS_FAILURE edge are the same, no failure mode is deleted, everything newly superseded has a MERGED_INTO trail, new CAUSES edges join two different nodes supplied together |
| `DenoiseLaws.MergeKeepsInView` | services/graphd/denoise/graph.py:30-37 | a merge keeps every failure on a node that is not superseded if and only if it moves no edge or its canonical node is not superseded itself |
| `DenoiseLaws.CompatiblePlanKeepsView` | services/graphd/denoise/runner.py:65-77 | a plan that merges no label both from and into keeps every failure in view, wherever the store fails |
| `DenoiseLaws.CrossMergeHides` | services/graphd/denoise/reconciler.py:96-103 | two labels merged into each other pass validation and end both superseded, their failures out of the next pass's view |
| `DenoiseView.QueriesMove` | services/graphd/denoise/graph.py:63-81 | after any list of queries that merge no node into itself the failures are the old ones, each moved through the redirects in order, and what is superseded has grown by exactly the stored variants |
| `DenoiseView.PlanKeepsViewExactlyWhen` | services/graphd/denoise/runner.py:57-77 | whatever plan the model returns, one equipment reconciled leaves every failure in view if and only if the groups in order take each stored failure to a node that was not superseded and is a variant of no group |
| `DenoiseView.PhaseKeepsViewExactlyWhen` | services/graphd/denoise/runner.py:43-55 | the same over the whole phase and any outages, by the queries that got done |
| `Pruner.FlowPruner.Score` | services/retrieval/pruner.py:37-44 | the flow along the steps |
| `Pruner.FlowPruner.IsRedundant` | services/retrieval/pruner.py:46-55 | true exactly for a path without edges or one that overlaps a kept path beyond the threshold |
| `Pruner.FlowPruner.Prune` | services/retrieval/pruner.py:24-35 | sets every score and returns the greedy choice from the stable ranking |
| `PrunerLaws.PrunedIsGreedy` | services/retrieval/pruner.py:25-35 | kept paths are scored inputs in non-increasing score, at most top_k, none without edges, no two overlapping; below the cap every other path has no edges or overlaps a kept path of at least its score |
| `PrunerLaws.PruningIsIdempotent` | services/retrieval/pruner.py:24-35 | pruning what was kept keeps all of it |
| `PrunerLaws.FlowDecays` | services/retrieval/pruner.py:4-8 | with confidences at most 1 and 0 < alpha <= 1 a score is in (0, alpha to the length] and never grows when a step is appended |
| `PrunerLaws.SameEdgesOverlap` | services/retrieval/models.py:24-36 | below a threshold of 1 two paths over the same edges, walked either way, overlap |
| `PrunerLaws.EdgesAreUndirected` | services/retrieval/models.py:24-36 | two steps are the same edge if and only if they are of one kind between the same two nodes, whichever way they are walked |
| `PrunerLaws.ContainedOverlaps` | services/retrieval/pruner.py:46-55 | below a threshold of 1 a path whose edges are all in another overlaps it |
| `PrunerLaws.DisjointApart` | services/retrieval/pruner.py:46-55 | paths without a common edge never overlap |
| `PrunerLaws.FlowJoins` | services/retrieval/pruner.py:37-44 | the flow along two parts of a path is the product of their flows |
| `PrunerLaws.StepShares` | services/retrieval/pruner.py:37-44 | a step divides alpha times the trust in its edge, at least 0.3, evenly among the other branches of the node it leaves |
| `Signatures.BucketByTag` | services/diagnostics/signature/extract.py:61-64 | the samples with a value by tag, tags in order of appearance |
| `Signatures.ExtractSignature` | services/diagnostics/signature/extract.py:46-106 | the signature of a window: buckets, judgement of each tag, ranking |
| `SignatureLaws.ExtractedRanks` | services/diagnostics/signature/extract.py:92-97 | each tag once, strictly in the order they moved, ranked 0, 1, 2 and on |
| `MatchLaws.FirstMoverFirst` | services/diagnostics/signature/extract.py:92-97 | earlier onsets rank first, then larger magnitudes, then tags in dictionary order |
| `MatchLaws.DeviationsShow` | services/diagnostics/signature/extract.py:70-90 | every deviation is of a tag with enough baseline and breaches; its magnitude and direction are those of the reaction farthest from the mean, its onset that of the first sample four deviations off |
| `MatchLaws.ReportedAreListed` | services/diagnostics/signature/extract.py:70-82 | a tag is in the signature if and only if it has two baseline samples, a reaction, and a fifth of it, at least one sample, four deviations off |
| `SignatureLaws.TiesFollowOrder` | services/diagnostics/signature/extract.py:57-59 | with such a tie the documented independence fails: the direction is that of whichever sample comes first |
| `SignatureLaws.SampleOrderIsIrrelevant` | services/diagnostics/signature/extract.py:57-59 | the signature does not depend on the order of the samples when no tag has two values at one time, whatever the standard deviation |
| `SampleOrder.OrderIsIrrelevantExactlyWhen` | services/diagnostics/signature/extract.py:57-59 | every rearrangement of the samples gives the same signature if and only if no judged tag has, at the earliest time its largest distance from the mean is reached, values on both sides of the mean |
| `SampleOrder.JudgedAlike` | services/diagnostics/signature/extract.py:70-90 | whatever the order of tied samples, whether a tag is judged, its magnitude and its onset are the same; the direction alone can differ |
| `Signatures.CountPairs` | services/diagnostics/matcher/match.py:88-108 | along any listing of the shared tags the loops give the fraction of concordant pairs of the set |
| `SignatureLaws.ScoreWithin` | services/diagnostics/matcher/match.py:66-85 | the score is in [0, 1] |
| `SignatureLaws.ScoreIsSymmetric` | services/diagnostics/matcher/match.py:66-85 | the score does not depend on which signature is the query |
| `SignatureLaws.PerfectScore` | services/diagnostics/matcher/match.py:66-85 | the score is 1 if and only if both signatures have the same tags moved the same way and no pair in opposite order, and are not empty |
| `MatchLaws.ByTagHolds` | services/diagnostics/matcher/match.py:66-72 | of each tag the last deviation counts |
| `SignatureLaws.SelfScore` | services/diagnostics/matcher/match.py:66-85 | any non-empty signature scores 1 against itself |
| `MatchLaws.ScoreIsPositive` | services/diagnostics/matcher/match.py:66-85 | two signatures score above 0 if and only if more of their common tags moved the same way than opposite ways |
| `MatchLaws.OrderHalvesAtMost` | services/diagnostics/matcher/match.py:66-108 | a positive overlap is halved at most by the order: full exactly when no two agreeing tags are in opposite order, half exactly when some are and none in the same |
| `Signatures.MatchSignature` | services/diagnostics/matcher/match.py:42-63 | the matches of at least the least confidence, ranked and cut as `[:top_k]` cuts, a negative top_k included |
| `SignatureLaws.LibraryOrderIsIrrelevant` | services/diagnostics/matcher/match.py:62 | with distinct fault-mode ids the ranked list is the same for every order of the library, whatever the rounding |
| `MatchLaws.MatchedAreBest` | services/diagnostics/matcher/match.py:50-63 | the list is in order of confidence and id, top_k long if there are as many, and no match left out ranks better than one kept |
| `MatchLaws.MatchesAre` | services/diagnostics/matcher/match.py:50-61 | the matches ranked are those of the fault modes that score at least the least confidence, with their scores |
| `Sorting.SortSorts` | services/retrieval/pruner.py:30 | sorting gives a sorted rearrangement |
| `Sorting.SortIsStable` | services/retrieval/pruner.py:30 | elements that tie keep their order |
| `Fleet.WorkerFleet.ScaleTo` | infra/celery_workers.py:110-117 | spawns or drains one worker at a time to the target |
| `Fleet.WorkerFleet.ScaleDown` | infra/celery_workers.py:132-144 | the newest live worker drains; an empty stage stays |
| `Fleet.WorkerFleet.ReapDrained` | infra/celery_workers.py:146-158 | draining workers that exited or outstayed the grace period are reaped, the others stay |
| `FleetLaws.ScaledToTarget` | infra/celery_workers.py:110-117 | scaling reaches the target, conserves the processes, reaps nothing and changes no other stage's list or counter |
| `FleetLaws.ReapConserves` | infra/celery_workers.py:146-158 | reaping keeps every process spawned in exactly one of live, draining, reaped |
| `FleetLaws.ReapedExactly` | infra/celery_workers.py:146-158 | exactly the draining processes that exited or outstayed the grace period are reaped |
| `FleetLaws.GraceStarts` | infra/celery_workers.py:132-144 | the grace period of a process starts when it is told to stop |
| `FleetLaws.UpConserves` | infra/celery_workers.py:119-130 | a spawned process is new and live, no other is spawned or lost, and each is in exactly one place |
| `FleetLaws.DownConserves` | infra/celery_workers.py:132-144 | a drained process leaves the live ones and is draining, the others stay live, and each is in exactly one place |
| `FleetLaws.NewFleetConserved` | infra/celery_workers.py:67-71 | a new fleet has no process anywhere |
| `Autoscaler.QueueAutoscaler.Apply` | infra/autoscaler.py:80-102 | the policy's stage takes one step toward its target, no other stage changes, no process is lost |
| `Autoscaler.QueueAutoscaler.Tick` | infra/autoscaler.py:74-78 | every stage takes the steps of its own policies alone, and the processes are conserved |
| `AutoscalerLaws.WantedIsCeiling` | infra/autoscaler.py:43-45 | the target is the smallest number of workers that absorbs the backlog |
| `AutoscalerLaws.BacklogAdds` | infra/autoscaler.py:40-41 | the backlog is the sum over the queues of a stage, a missing queue counting nothing |
| `AutoscalerLaws.FixedStageStays` | infra/autoscaler.py:80-84 | a stage whose limits leave no room is never scaled |
| `AutoscalerLaws.CountsStayBounded` | infra/autoscaler.py:45 | counts stay within any bounds the targets keep to |
| `AutoscalerLaws.StageStaysBounded` | infra/autoscaler.py:45 | whatever the backlogs, a stage that starts within [min, max] stays within it |
| `AutoscalerLaws.ScalesUpAtOnce` | infra/autoscaler.py:88-92 | a count below a constant target is at it after one tick and stays |
| `AutoscalerLaws.DropsAfterQuietTicks` | infra/autoscaler.py:93-100 | one worker goes only after quiet_ticks consecutive ticks with a target below the count, which did not change meanwhile |
| `AutoscalerLaws.QuietTicksActAsOne` | infra/autoscaler.py:96 | quiet_ticks of zero or less acts as one |
| `AutoscalerLaws.ScalesDownExactly` | infra/autoscaler.py:93-102 | under a constant target d the exact count after every number of ticks: d is reached after (c - d) * quiet_ticks - q ticks, not one earlier, and kept |
| `Pid.PIDController.ComputeOutput` | services/simulation/base/pid.py:22-38 | output and stored state of one sample |
| `Pid.PIDController.ResetTo` | services/simulation/base/pid.py:40-56 | the integral that stands for the held output |
| `Pid.IntegralAccountsForOutput` | services/simulation/base/pid.py:29-38 | the output is in range, and the three terms with the stored integral sum to it if and only if Ki is not zero or the loop did not saturate |
| `Pid.IntegralIsBounded` | services/simulation/base/pid.py:31-37 | at every point of every run with bounded errors the size of Ki * I is at most the output range plus what the other two terms can be |
| `Pid.OthersReach` | services/simulation/base/pid.py:25-29 | that is abs(Kp) * bound + abs(Kd) * 2 * bound / dt |
| `Pid.ResetIsBumpless` | services/simulation/base/pid.py:43-54 | after a reset to a value in range a loop with Ki not zero gives that value at setpoint; without Ki the clamped zero |
| `Pid.OutputFalls` | services/simulation/base/pid.py:22-38 | with gains not negative a lower measurement never gives a lower output, and with a proportional gain a higher one unless an end of the range is reached |
| `Pid.IntegralSums` | services/simulation/base/pid.py:25 | while nothing is clamped the integral is dt times the sum of setpoint minus measurement |
| `ControllerBank.TepControllerBank.constructor` | services/simulation/tep/controller.py:46-72 | a new bank has nominal valves and loops reset to hold them |
| `ControllerBank.TepControllerBank.RunLoop` | services/simulation/tep/controller.py:83-126 | one loop: bias, degradation of the reactor temperature loop alone, a stuck coolant valve |
| `ControllerBank.TepControllerBank.RunLoops` | services/simulation/tep/controller.py:74-126 | the six loops in order |
| `ControllerBank.TepControllerBank.ResetAll` | services/simulation/tep/controller.py:199-206 | valves back to nominal, loops reset to hold them |
| `ControllerBank.TepControllerBank.ClearAll` | services/simulation/tep/controller.py:166-174 | faults cleared, loops reset to hold zero |
| `ControllerBank.StepIsParallel` | services/simulation/tep/controller.py:74-126 | a step runs each loop once on its own measurement plus its own bias and moves its own valve; the coolant valve alone can be stuck and its loop alone is degraded |
| `ControllerBank.BiasShifts` | services/simulation/tep/controller.py:84-126 | biased sensors act as measurements shifted by the biases |
| `ControllerBank.UndrivenStay` | services/simulation/tep/controller.py:74-126 | a valve no loop drives never moves |
| `ControllerBank.ClearingForgetsFaults` | services/simulation/tep/controller.py:166-174 | clearing the faults leaves none whatever they were, moves no valve, and gives the reactor temperature loop its full gain back |
| `ControllerBank.ResetHoldsNominal` | services/simulation/tep/controller.py:199-206 | after reset_pids any number of unbiased steps at setpoint with no stuck valve keeps every valve at nominal |
| `ControllerBank.ClearingFaultsShutsValves` | services/simulation/base/runner.py:132-133 | clear_faults after reset_pids undoes this: the first step at setpoint shuts each driven valve |

## Left out

Contracts stated over less than the code covers:

- GraphWrites.BatchedNodesAreSequential: asks that no id is written under two labels; `Resolver.ResolvedHasOneClass` shows that resolved subgraphs never do, and `GraphLimits.ClashingLabelsPartWays` what happens otherwise.
- GraphWrites.TimelyEdgesAreEqual: a sufficient condition that is easy to check; the exact one is `GraphWrites.SameEdgesExactlyWhen`.
- Resolver.Resolve: works on an array of node values where the code assigns a field of node objects, so aliasing between subgraphs is not captured.
- Pruner.FlowPruner.Prune: works on an array of path values where the code assigns `path.score`; a path listed twice as one object is two values here.
- Store.GraphStore.WriteBatch: does not model the check for unknown labels and edge types, because labels and types are enumerations here and the check cannot fail.
- Tags.MentionsAreCanonical: covers every string of the shape the pattern matches, not which mentions the search finds in a text, word boundaries and the lookahead included.
- Denoise.DenoiseGraph.MergeFailureModes: the properties a redirected HAS_FAILURE edge copies are not modelled, since the store leaves the order of rows with one (equipment, prov_hash) open.
- OnlineDetector.OnlinePCADetector.ProcessSample: a `persistence_count` of zero or less, where the slice wraps to the whole list, is not modelled.
- SignatureLaws.SampleOrderIsIrrelevant: a sufficient condition that is easy to check and asks nothing of the standard deviation; the exact one, for a standard deviation blind to order, is `SampleOrder.OrderIsIrrelevantExactlyWhen`.
- SignatureLaws.ExtractedRanks: the order is on offsets and magnitudes before rounding, where the code sorts them rounded.
- DenoiseLaws.CompatiblePlanKeepsView: a sufficient condition that holds at any outage; the exact one for a finished plan is `DenoiseView.PlanKeepsViewExactlyWhen`.
- Tags.NormalizeIsIdempotent: case and digits are ASCII, where `upper()` and `\d` are Unicode.
- Tags.NormalizeIsCompleteKey: the same.
- Pipeline.FusedReleaseNeverStrands: excludes lost workers and failing calls, since no order of the releases helps against these.
- Signatures.ExtractSignature: the standard deviation is a positive function of the baseline and nothing is rounded.
- AutoscalerLaws.ScalesDownExactly: for a positive `quiet_ticks`; `AutoscalerLaws.QuietTicksActAsOne` reduces the rest to one.
- ControllerBank.TepControllerBank.RunLoops: the six loops are values in a map, not objects; `Pid.PIDController` is the object.

Assumed of the world around the code:

- The bus, the claim and lock operations and the transaction are atomic; parking and publishing do not fail; a store refusal is the one failure of a write.
- The lane, ingestion and resolution code is a state machine of atomic steps, not methods, because its interleavings are the point.
- A live holder gives its extraction lock back before it expires (300 seconds, where a job may run 600), so only locks left behind expire; a cached extraction does not expire (7 days); giving a claim back does not fail; every payload has a content hash.
- A subgraph of a document whose extraction is empty counts as written once its flush round is over.
- Nothing is pushed to the write buffer during a flush; the telemetry stream is not trimmed.
- `prov_hash` is the tuple of its provenance fields, without collisions; property keys named `id` or `prov_hash` do not occur; json text is kept as the value it stands for.
- Strings are sequences of characters; upper and lower case and digits are ASCII; encodings are left out.
- Floats are reals, without rounding, overflow or NaN; clocks are parameters.
- Regular expressions are modelled by recursive functions with their greedy and backtracking behaviour on the patterns used.

Not modelled:

- Language model, embedding, vision and prompt code: extractor output and plans are arbitrary values.
- Neo4j drivers and Cypher text, Redis clients, object storage, Celery, HTTP routes, notifications and the user interface.
- Process models, PCA training and control limits: whether a sample is anomalous is an arbitrary boolean.
- Pruning of document-id nodes and `prune_node`: the reconcile phase alone is modelled.
- The alarm texts, severities and Slack notices of the watcher, and threads racing inside one watcher process.
- The CSTR and column watchers and `ComposeFleet`, which vary machines modelled here.
- `inject_idv`, `saturate_valve`, `bias_sensor` and clearing faults by tag: they only fill the dictionaries the steps read.
- Telemetry slicing into samples for the detector, library refresh, cursors of the diagnostics runtime.
- Connectors, configuration, logging, reports, personas, readers, GraphQL and the gateway.
