# Dinkster core and client: verified models

A Dinkster workflow document holds graphs of nodes. Nodes are wired by links, and wiring passes through aliases: reroutes,
selectors (which pick one of several candidates), widget taps (which re-export the value an input receives), value sources
and named nets. Graphs nest through subgraph definitions, and ids are minted by several actors at once. The client package
follows remote executions of such documents over connections that lose, repeat and reorder messages.

This project models the stateful parts of both packages in Dafny and proves what they promise. Code that changes things
step by step is a method or a class in the same form; where a promise spans steps, each method is proved equal to a
specification function of the old state, and the promise is proved of every run of those functions.

**Wiring.** `Graphs` defines walks, reachability and acyclicity once for everything else. `Reroute` builds the index and traces
one endpoint; `AllProducers` is the walk through every candidate, and `TraceLaws` says link by link what both follow and tell; `ConnectGuards` has the cycle guards, the connect rules and
runs of edits; `GuardedEdits` proves what edits keep of the document checks; `Invariants` has the link, net and cycle checks of a definition, with the three-colour walk as the class
`CycleCheck`; `ValueSources` is the forward walk; `Recursion` is the document check that no definition contains itself;
`Tarjan` and `SelectionExecution` analyse a selection.

**Executions.** `ExecutionStates` says what an event makes of one execution, `ExecutionLog` is the bounded log, `SnapshotMerge` the
conservative merge. `StoreCore` says what each store operation makes of the store, `StoreInvariant` and `StoreLaws` prove what
all operations keep, `StoreEffects` what each operation leaves in the entry it addresses, and `ExecutionStores` is the class that updates its fields in place. `ReconcileTrack` is the coalescing
of overlapping passes, and `Reconcile` runs both reconcilers, the store and live events against each other, one stretch
between awaits at a time.

**Identity, copy and paste.** `AllocatedIds` and `Allocation` print, parse, predict and mint ids; `OccurrenceKeys` prints and parses
occurrence keys down to the octets. `Definitions` orders definitions children first, `DefinitionPaste` plans their import and
proves that meaning is preserved, `Blueprint` is the smaller sibling. `ClipboardPlan` compares predicted ids with minted ones,
nets and groups included, `NetPastes` resolves copied nets, and `PasteLaws` compares what was pasted with what was copied.

**Client protocols.** `Values` and `ValuesClients` are the value client's caches under any interleaving of its requests, `ValueRequests`
says what a read asks for and which answers count, and `ValueReuse` how long a kept read is served. `CollabEvents` is the event buffer, its flush and the turns of several listeners with their
reactions in between; `ReconnectingSocket` is the reconnect machine, with calls made from inside its notifications, and
`SocketHistory` tells what it shows by what was called before. `JsMaps`,
`Ordered` and `Identity` are shared vocabulary.

## What does not hold

- *Connecting can close a cycle.* `connectError` looks for cycles only when the source is a tap or the target is a reroute or a
  candidate. Feeding an input from a reroute that the input's own tap drives is accepted and closes a loop
  (`ConnectGuards.TapCycleSlipsThrough`); the document checks then report it (`GuardedEdits.SlippedCycleIsReported`). A connection
  of existing endpoints keeps a checked definition checked exactly when its source does not already lie downstream of what the
  target feeds (`GuardedEdits.ConnectWellWiredExactly`). Without taps as sources the guards suffice
  (`GuardedEdits.GuardedEditsStayChecked`).
- *Disconnecting inside a notification can fail to close the socket.* A status subscriber that disconnects when told that a socket
  is being created gets it opened all the same (`ReconnectingSocket.OpensAfterClose`). After a disconnect the socket stays closed
  exactly when the disconnect is not made inside the notification of a socket being created or a retry being armed, nor
  inside the open callback (`ReconnectingSocket.StaysClosedExactly`).
- *Disconnecting inside the notification of a retry can end all retries.* The retry is armed all the same, fires while closed, and
  stays noted as armed, so that after the next connect a lost connection is never retried. A disconnect leaves a socket that
  can always be connected again exactly when it is not made there (`ReconnectingSocket.ProgressExactly`).
- *The socket status can lie.* Calling `connect` again while a retry is armed, and losing that socket as well, leaves the status at
  connected with no socket (`ReconnectingSocket.StatusCanLie`). `ReconnectingSocket.LiesExactly` says which steps do it: following up
  the close of a connected socket with a retry still armed, and reporting an open after a disconnect inside the open callback.
  With `connect` and `disconnect` in turn and in their places it never happens (`ReconnectingSocket.AlternatingIsHonest`).
- *A closed collaboration connection can still hand out an event*, in two ways. An emission goes to a snapshot of the listeners, so a
  close made in one listener's turn does not keep the event from the listeners after it (`CollabEvents.HeardInSnapshot`). And a
  subscription made after the close is registered, while the second of two emissions in a row is made without testing again
  (`CollabEvents.HeardAfterClose`). A listener hears something after a close exactly when a snapshot in progress at the close still
  owes it an event, or a bare emission comes while it is subscribed again (`CollabEvents.SilentOnceClosedExactly`); how many events that
  makes is `CollabEvents.DealtAfterClose`.
- *Listeners after the first can hear events out of order.* The buffer's flush queues what listeners provoke, a plain emission does
  not: an event provoked in the first listener's turn reaches the second listener ahead of the one that provoked it
  (`CollabEvents.InnerEventFirst`). A listener hears distinct events in order of arrival exactly when none is emitted outside the flush
  while a snapshot still owes it an older one (`CollabEvents.HeardInOrderExactly`); the first subscriber always does.
- *Importing a definition can give a dangling reference a meaning.* Where the document refers to a definition it lacks, an import of that
  name is picked up (`DefinitionPaste.ImportCaptures`). A definition of the document keeps its meaning exactly when no missing name
  it reaches is imported (`DefinitionPaste.OthersUnfoldAlikeExactly`), and likewise for an inserted blueprint
  (`Blueprint.InsertedUnfoldsAlikeExactly`).
- *A hit does not keep a rendition's alias.* A hit moves the entry to the end of the use order but leaves its alias where it was, and so
  does keeping the read again. However often it was hit, the read goes out again, with its bytes still cached, exactly when more new
  aliases came than its own had room, 255 if it was new (`ValueReuse.KeptReadServedExactly`).
- *An unindexed walk does not see through taps*, although the single trace always does (`AllProducers.UnindexedTap`). The two walks list
  the same producers exactly when no tap the unindexed one meets has a driver or a net source
  (`AllProducers.UnindexedAgreesExactly`).
- *An index and a scan can answer differently.* A built index keeps the last net that lists a sink while a scan finds the first, so two
  nets on one tapped input give two traces (`Reroute.IndexAndScanDiffer`). Traces agree exactly when the walk does not end in
  an undriven tap whose input's first and last listing nets have different sources (`Reroute.IndexIrrelevantExactly`);
  on a definition that passes the checks they always do (`Invariants.CheckedTraceIgnoresIndex`).

## Model

| member | source | states |
|---|---|---|
| Tarjan.TarjanPass.Visit | packages/core/src/selection-execution.ts:61-85 | Starting from any unvisited vertex that all running visits reach, a visit ends with the component of the vertex popped or with the vertex still stacked under a lowlink some reachable stacked vertex attains; stack discipline and connectivity survive; it terminates on every graph. |
| Tarjan.TarjanPass.PopComponent | packages/core/src/selection-execution.ts:76-84 | Exactly the stack above the root is popped, and it joins the cyclic nodes exactly when it has two members or a self-loop. |
| Tarjan.ComponentCyclic | packages/core/src/selection-execution.ts:82-84 | A member of a popped component can return to itself by a nonempty path exactly when the component has two members or its root a self-loop. |
| Tarjan.LeaveRoot | packages/core/src/selection-execution.ts:75-81 | Popping at a root whose successors lead to nothing lower keeps every invariant of the pass, and finishes just that segment. |
| Tarjan.TarjanPass.Run | packages/core/src/selection-execution.ts:54-90 | Every vertex is visited, and `cyclicNodes` is exactly the set of vertices that reach themselves by a nonempty directed path. |
| SelectionExecution.CollapsedEdges | packages/core/src/selection-execution.ts:34-53 | The node digraph has an edge exactly where an output of one node is a producer, through every alias and candidate, of a link into the other, or a net joins them; the reverse map mirrors it. |
| SelectionExecution.DirectedGraph | packages/core/src/selection-execution.ts:34-91 | The digraph together with exactly its self-reaching nodes. |
| SelectionExecution.Reachable | packages/core/src/selection-execution.ts:93-107 | The worklist returns exactly what some start reaches, and terminates on cyclic graphs. |
| SelectionExecution.Extremes | packages/core/src/selection-execution.ts:134-140 | Exactly the selected nodes with no selected node strictly beyond them. |
| SelectionExecution.ExtremeBeyond | packages/core/src/selection-execution.ts:134-140 | From any selected node an extreme one is reached, if no selected node is cyclic. |
| SelectionExecution.SelectedBetween | packages/core/src/selection-execution.ts:138-150 | Every selected node lies between a first and a last one, if no selected node is cyclic. |
| SelectionExecution.BetweenIsConvex | packages/core/src/selection-execution.ts:146-152 | On an acyclic selection `between` equals the selection exactly when no directed path leaves and re-enters it. |
| SelectionExecution.OneStartSuffices | packages/core/src/selection-execution.ts:154-167 | A sweep from one member covers the set exactly when any two members are joined by edges of either direction inside it. |
| SelectionExecution.CheckConnected | packages/core/src/selection-execution.ts:154-167 | The sweep decides weak connectivity. |
| SelectionExecution.ContiguityExact | packages/core/src/selection-execution.ts:152-179 | The three tests the code combines decide contiguity: several acyclic nodes, convex and joined. |
| SelectionExecution.AnalyzeSelectionExecution | packages/core/src/selection-execution.ts:110-181 | For every definition and selection: first, last, sinks, closures and between are exactly what they are named for over the collapsed digraph, and `contiguous` holds exactly for contiguous selections. |
| Reroute.BuildRerouteIndex | packages/core/src/reroute.ts:71-103 | One pass each over links and nets builds an index whose entries are the first driver of each target, the links out of each alias, and the last net source of each sink. |
| Reroute.RerouteDriverOf | packages/core/src/reroute.ts:106-116 | The first link into the reroute, by index or by scan alike. |
| Reroute.SelectorDriverOf | packages/core/src/reroute.ts:371-387 | The first link into the candidate, by index or by scan alike. |
| Reroute.InputNetSourceOf | packages/core/src/reroute.ts:196-208 | The source of the last net that lists the input with an index, and of the first one without. |
| Reroute.NetSourceAgreesExactly | packages/core/src/reroute.ts:99-101 | Index and scan pick the same net source of an input exactly when the first and the last net that list it have the same source. |
| Reroute.IndexAndScanDiffer | packages/core/src/reroute.ts:196-208 | Two nets of different sources on one tapped input: the indexed trace answers with the last, the unindexed one with the first. |
| Reroute.IndexIrrelevantExactly | packages/core/src/reroute.ts:180-242 | For every definition, selection and start, the trace with a built index and the one without agree exactly when the walk does not end in an undriven tap whose first and last listing nets differ in source. |
| Reroute.TraceEndpoint | packages/core/src/reroute.ts:180-242 | Terminates on every definition, malformed or not; a cycle report names an element the upstream walk from the endpoint comes back to, any other report names where that walk ends and the last link it crossed. |
| Reroute.TraceExclusive | packages/core/src/reroute.ts:180-242 | A walk that loops never resolves, so each outcome of a trace excludes the other. |
| AllProducers.TraceEndpointAll | packages/core/src/reroute.ts:273-356 | Terminates on every definition; the results are exactly the terminal producers reachable upstream through all (or the narrowed) candidates, each once, and the via record is exactly the aliases on the way. |
| AllProducers.TraceSubsumed | packages/core/src/reroute.ts:180-356 | Whatever valid selection is made, a resolved single trace names a producer the all-candidates walk lists as well, up to the last link. |
| AllProducers.AcyclicNeverLoops | packages/core/src/reroute.ts:180-242 | On an acyclic definition no trace reports a cycle, whatever declared candidates are chosen. |
| AllProducers.UnindexedAgreesExactly | packages/core/src/reroute.ts:273-356 | With and without an index the walk lists the same producers exactly when no tap met without one has a driver or a net source. |
| AllProducers.UnindexedTap | packages/core/src/reroute.ts:303-304 | A driven tap is reported as its own value without an index, and as the producer behind it with one. |
| TraceLaws.DriverExactly | packages/core/src/reroute.ts:82-101 | The driver of an endpoint is the first link of the document into it. |
| TraceLaws.CrossesExactly | packages/core/src/reroute.ts:180-242 | A trace crosses a link exactly when it is the first one into the reroute, the input a tap reads, or the candidate named or else selected. |
| TraceLaws.ResolvedExactly | packages/core/src/reroute.ts:180-242 | What a resolved trace tells, link by link: where the walk stops because nothing drives what it reads there, the last link crossed, and for an undriven tap the net source, the last with an index and the first without. |
| TraceLaws.LoopedExactly | packages/core/src/reroute.ts:180-242 | A cycle report names the reroute, the tap, or the candidate named or selected that the walk comes back to. |
| TraceLaws.AllStepExactly | packages/core/src/reroute.ts:273-356 | One step of the walk through all candidates leads along the first link, to the narrowed candidate or every declared one, and through a tap with an index only. |
| TraceLaws.TerminalExactly | packages/core/src/reroute.ts:273-356 | The producers listed are ports, value sources, and aliases that nothing drives. |
| ConnectGuards.UpstreamHitsJunction | packages/core/src/reroute.ts:396-434 | True exactly when the junctions upstream of the endpoint include a hit; terminates on cyclic definitions. |
| ConnectGuards.WouldCreateRerouteCycle | packages/core/src/reroute.ts:440-450 | True exactly when the reroute lies upstream of the source through junctions. |
| ConnectGuards.WouldCreateSelectorCycle | packages/core/src/reroute.ts:460-472 | True exactly when some end of the selector lies upstream of the source through junctions. |
| ConnectGuards.WouldCreateTapCycle | packages/core/src/reroute.ts:475-483 | True exactly when tracing the tap in the definition with the prospective link loops. |
| ConnectGuards.RerouteGuardExact | packages/core/src/reroute.ts:436-450 | On an acyclic definition without tap sources, connecting to a reroute keeps it acyclic exactly when the reroute guard is false. |
| ConnectGuards.SelectorGuardExact | packages/core/src/reroute.ts:452-472 | On an acyclic definition without tap sources, connecting to a declared candidate keeps it acyclic exactly when the selector guard is false. |
| ConnectGuards.ConnectError | packages/core/src/commands/core-commands.ts:1368-1397 | A connection is refused exactly when it breaks one of the connect rules, with the guards read as reachability, and the refusal is the one whose meaning holds; the meanings exclude each other. |
| ConnectGuards.ConnectCycleExact | packages/core/src/commands/core-commands.ts:1332-1430 | In any acyclic definition, taps included, a connection closes a cycle exactly when its source already lies downstream of the element the target feeds. |
| ConnectGuards.TapCycleSlipsThrough | packages/core/src/commands/core-commands.ts:1368-1397 | An accepted connection that closes a cycle through a tap. |
| ConnectGuards.EditKeepsAcyclic | packages/core/src/commands/core-commands.ts:1368-1430 | One guarded edit keeps a definition without tap sources legal and acyclic. |
| ConnectGuards.GuardedEditsStayAcyclic | packages/core/src/commands/core-commands.ts:1368-1430 | However long the run of guarded edits, the definition stays acyclic and no trace over it loops under any choice of declared candidates. |
| GuardedEdits.ChainsAcyclicExactly | packages/core/src/invariants.ts:693-741 | On well-formed links the chains the checks walk are acyclic exactly when the whole upstream relation is. |
| GuardedEdits.ConnectWellWiredExactly | packages/core/src/commands/core-commands.ts:1332-1430 | Connecting existing endpoints of a checked definition, taps included, leaves every check silent exactly when the source does not already lie downstream of what the target feeds. |
| GuardedEdits.EditKeepsWired | packages/core/src/commands/core-commands.ts:1368-1430 | One guarded edit keeps single drivers, existing endpoints, free net sinks and acyclic chains. |
| GuardedEdits.GuardedEditsStayChecked | packages/core/src/commands/core-commands.ts:1368-1430 | However long the run of guarded edits of existing endpoints, the document checks report nothing. |
| GuardedEdits.SlippedCycleIsReported | packages/core/src/commands/core-commands.ts:1368-1397 | The accepted connection that closes a tap cycle turns a checked definition into one the checks report. |
| Invariants.CycleCheck.Run | packages/core/src/invariants.ts:692-741 | After the three-colour walk over reroutes, selectors and tapped sources, nothing was reported exactly when no alias depends on itself. |
| Invariants.Verdict | packages/core/src/invariants.ts:692-741 | With every alias finished and no meeting of a running one, the ranks rule out every cycle; a meeting is a cycle. |
| Invariants.CheckLinks | packages/core/src/invariants.ts:571-691 | The link pass records the first driver of each target and reports exactly what is wrong with each link: an endpoint that does not exist, a kind that cannot be a source or a target, a target an earlier link drives. |
| Invariants.CheckNets | packages/core/src/invariants.ts:743-756 | The net pass reports exactly the net endpoints that do not exist and the sinks a link or an earlier sink drives. |
| Invariants.CheckGraphDef | packages/core/src/invariants.ts:560-756 | A diagnostic is reported exactly when what it says holds of a link, a sink or an alias chain; in particular none is exactly when links and nets are well formed with one driver per target and alias chains are acyclic. |
| Invariants.CheckedNeverLoops | packages/core/src/invariants.ts:692-741 | A definition without diagnostics is never traced into a cycle: from any endpoint, under any selector resolution, with or without an index. |
| Invariants.CheckedLinksJoin | packages/core/src/invariants.ts:571-691 | Every link of a definition without diagnostics joins elements that exist, from one that gives a value to one that takes it, and a candidate it feeds is one its selector expands to. |
| Invariants.CheckedStructureAcyclic | packages/core/src/invariants.ts:692-741 | The checks also exclude every cycle of the relation that expands all candidates. |
| Invariants.CheckedTraceIgnoresIndex | packages/core/src/reroute.ts:99-208 | On a definition without diagnostics, a built index and a scan give the same trace from every endpoint, although they pick nets differently. |
| ValueSources.ValueSourceConsumersOf | packages/core/src/value-source.ts:43-73 | The inputs listed are exactly those that links out of the value source lead to through reroutes and selectors; cycles are safe. |
| ValueSources.ConsumersConverse | packages/core/src/value-source.ts:43-73 | On single-driver definitions without tap sources, where only declared candidates are fed, an input is a consumer of a value source exactly when the source is among the producers listed from the link that drives the input. |
| Recursion.CheckNoRecursion | packages/core/src/invariants.ts:893-918 | The document check passes exactly when no definition reaches itself through its instances. |
| Recursion.CheckedIsWellFounded | packages/core/src/invariants.ts:893-918 | In a document that passes without dangling references, no definition order is refused. |
| ExecutionLog.LogInsertionIndex | packages/client/src/execution-store.ts:260-272 | Binary search over the sorted log: -1 exactly for a number already retained, else how many records precede it. |
| ExecutionLog.AddRecord | packages/client/src/execution-store.ts:647-678 | Duplicates and records older than a full buffer change nothing; any other is inserted in order, and the excess is dropped from the front and counted. |
| ExecutionLog.LogInvariant | packages/client/src/execution-store.ts:647-678 | After any deliveries the log is strictly sorted, within its cap, holds only delivered numbers, and anything delivered but not retained is older than a full log. |
| ExecutionLog.RetainsLargest | packages/client/src/execution-store.ts:647-678 | A delivered number is retained exactly when fewer than 2000 of the distinct delivered numbers exceed it, whatever the order and duplication of delivery. |
| ExecutionLog.OrderIrrelevant | packages/client/src/execution-store.ts:647-678 | Two deliveries of the same numbers, in any order and with any repetition, retain the same numbers. |
| ExecutionLog.RetainsFirstDelivery | packages/client/src/execution-store.ts:260-272 | What is retained for a number is its first delivery. |
| ExecutionLog.Accounting | packages/client/src/execution-store.ts:647-678 | Retained plus dropped equals the number of accepted deliveries. |
| SnapshotMerge.MergeSnapshotNodes | packages/client/src/execution-store.ts:289-317 | The merge loop computes the node-wise merge of live and snapshot states. |
| SnapshotMerge.SnapshotNeverRegresses | packages/client/src/execution-store.ts:289-317 | A terminal node keeps its state and everything reported live; any other either stays as it is or takes the snapshot's terminal state with everything the snapshot says. |
| SnapshotMerge.SnapshotIdempotent | packages/client/src/execution-store.ts:289-317 | Replaying a snapshot changes nothing more. |
| ExecutionStates.PreviewBytesOf | packages/client/src/execution-store.ts:225-244 | The bytes of every distinct payload object the entry holds, each object once however often it is shared. |
| StoreInvariant.RunInvariant | packages/client/src/execution-store.ts:368-933 | Over every run of operations: lost and unconfirmed keys are live and lost entries are interrupted, tombstones are disjoint from live entries and at most 400, terminal entries hold no frame ring, logs stay sorted and capped, a connection over 200 entries has no evictable one, and the preview bytes of its terminal and unconfirmed entries are at most 64 MiB or one entry's frames, whichever is larger. |
| StoreInvariant.VerdictIsFinal | packages/client/src/execution-store.ts:484-739 | While an entry lives, no run of operations changes an authoritative terminal status or its end time. |
| StoreInvariant.StepLaw | packages/client/src/execution-store.ts:368-842 | One operation leaves an authoritative verdict in place and changes a log only by the log event addressed to that entry. |
| StoreInvariant.LogHistory | packages/client/src/execution-store.ts:647-678 | A live entry's log is what its own records alone make of it, whatever else happened. |
| StoreInvariant.StoreRetainsLargest | packages/client/src/execution-store.ts:647-678 | Through the whole store, a live entry retains a delivered record exactly when fewer than the cap of its delivered numbers exceed it. |
| StoreInvariant.EvictsOldest | packages/client/src/execution-store.ts:877-896 | Whenever an evictable entry stays, whatever was evicted was evictable, on the connection, and queued no later, and no more than the excess went. |
| StoreInvariant.StripsOldest | packages/client/src/execution-store.ts:851-867 | Frames go oldest first: once an entry is stripped every older budgeted one is, and the newest never. |
| StoreInvariant.ProtectedSurvives | packages/client/src/execution-store.ts:820-896 | No single operation evicts a pinned entry unless it releases the last pin, nor a vouched-for entry still running or provisionally lost unless it ends it. |
| StoreLaws.NeverResurrected | packages/client/src/execution-store.ts:449-482 | While its tombstone stands, no late event brings an evicted run back; only a run start, a submission or a proven result can. |
| StoreLaws.JoinsUnconfirmed | packages/client/src/execution-store.ts:906-928 | A key first seen through anything but a run start joins unconfirmed, and only if it was not evicted recently. |
| StoreLaws.HydrationKeepsLive | packages/client/src/execution-store.ts:745-756 | Hydrated outputs fill gaps only: live outputs stay, and everything either side knows is there and nothing else. |
| StoreLaws.HydrationIdempotent | packages/client/src/execution-store.ts:745-756 | Hydrating again changes nothing more. |
| StoreLaws.FramesStaySound | packages/client/src/execution-store.ts:563-627 | No event files a frame under another stream, slot or ring length than the one it is addressed to. |
| StoreEffects.ApplyEffect | packages/client/src/execution-store.ts:471-739 | What any event leaves in its entry, known or new, if that survives: its own status, start and end, unless the verdict was final; a loss verdict withdrawn with its warning; node states, regions, outputs, activities, diagnostics, log and frames each as the event says; every other field as it was. Frames may be stripped, but only by an end of a run or a frame that counts toward the budget. |
| StoreEffects.ApplySparesOthers | packages/client/src/execution-store.ts:471-739 | An event leaves every other entry as it was, up to frames stripped on the same connection. |
| StoreEffects.RegisterEffect | packages/client/src/execution-store.ts:368-400 | A registered execution is there and vouched for: a new one queued and blank, a known one with what is told anew and nothing else changed. |
| StoreEffects.RestoreEffect | packages/client/src/execution-store.ts:402-446 | A proven result of an unknown execution is adopted field by field as completed; a known one is left alone. |
| StoreEffects.MarkLostEffect | packages/client/src/execution-store.ts:779-799 | A loss verdict on a run that is not over interrupts it provisionally at that time with one warning more; on any other it changes nothing. |
| StoreEffects.HydrateEffect | packages/client/src/execution-store.ts:745-772 | Hydrating outputs, artifacts or the submitter writes that field of a known entry and nothing else, and nothing at all for an unknown one. |
| StoreEffects.PinEffect | packages/client/src/execution-store.ts:826-842 | Pins are counted, a release takes one back, and only the last one lets an entry go. |
| ExecutionStores.ExecutionStore.Register | packages/client/src/execution-store.ts:368-405 | The store afterwards is `StoreCore.Register` of the store before, with the shape kept. |
| ExecutionStores.ExecutionStore.RestoreCompleted | packages/client/src/execution-store.ts:408-447 | A proven result is adopted as its specification says; an entry already known stays. |
| ExecutionStores.ExecutionStore.Apply | packages/client/src/execution-store.ts:449-482 | The store after an event is `StoreCore.Apply` of the store before: admission, tombstone discard, the event and the passes it calls for. |
| ExecutionStores.ExecutionStore.ApplyToState | packages/client/src/execution-store.ts:484-739 | Each event kind leaves exactly the specified entry, loss verdict, budget and evictions. |
| ExecutionStores.ExecutionStore.EnforcePreviewBudget | packages/client/src/execution-store.ts:851-867 | The newest-first loop strips exactly the entries whose running total exceeds the budget, the newest excepted. |
| ExecutionStores.ExecutionStore.EvictExecutionEntries | packages/client/src/execution-store.ts:877-896 | The oldest-first loop evicts exactly the excess and leaves a tombstone for each. |
| ExecutionStores.ExecutionStore.MarkLost | packages/client/src/execution-store.ts:778-794 | A reconcile verdict touches no terminal entry and leaves any other provisionally interrupted. |
| ExecutionStores.ExecutionStore.Release | packages/client/src/execution-store.ts:826-837 | One pin is dropped; the last one lets the entry be evicted. |
| ExecutionStores.ExecutionStore.HydrateOutputs | packages/client/src/execution-store.ts:745-756 | Outputs are merged under the live ones of a known entry. |
| ReconcileTrack.Supersedable.Invoke | packages/client/src/reconcile-track.ts:21-53 | A call joins the promise in flight or starts a loop; it is recorded with the promise it got and the time it was made. |
| ReconcileTrack.Supersedable.PassEnded | packages/client/src/reconcile-track.ts:34-50 | A pass that is still current settles the promise with its own verdict; a superseded one is rerun and its verdict is dropped. |
| ReconcileTrack.RunInv | packages/client/src/reconcile-track.ts:21-53 | The protocol invariant holds after every interleaving of calls and pass completions. |
| ReconcileTrack.OnePassPerKey | packages/client/src/reconcile-track.ts:21-53 | At most one pass runs per key, and it answers the key's promise in flight. |
| ReconcileTrack.AnsweredByLaterPass | packages/client/src/reconcile-track.ts:34-50 | A call is answered only by a pass that began at or after it and that no call had superseded, so a superseded failure never rejects it; until then its pass is still running. |
| ReconcileTrack.PassesBounded | packages/client/src/reconcile-track.ts:21-53 | A key sees no more passes than calls, so finitely many calls terminate, and at least one for each promise it settled or is running. |
| ReconcileTrack.TwoEndsSettle | packages/client/src/reconcile-track.ts:34-50 | Without new calls a promise settles after at most one more pass. |
| Reconcile.RunInv | packages/client/src/dinkster-reconcile.ts:62-130 | The store's invariant and the protocol's survive every interleaving of reconnects, live events, store calls and pass stretches, for both reconcilers. |
| Reconcile.VerdictsAreCurrent | packages/client/src/reconcile.ts:46-93 | Every loss verdict committed is for a run of the pass's own connection, by a pass that no call had superseded. |
| Reconcile.VerdictFresh | packages/client/src/dinkster-reconcile.ts:62-130 | A verdict passed now by a current pass is for a run of its own connection, and every call of its key so far came before the pass began. |
| Reconcile.LostExactly | packages/client/src/reconcile.ts:68-93 | For every pass of every run: an exchange loses its run exactly when the pass is current and was told, natively, that the job is missing, or else a missing history, a queue read that does not list the prompt, and a second missing history. |
| Reconcile.VerdictFounded | packages/client/src/reconcile.ts:68-93 | Every verdict is such an exchange, on the record of the pass that passed it. |
| Reconcile.TakesWhatIsOpen | packages/client/src/dinkster-reconcile.ts:67-76 | A pass takes up exactly the queued and running entries of its connection when it began, natively also completed ones without artifacts. |
| Reconcile.EveryRunAnswered | packages/client/src/dinkster-reconcile.ts:77-130 | A pass that ended unsuperseded and could read the queue is done with every run it took up: a found or failed reply, the queue listing it, or a loss. |
| Reconcile.ReplyTakesEffect | packages/client/src/reconcile.ts:66-93 | At any moment of any run: a found record is replayed into the store, a founded loss marks the run lost, and no other reply touches the store. |
| Values.RunInv | packages/client/src/values.ts:478-625 | Bounds, provenance and ordering hold after every interleaving of peeks and rendition reads. |
| Values.RunBounds | packages/client/src/values.ts:361-371 | At most 64 renditions and 64 MiB, 256 aliases and 256 announcements are kept, and announcements of one query are committed in strictly increasing request order. |
| Values.CommitIsNewest | packages/client/src/values.ts:478-532 | A peek that commits is newer than every earlier commit of its query, even one whose announcement was evicted meanwhile. |
| Values.HitWasStored | packages/client/src/values.ts:538-625 | A cache hit serves what an earlier kept read of the very same request returned: same address, announced identity, renderer version and epoch. |
| Values.KeptReadHits | packages/client/src/values.ts:600-625 | A kept read is served at once to the same read begun next. |
| ValueReuse.KeptReadServedExactly | packages/client/src/values.ts:538-625 | At any later time, over any interleaving, at which the same address, announced identity, renderer version and epoch stand, as long as it and what was used since its last use never exceed 64 entries or 64 MiB, and unless its request was kept again: the read is served the kept bytes exactly when no more new aliases came than its own had room. |
| ValueReuse.FitSpares | packages/client/src/values.ts:611-617 | Evicting to fit never reaches an entry that fits together with what was used after it. |
| Values.FitKeepsNewest | packages/client/src/values.ts:608-623 | Eviction keeps a suffix of the use order, so the least recently used go first. |
| ValueRequests.RequestExactly | packages/client/src/values.ts:538-553 | After any run a read asks for its own query, options, renderer version and epoch and for what the newest commit of its query announced, if that is remembered: a default read for the key of the first default rendition, a named one for that of the last rendition of its kind that has one, and without a key for the plain kind. |
| ValueRequests.ReadGoesOut | packages/client/src/values.ts:546-568 | A read that is served is used anew and sends nothing; any other goes out with that request and key and changes nothing. |
| ValueRequests.CommitsExactly | packages/client/src/values.ts:497-506 | After any run a peek in flight commits exactly when every commit of its query is of an earlier request and, unless its query is remembered, no ordering knowledge was lost since it began. |
| ValueRequests.AnswerEffect | packages/client/src/values.ts:497-531 | A commit is remembered as the newest and all others as they were, except the least recently announced one beyond 256; aliases are lost just then and on an answer that cannot be ordered. |
| ValueRequests.InFlightUntilAnswered | packages/client/src/values.ts:478-625 | A peek goes out under the next sequence and stays in flight until its own answer; a refused answer changes nothing in the client; reads likewise. |
| ValueRequests.KeptExactly | packages/client/src/values.ts:599-622 | An answer is kept exactly when it has an identity and the size fits, and neither another announcement nor a loss of ordering came since its read went out; its identity is the tag, else the key asked for, else what it prints. |
| ValuesClients.DinksterValuesClient.PeekAnswered | packages/client/src/values.ts:478-532 | The client after an answer is `Values.FinishPeek` of the client before: commit or discard by sequence and epoch. |
| ValuesClients.DinksterValuesClient.RenditionStart | packages/client/src/values.ts:538-575 | A read is a hit or a fetch, never both, and a hit becomes the most recently used. |
| ValuesClients.DinksterValuesClient.RenditionAnswered | packages/client/src/values.ts:576-625 | The client after the bytes arrive is `Values.FinishRead` of the client before. |
| ValuesClients.FitInPlace | packages/client/src/values.ts:612-623 | The eviction loop, counting bytes once and updating the count, ends with exactly the entries that fit. |
| Definitions.DefinitionOrder | packages/core/src/clipboard.ts:144-177 | An order comes back exactly when every definition the roots reach exists and none contains itself; it lists each reached definition once, children first. |
| Definitions.OrderComplete | packages/core/src/clipboard.ts:144-177 | A children-first list that holds the roots lists exactly what they reach, and proves it well-founded. |
| DefinitionPaste.FreshId | packages/core/src/clipboard.ts:685-694 | The bounded scan always finds an unreserved generated id. |
| DefinitionPaste.CursorBounded | packages/core/src/clipboard.ts:685-694 | The cursor never passes the number of reserved ids, which is why the bound suffices. |
| DefinitionPaste.PlanDefinitionPaste | packages/core/src/clipboard.ts:642-720 | Within one lineage ids stay; otherwise it refuses exactly on a missing or self-containing definition, ids are injective, no definition of the target is overwritten, every copied definition is in the target with its instances renamed consistently, and what is held already is kept while everything else is imported. |
| DefinitionPaste.ImportedExactly | packages/core/src/clipboard.ts:696-717 | A definition keeps its id without an import exactly when the target holds it already, instances renamed and layout included; otherwise there is exactly one import, under its own id if that is free and else under the first generated id new to both sides. |
| DefinitionPaste.LayoutsCarried | packages/core/src/clipboard.ts:696-717 | After the imports every copied definition has, under its id in the document, the layout it was copied with, and every definition of the document its own. |
| DefinitionPaste.PastedAgain | packages/core/src/clipboard.ts:642-720 | Pasting again right after a paste that renamed nothing imports nothing and renames nothing. |
| DefinitionPaste.RenamedUnfoldsAlike | packages/core/src/clipboard.ts:622-640 | A consistent renaming of a closed family preserves what every definition unfolds to, to any depth. |
| DefinitionPaste.PastedUnfoldsAlike | packages/core/src/clipboard.ts:622-720 | In the target, a pasted definition unfolds to the same tree as the copied one. |
| DefinitionPaste.PastedNodeMeansAlike | packages/core/src/clipboard.ts:622-625 | A pasted node, retyped, stands for what the copied node stood for. |
| DefinitionPaste.OthersUnfoldAlike | packages/core/src/clipboard.ts:696-720 | What the target's own definitions stand for does not change, as long as none of them is dangling. |
| DefinitionPaste.OthersUnfoldAlikeExactly | packages/core/src/clipboard.ts:684-717 | Dangling references allowed: a definition of the target unfolds as before at every depth exactly when no missing name it reaches is among the ids after the paste. |
| DefinitionPaste.ImportCaptures | packages/core/src/clipboard.ts:709-717 | An instance of a missing definition stands for something else once a definition of that name is imported. |
| DefinitionPaste.PastedIsWhole | packages/core/src/clipboard.ts:144-177 | The tree of an ordered definition is finite and complete: nothing in it is missing. |
| Blueprint.MaterializeBlueprint | packages/core/src/blueprint.ts:44-115 | Fails exactly on a missing root or a root without boundary; otherwise the whole cone of the root is copied under distinct ids new to the target, rewritten consistently, and nothing else; the ids are the first free ones, and the root gets the least. |
| Blueprint.ConeExact | packages/core/src/blueprint.ts:60-80 | The depth-first walk collects exactly the definitions the root reaches. |
| Blueprint.InsertedUnfoldsAlike | packages/core/src/blueprint.ts:81-115 | An inserted copy unfolds to what the blueprint's definition unfolds to, in a blueprint without dangling references. |
| Blueprint.InsertedUnfoldsAlikeExactly | packages/core/src/blueprint.ts:81-115 | Dangling references allowed: an inserted copy unfolds to what the blueprint's definition unfolds to exactly when no name that definition reaches and the blueprint lacks is taken in the target afterwards. |
| AllocatedIds.ParseOfFormat | packages/core/src/ids.ts:328-352 | Parsing inverts printing, for solo and actor ids. |
| AllocatedIds.FormatOfParse | packages/core/src/ids.ts:342-352 | Only canonical ids parse: printing inverts parsing. |
| AllocatedIds.FormatInjective | packages/core/src/ids.ts:328-330 | Equal ids have equal prefix, ordinal and actor. |
| AllocatedIds.ValidActorExactly | packages/core/src/ids.ts:308-311 | An actor id is valid exactly when it is a nonempty string of ASCII letters, digits, underscores and hyphens other than the prototype's name. |
| AllocatedIds.GroupKeyExactly | packages/core/src/ids.ts:370-393 | A group key counts toward the floor exactly when it is the canonical print of an ordinal whose successor is safe. |
| AllocatedIds.GroupIdFloor | packages/core/src/ids.ts:383-393 | The least cursor at or above the recorded one and above every canonical key. |
| AllocatedIds.GroupIdsFresh | packages/core/src/group-alloc.ts:52-58 | No id minted at or above the floor is taken, whatever other keys exist. |
| Allocation.GraphAllocator.Mint | packages/core/src/commands/alloc.ts:60-86 | The id at the cursor, which moves on by one; refused once the successor would not be a safe integer. |
| Allocation.RunCommand | packages/core/src/commands/alloc.ts:60-86 | A command's mints and its cursor commit are those of `Allocation.Allocate`, all or nothing. |
| Allocation.AllocatesExactly | packages/core/src/commands/alloc.ts:60-86 | A command mints all it asks for, consecutively from its own cursor, and moves that cursor alone past them; or nothing when they would pass the safe integers. |
| Allocation.DispatchesInTurn | packages/core/src/commands/alloc.ts:60-86 | Each further command adds what it mints and its cursor to what the ones before it left, and a refused one adds nothing. |
| Allocation.MintedReads | packages/core/src/commands/alloc.ts:60-86 | Each minted id reads back as its prefix, ordinal and scope. |
| Allocation.MintedIdsNeverCollide | packages/core/src/invariants.ts:480-502 | Over any commands by any mix of solo and actor scopes, all minted ids are distinct, none existed before, and every id stays below its own cursor. |
| Allocation.PredictionIsMinted | packages/core/src/commands/alloc.ts:47-53 | The predicted id is the first one the command mints, and no id is predicted exactly when a mint would be refused. |
| Allocation.PredictionOutlivesOthers | packages/core/src/commands/alloc.ts:43-53 | Any number of commands by other scopes leave the prediction what it was. |
| OccurrenceKeys.UnescapeOfEscape | packages/core/src/ids.ts:238-240 | Decoding inverts encoding on every string, through UTF-8 octets, percent-encoding (section 2.1 of RFC 3986) and the encoded dot. |
| OccurrenceKeys.FromUtf8Exactly | packages/core/src/ids.ts:240 | Octets read as a character exactly when they are the octets it is written with, so overlong and broken forms are refused. |
| OccurrenceKeys.KeptExactly | packages/core/src/ids.ts:238-239 | A character is kept as it is exactly when it is an ASCII letter, a digit or one of eight marks; the dot is not. |
| OccurrenceKeys.ParseOfOccurrenceKey | packages/core/src/ids.ts:243-257 | Parsing returns the occurrence for paths of nonempty segments, and refuses any key with an empty one. |
| OccurrenceKeys.OccurrenceKeyInjective | packages/core/src/ids.ts:243-246 | Distinct occurrences have distinct keys, empty segments included. |
| OccurrenceKeys.ExecutionKeyInjective | packages/core/src/ids.ts:260-262 | Distinct executions have distinct keys. |
| OccurrenceKeys.WithinExactly | packages/core/src/ids.ts:269-271 | A key lies within an instance exactly when the occurrence's instance path starts with it. |
| OccurrenceKeys.KeyIsBackendSafe | packages/core/src/ids.ts:222-246 | No key contains a character the backend reserves for iteration paths. |
| ClipboardPlan.PlanClipboardPaste | packages/core/src/clipboard.ts:894-951 | A plan comes back exactly when something was copied, its definitions can be planned, the actor is valid, and every mint of a node, reroute, link, rewired input, created net and group fits under its cursor; it predicts consecutive node and reroute ids and keeps exactly the stubs that still fit. |
| ClipboardPlan.Materialize | packages/core/src/clipboard.ts:1005-1171 | The commit succeeds exactly when its definitions can be planned and its mints fit; ids come consecutively kind by kind, links with both ends copied are pasted in order, one net id is minted for each record that calls for one, net sinks land on free inputs only, and groups get ids no live group or binding has. |
| ClipboardPlan.PlanThenPaste | packages/core/src/clipboard.ts:854-1171 | A returned plan never fails at commit, predicts every node and reroute id, and overwrites no group; with safe cursors, a plan refused for exhaustion or definitions would have failed at commit. |
| ClipboardPlan.SentCountsAlike | packages/core/src/clipboard.ts:894-951 | What a plan sends commits exactly the mints the plan counted, created nets included, also after the commit validates the stubs again. |
| ClipboardPlan.MintedForCopied | packages/core/src/clipboard.ts:1094-1094 | The nodes the commit minted for are exactly the nodes whose records the plan asked about. |
| ClipboardPlan.PasteNets | packages/core/src/clipboard.ts:1094-1133 | Created nets take consecutive ids and nothing else takes one; no sink lands on an input that is driven already or twice, and every copied sink of a record not dropped is driven in the end. |
| ClipboardPlan.PasteGroups | packages/core/src/clipboard.ts:1148-1171 | Fails exactly when the group cursor runs out; each id is new among live groups, among ids that bindings name, and among each other. |
| ClipboardPlan.IncomingIdempotent | packages/core/src/clipboard.ts:796-834 | Validating the kept stubs again keeps them all. |
| ClipboardPlan.RetainedIsRemapped | packages/core/src/clipboard.ts:1029-1085 | The links the commit pastes are exactly the ones the plan counted as retained. |
| ClipboardPlan.CopiesFollow | packages/core/src/clipboard.ts:1029-1072 | The k-th pasted link runs, under the k-th id, from the renamed start of the k-th retained link to its renamed end. |
| ClipboardPlan.RemapInjective | packages/core/src/clipboard.ts:1029-1085 | Distinct endpoints have distinct copies. |
| PasteLaws.PastedLinksJoin | packages/core/src/clipboard.ts:1054-1072 | There is one pasted link for each link with both ends copied, in order and under the next id, from the copy of where it ran from to the copy of where it ran to: the node or reroute renamed, port, members and tap the same. |
| PasteLaws.RewiredInputs | packages/core/src/clipboard.ts:1073-1089 | Each stub whose target was copied gives one link, under the next id, from the source it names to the copy of its target. |
| PasteLaws.DrivenExactly | packages/core/src/clipboard.ts:1059-1089 | The copy of an input is driven exactly by a copied link into the original or by a stub that names it. |
| PasteLaws.DrivenOnce | packages/core/src/clipboard.ts:1029-1133 | Nothing a paste makes drives an input twice: the ends of its links and rewired inputs and the sinks of its nets are all distinct, if no two copied links ended in one input. |
| PasteLaws.StubKeptExactly | packages/core/src/clipboard.ts:796-834 | A stub is kept exactly when it was copied from this very graph, its source is there with its type and outside the copy, its target is copied with its type, fed by no copied link and named by no other stub, and the addresses resolve and the caller accepts. |
| NetPastes.ResolvedExactly | packages/core/src/clipboard.ts:749-785 | A record makes a net with its copied source exactly when its source was copied; with a copied sink only, it joins the first net of its name exactly when that has the source recorded, else it makes a net exactly when a node of the recorded type is still there, and otherwise it is dropped. |
| NetPastes.FreeName | packages/core/src/clipboard.ts:757-762 | The suffix search ends, and returns the smallest suffix not taken. |
| NetPastes.CreationsCounted | packages/core/src/clipboard.ts:939-939 | Whatever names come out, as many actions create a net as there are records that call for one. |
| NetPastes.ResolveNetPastes | packages/core/src/clipboard.ts:749-786 | Each record is skipped, merged or created by the recorded rules; created names clash neither with existing nets nor with each other, and each has the least suffix that neither a net nor an earlier creation took. |
| CollabEvents.BufferExact | packages/client/src/collab-connection.ts:654-674 | The buffer is the in-order subsequence of the buffered kinds without a prefix of the ops; another event is lost only once every op so far is; never more than 4096. |
| CollabEvents.BufferedSoFar | packages/client/src/collab-connection.ts:647-674 | Before anyone listens the connection holds exactly that buffer. |
| CollabEvents.SeenInOrder | packages/client/src/collab-connection.ts:604-676 | The first subscriber is handed the buffer and then everything since, in order of arrival, whatever listeners provoke in their turns and whoever else subscribes or leaves; what it was not handed yet is the queue of the flush. |
| CollabEvents.SeenEverything | packages/client/src/collab-connection.ts:604-632 | Once the flush is over the first subscriber has been handed everything. |
| CollabEvents.HeardInOrderExactly | packages/client/src/collab-connection.ts:604-676 | Of distinct events any listener hears, or is still to be handed, exactly the arrivals in order, if and only if none is emitted outside the flush while a snapshot owes it an older one. |
| CollabEvents.HeardAtRest | packages/client/src/collab-connection.ts:604-676 | The same of what it has heard once every hand-out has run its course. |
| CollabEvents.InnerEventFirst | packages/client/src/collab-connection.ts:647-676 | Two listeners: an event provoked in the first one's turn reaches the second one ahead of the event that provoked it. |
| CollabEvents.DealtAfterClose | packages/client/src/collab-connection.ts:604-676 | After a close a listener is handed or owed exactly what it was owed at the close and one event for each bare emission while it is subscribed again; nothing of that is lost. |
| CollabEvents.SilentOnceClosedExactly | packages/client/src/collab-connection.ts:604-676 | For every run up to a close and every run after it that ends with no hand-out in progress: a listener heard something after the close exactly when a snapshot in progress at the close still owed it an event, or a bare emission came while it was subscribed again. |
| CollabEvents.SilentOnceClosed | packages/client/src/collab-connection.ts:634-645 | Behind the callers' tests, and with no snapshot owing it anything at the close, a closed connection hands a listener nothing more. |
| CollabEvents.HeardInSnapshot | packages/client/src/collab-connection.ts:674-676 | Two listeners, the first of which closes the connection in its turn: the second is handed the event all the same. |
| CollabEvents.HeardAfterClose | packages/client/src/collab-connection.ts:380-394 | A listener that closes the connection and subscribes again is handed the second of two emissions in a row. |
| CollabEvents.CollabConnection.Receive | packages/client/src/collab-connection.ts:684-691 | An event behind the test: dropped once closed, emitted otherwise. |
| CollabEvents.CollabConnection.OnEvent | packages/client/src/collab-connection.ts:604-632 | A subscription is registered, on a closed connection too; the first one turns the buffer into the queue of the flush. |
| CollabEvents.CollabConnection.Close | packages/client/src/collab-connection.ts:634-645 | The first close drops buffer, queue and listeners but no hand-out in progress; later ones change nothing. |
| CollabEvents.CollabConnection.Emit | packages/client/src/collab-connection.ts:647-676 | Queued behind a flush, buffered while nobody listens, or begun: a snapshot of the listeners is taken and the first one is handed the event. |
| CollabEvents.CollabConnection.GoOn | packages/client/src/collab-connection.ts:618-629 | After a listener's turn the next one of the snapshot is handed the event, however the listeners changed meanwhile; the flush takes its next event, or ends once empty or closed. |
| ReconnectingSocket.RunInv | packages/client/src/reconnecting-socket.ts:76-174 | The machine's invariant under any order of calls, calls inside notifications, opens, closes, messages, resolutions and stale timers: every timer and resolution carries the generation it was made in, and one of the current generation is the armed retry. |
| ReconnectingSocket.AlwaysUnderWay | packages/client/src/reconnecting-socket.ts:76-154 | As long as no disconnect is made inside the notification that a retry follows, there is until the next deliberate close a socket, an armed retry of the current generation, a current resolution, or a suspended step on its way to one. |
| ReconnectingSocket.ProgressExactly | packages/client/src/reconnecting-socket.ts:140-154 | From any calm state, a disconnect leaves a socket that can always be connected again exactly when it is not made inside the notification that a retry follows. |
| ReconnectingSocket.StuckExactly | packages/client/src/reconnecting-socket.ts:140-154 | A step leaves nothing under way exactly when it sees to a retry and finds one noted as armed that has fired already, with no socket and no other resolution. |
| ReconnectingSocket.StaysClosedExactly | packages/client/src/reconnecting-socket.ts:156-174 | After a disconnect, until the next connect, no socket and no retry exists and the status stays disconnected, exactly when no suspended step creates a socket, arms a retry or reports an open. |
| ReconnectingSocket.StaysClosed | packages/client/src/reconnecting-socket.ts:156-174 | With none of those suspended, nothing is opened, delivered or scheduled until the next connect. |
| ReconnectingSocket.OpensAfterClose | packages/client/src/reconnecting-socket.ts:96-131 | A run that opens a socket after a deliberate close. |
| ReconnectingSocket.SupersededStays | packages/client/src/reconnecting-socket.ts:96-131 | A superseded socket never becomes current again and delivers nothing, calls inside notifications included. |
| SocketHistory.DeliveredExactly | packages/client/src/reconnecting-socket.ts:110-113 | After any run a message is delivered, once and unchanged, exactly when it comes from the socket opened last, which has neither closed nor been disconnected since, and the last call was to connect. |
| SocketHistory.ConnectBegins | packages/client/src/reconnecting-socket.ts:76-94 | A call to connect, made at rest, begins an opening when there is no socket and otherwise changes nothing but the wish to be connected. |
| SocketHistory.Reconnects | packages/client/src/reconnecting-socket.ts:76-154 | From any state at rest with a socket: its loss arms exactly one retry, the retry opens exactly one socket, and once that opens the connection stands as before. |
| SocketHistory.FailedResolutionArms | packages/client/src/reconnecting-socket.ts:85-90 | A failed address resolution of now arms exactly one retry, and an outdated one changes nothing. |
| SocketHistory.RetryDelayExactly | packages/client/src/reconnecting-socket.ts:140-154 | Every retry comes after 500, 1000, 2000, 4000 and then 8000 ms, by how many were scheduled in a row since the connection last stood or was given up. |
| ReconnectingSocket.ScheduledDelays | packages/client/src/reconnecting-socket.ts:140-154 | Every retry scheduled comes after 500 to 8000 ms, and the next one without an open between after twice that, up to the cap. |
| ReconnectingSocket.StatusCanLie | packages/client/src/reconnecting-socket.ts:140-154 | A run without a disconnect after which the status is connected without a socket. |
| ReconnectingSocket.LiesExactly | packages/client/src/reconnecting-socket.ts:96-154 | A step makes an honest status lie exactly when it follows up the close of a connected socket with a retry still armed, or reports an open after a disconnect inside the open callback. |
| ReconnectingSocket.AlternatingIsHonest | packages/client/src/reconnecting-socket.ts:76-174 | With connect only when closed and outside notifications, and disconnect only where no suspended step does harm, at most one thing is under way at a time and the status never lies. |
| ReconnectingSocket.Socket.Connect | packages/client/src/reconnecting-socket.ts:76-94 | The machine's connect step up to its notification. |
| ReconnectingSocket.Socket.Resume | packages/client/src/reconnecting-socket.ts:81-154 | What follows a notification: the socket is created, the address asked for, the retry armed, the open reported, or the close followed up, whatever was called meanwhile. |
| ReconnectingSocket.Socket.ScheduleReconnect | packages/client/src/reconnecting-socket.ts:140-142 | Nothing while a retry is armed; otherwise the status changes and the retry is about to be armed. |
| ReconnectingSocket.Socket.UrlResolved | packages/client/src/reconnecting-socket.ts:81-94 | A late resolution is ignored; a current one creates a socket, and a failed one retries. |
| ReconnectingSocket.Socket.OnClose | packages/client/src/reconnecting-socket.ts:112-124 | Only the current socket's close counts; the socket is gone before the close callback runs. |

## Left out

- ConnectGuards.ConnectError: covers the kinds of refusal and not the messages; existence of the endpoints and occurrence boundaries belong to checks outside this model.
- Invariants.CheckGraphDef: covers endpoints, drivers, nets and cycles, not the id, view and region checks; a dynamic port address resolves by an uninterpreted predicate.
- ValueSources.ValueSourceConsumersOf: says which inputs are listed, not in which order or how often one is repeated when several links feed it.
- SelectionExecution.AnalyzeSelectionExecution: results are sets, so the sorted order of the listed ids is not stated.
- Recursion.CheckNoRecursion: says whether anything is reported, not how often; a dangling reference is the business of another check.
- DefinitionPaste.PlanDefinitionPaste: a definition's node views and net tags are one opaque layout, carried over unchanged; a same-lineage paste keeps ids without comparing contents, as the code does.
- ClipboardPlan.PlanClipboardPaste: leaves aside the refusals for a missing graph, a malformed envelope, occurrence topologies, and offsets that overflow; planning the definitions is an uninterpreted function of what it reads, which plan and commit each apply (its own results are in `DefinitionPaste`).
- ClipboardPlan.Materialize: the contents of pasted nodes, views and net tags are not part of what it pastes; occurrence-topology owners are not modelled.
- NetPastes.ResolveNetPastes: lower-casing is a function that keeps names of one base with different suffixes apart.
- ReconcileTrack.Supersedable.Invoke: the pass neither throws nor calls back before its first await, and a rerun uses the arguments of the call that owns the loop.
- CollabEvents.SeenInOrder: listeners are numbers and do not throw.
- CollabEvents.HeardInOrderExactly: events are distinct, for otherwise two equal ones could change places unnoticed.
- ReconnectingSocket.Socket.Connect: creating a socket does not throw where no resolver is configured, and the scheduler never calls back before it returns.
- Sets and objects whose insertion order does not matter to a result are walked in arbitrary order, so that the results hold whatever the order.
- Keys built by JSON encoding are datatype values; fetches, sockets and timers are steps that may happen at any time; clocks are integers.
- Change notifications, diagnostic texts and display data.
- Characters are Unicode scalar values, so the error for lone surrogates in a path segment does not arise.
- The value source merge rules, envelope validation, and the suspend, deny and probe states of the collaboration connection.
- `packages/client/src/scoped-client.ts`: in-flight joins of remote choices; its ordering claim needs partitions that never recur.
- `packages/core/src/occurrences.ts` and `packages/core/src/asset-ref-repair.ts`: independent passes that no result here depends on.
- Wire decoders, the command line, session plumbing and image composition.
