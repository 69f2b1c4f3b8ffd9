# Galois 2.2.1: maximum flow, termination detection and barriers

A Dafny model of three parts of the Galois runtime and its applications, with proofs of what they are
for:

- the preflow-push maximum-flow application (`Sums`, `FlowNetwork`, `Labels`, `PreflowState`,
  `ReverseBfs`, `PreflowPush`, `Runs`, `SourceSinkEdge`, `ExcessOverflow`),
- distributed termination detection, over a ring and over a tree (`Waves`, `RingTermination`,
  `RingEpochs`, `TreeTermination`, `TreeProgress`),
- the MCS and the topology barrier, with the numbering of packages the latter rests on (`McsBarrier`,
  `Trees`, `Topology`, `TopoBarrier`).

`dafny verify dfyconfig.toml` checks everything.

**Preflow-push.** `Preflow` has the code's fields (edge data, excess, height, current, worklist) and its
methods update them in place. A discharge runs alone on its neighbourhood, since the code locks it first,
so discharges are atomic and taken from a multiset in any order; whether a discharge calls for a global
relabel is arbitrary. The reverse search of a global relabel does not lock, and is modelled per read and
per compare-and-swap, for any number of threads. `Preflow.Run` proves termination and the max-flow
min-cut theorem for the first phase. The sink starts at label 1, not 0, so the proof that drained nodes
cannot reach the sink needs that no path leads through the source. `Runs` gives the same code as a
relation between states, one step for each node taken, arc looked at and relabelling; the methods are
shown to take exactly such steps, and statements about every run are made there. With an edge from the
source to the sink the code puts the sink itself on the worklist and can end below the maximum:
`SourceSinkEdge` says exactly when, for sinks without outgoing capacity. With excess beyond an int it can
break the residual graph: `ExcessOverflow` has such a run.

**Termination.** `Waves` describes the work loop and a detector that visits every thread once per wave
and stops after two white waves, whatever way the wave travels. Each thread has a part of the worklist,
which it alone fills and anyone may take from, and a queue of aborted items, which anyone may fill and it
alone takes from; an invariant covers both kinds at once. The ring and the tree, split at their accesses
to other threads' records, refine it, and safety and the bounds on detection follow for all runs.

**Barriers.** A step is one access to shared data by one thread, and a run is any sequence of such steps
by any number of threads, through any number of episodes. The proofs count how often each thread has
arrived, re-armed, been woken and left; flags, counters and senses are shown to encode those counts. The
counts and the place of each thread inside `wait` are part of the state; the code has no such fields.

In all three parts the specification is a function or relation on values, the classes' methods are proved
against it, and the theorems are about the specification.

## Model

| member | source | states |
|---|---|---|
| PreflowPush.Preflow.Run | Galois-2.2.1/apps/preflowpush/Preflowpush.cpp:723-766 | the first phase ends, for every discharge order, every placement of global relabels and every interleaving of their searches, and has then gone through a complete run; without an edge from source to sink the sink's excess is the maximum flow value and the capacity of the cut between the nodes that can and cannot reach the sink, and with one it still is the maximum if nothing can flow out of the sink and there is no second route to it |
| PreflowPush.Preflow.constructor | Galois-2.2.1/apps/preflowpush/Preflowpush.cpp:659-707 | a new run starts with no flow, the source at height n and every other node, the sink included, at height 1 |
| PreflowPush.Preflow.DischargeAll | Galois-2.2.1/apps/preflowpush/Preflowpush.cpp:572-585 | one discharge loop keeps the invariant and makes progress (a label rose, or the potential fell), and ends either with the worklist empty or with a global relabel called for |
| PreflowPush.Preflow.DischargeNext | Galois-2.2.1/apps/preflowpush/Preflowpush.cpp:572-577 | any node may be taken next; that drops a dead node and makes progress on any other |
| PreflowPush.Preflow.Discharge | Galois-2.2.1/apps/preflowpush/Preflowpush.cpp:440-500 | discharging terminates and is a sequence of the steps runs are made of; a live node ends drained or at height n, only its own label changes, every node it activates is on the worklist, and the return value tells a relabel (room used up) from pushes alone (potential lowered) |
| PreflowPush.Preflow.PushFromCursor | Galois-2.2.1/apps/preflowpush/Preflowpush.cpp:450-485 | one scan from the current arc, arc by arc, drains the node and saves the cursor, or leaves the cursor and shows that no arc at all can be pushed along |
| PreflowPush.Preflow.ScanNext | Galois-2.2.1/apps/preflowpush/Preflowpush.cpp:460-484 | one arc is pushed along if it is admissible and passed otherwise; the scan stops, with the cursor at the arc, exactly when the node is drained |
| PreflowPush.Preflow.PushAlong | Galois-2.2.1/apps/preflowpush/Preflowpush.cpp:469-478 | a push moves excess and capacity by the same amount, drains the node or saturates the arc, and lists the receiver once more exactly if it is an inner node that held nothing |
| PreflowPush.Preflow.ReduceCapacity | Galois-2.2.1/apps/preflowpush/Preflowpush.cpp:256-261 | the edge loses the amount, its reverse gains it, and every other capacity stays |
| PreflowPush.Preflow.Relabel | Galois-2.2.1/apps/preflowpush/Preflowpush.cpp:408-438 | finds the first residual arc to a lowest neighbour, sets the label to one more than that neighbour's or to n, and the cursor to that arc unless the label is n |
| PreflowPush.Preflow.ResetHeights | Galois-2.2.1/apps/preflowpush/Preflowpush.cpp:339-347 | every label is n except the sink's 0, every cursor 0 |
| PreflowPush.Preflow.UpdateHeights | Galois-2.2.1/apps/preflowpush/Preflowpush.cpp:263-336 | any number of threads in any interleaving end with the labels being the residual distances to the sink, n where there is no path |
| PreflowPush.Preflow.SearchStep | Galois-2.2.1/apps/preflowpush/Preflowpush.cpp:311-334 | one read or compare-and-swap of one searching thread keeps the search invariant and makes progress |
| PreflowPush.Preflow.FindWork | Galois-2.2.1/apps/preflowpush/Preflowpush.cpp:349-361 | the new worklist holds every active node exactly once and nothing else |
| PreflowPush.Preflow.GlobalRelabel | Galois-2.2.1/apps/preflowpush/Preflowpush.cpp:363-395 | labels become exact distances, the worklist the active nodes, the invariant holds again, and no label falls once the sink's is 0 |
| PreflowPush.Preflow.InitializePreflow | Galois-2.2.1/apps/preflowpush/Preflowpush.cpp:709-721 | all edges out of the source are saturated, each receiver, the sink included, holds exactly its edge's capacity and is listed exactly once if that is positive |
| PreflowPush.Preflow.SaturateEdge | Galois-2.2.1/apps/preflowpush/Preflowpush.cpp:713-719 | one edge out of the source is saturated, its receiver credited and, if it received anything, listed |
| FlowNetwork.AnyCapacities | Galois-2.2.1/apps/preflowpush/Preflowpush.cpp:588-657 | any number of nodes and any capacities that fit are covered, zeros standing for edges that are only there as reverses |
| FlowNetwork.PushKeepsPreflow | Galois-2.2.1/apps/preflowpush/Preflowpush.cpp:469-478 | a push keeps the sum of the two directions of every edge, non-negative capacities, excess equal to net inflow, and the closed source |
| PreflowState.PushWrites | Galois-2.2.1/apps/preflowpush/Preflowpush.cpp:469-478 | the same of the step runs are made of: every capacity, every excess and every worklist entry after a push |
| PreflowState.RelabelIsGreatest | Galois-2.2.1/apps/preflowpush/Preflowpush.cpp:408-438 | a relabel gives the greatest label, up to n, that no residual arc forbids, moves the cursor only below n, and touches nothing else |
| PreflowState.AsIntIsCast | Galois-2.2.1/apps/preflowpush/Preflowpush.cpp:470-470 | the cast keeps the low 32 bits and reads them as a signed int |
| FlowNetwork.ExcessHasResidualEdge | Galois-2.2.1/apps/preflowpush/Preflowpush.cpp:428-428 | a node with excess has a residual edge out, along which flow came in, so relabel's assertion holds |
| FlowNetwork.FlowAtMostCut | Galois-2.2.1/apps/preflowpush/Preflowpush.cpp:137-168 | weak duality: no feasible flow exceeds the capacity of any cut |
| FlowNetwork.PreflowYieldsFlow | Galois-2.2.1/apps/preflowpush/Preflowpush.cpp:197-247 | whatever excess a preflow leaves at inner nodes can go back to the source, so the sink's excess is the value of a feasible flow |
| FlowNetwork.SaturatedCutIsMinimum | Galois-2.2.1/apps/preflowpush/Preflowpush.cpp:137-168 | max-flow min-cut for preflows: a cut with no residual edge and no excess on the sink's side except at the sink has the sink's excess as its capacity, and that is the maximum flow value |
| Labels.LabelAtMostDistance | Galois-2.2.1/apps/preflowpush/Preflowpush.cpp:170-186 | a valid label exceeds the sink's by at most the residual distance |
| Labels.ReachingNodesAreBelowCap | Galois-2.2.1/apps/preflowpush/Preflowpush.cpp:339-347 | every node that can still reach the sink has a label below n although the sink's label may be 1, because no path leads through the source |
| Labels.DrainedMeansMaximum | Galois-2.2.1/apps/preflowpush/Preflowpush.cpp:723-766 | if no node below the cap but the sink holds excess, the sink's excess is the maximum flow value and the capacity of its reachability cut |
| Labels.PushKeepsLabels | Galois-2.2.1/apps/preflowpush/Preflowpush.cpp:465-478 | a push along an admissible arc keeps the labels valid and the arcs before every cursor closed |
| Labels.RelabelKeepsLabels | Galois-2.2.1/apps/preflowpush/Preflowpush.cpp:408-438 | relabelling a node none of whose arcs is admissible strictly raises it, at most to n, and keeps valid labels and the current-arc rule |
| PreflowState.PushAmountExact | Galois-2.2.1/apps/preflowpush/Preflowpush.cpp:470-470 | the narrowing cast of the excess leaves the pushed amount right if and only if the excess fits an int or its low half is a non-negative int that covers the capacity |
| PreflowState.ExcessIsBounded | Galois-2.2.1/apps/preflowpush/Preflowpush.cpp:469-478 | no excess exceeds what leaves the source or what can enter the node |
| PreflowState.PushStep | Galois-2.2.1/apps/preflowpush/Preflowpush.cpp:465-485 | with the amount the code computes, one push keeps flow, labels and worklist consistent and lowers the potential by the amount |
| PreflowState.AdvanceStep | Galois-2.2.1/apps/preflowpush/Preflowpush.cpp:462-467 | the cursor may pass an arc that cannot be pushed along |
| PreflowState.RelabelStep | Galois-2.2.1/apps/preflowpush/Preflowpush.cpp:487-494 | once the cursor has passed all arcs a relabel strictly raises the label and keeps everything consistent |
| PreflowState.SaturateStep | Galois-2.2.1/apps/preflowpush/Preflowpush.cpp:711-720 | saturating one more edge of the source keeps a preflow, and excess and worklist record exactly the edges handled |
| PreflowState.SaturatedIsConsistent | Galois-2.2.1/apps/preflowpush/Preflowpush.cpp:709-721 | with all of them saturated the initial labels are valid |
| PreflowState.InitialBagIsLive | Galois-2.2.1/apps/preflowpush/Preflowpush.cpp:709-721 | the initial worklist holds every active node, and no node that a discharge would drop |
| PreflowState.SaturatingTouchesSource | Galois-2.2.1/apps/preflowpush/Preflowpush.cpp:709-721 | capacities between other nodes are left alone |
| PreflowState.RaisingKeepsAdvance | Galois-2.2.1/apps/preflowpush/Preflowpush.cpp:752-761 | a global relabel after some progress does not undo it |
| PreflowState.NothingActiveIsMaximum | Galois-2.2.1/apps/preflowpush/Preflowpush.cpp:723-766 | the invariant and an empty worklist give the maximum flow, if the sink was not discharged itself |
| ReverseBfs.TakeStep | Galois-2.2.1/apps/preflowpush/Preflowpush.cpp:311-316 | a thread may take any waiting node |
| ReverseBfs.LookStep | Galois-2.2.1/apps/preflowpush/Preflowpush.cpp:316-321 | looking at an edge keeps every pending improvement in some thread's hands |
| ReverseBfs.LowerStep | Galois-2.2.1/apps/preflowpush/Preflowpush.cpp:322-334 | the compare-and-swap loop only lowers, lowers to a sound value even if the value read is stale, and requeues what it lowered |
| ReverseBfs.SearchDone | Galois-2.2.1/apps/preflowpush/Preflowpush.cpp:364-394 | when all threads are idle and nothing waits the labels are exact |
| ReverseBfs.ExactIsValid | Galois-2.2.1/apps/preflowpush/Preflowpush.cpp:364-394 | exact labels are valid labels: the source, having no residual edge out, gets n |
| ReverseBfs.ExactLabelsAreHighest | Galois-2.2.1/apps/preflowpush/Preflowpush.cpp:364-394 | no valid labelling with the sink at 0 is anywhere above the exact one |
| Runs.StepKeepsLaws | Galois-2.2.1/apps/preflowpush/Preflowpush.cpp:408-500 | taking a node, looking at an arc, relabelling and relabelling globally keep flow, labels, cursors and worklist consistent, whichever node but the source is discharged |
| Runs.RunKeepsLaws | Galois-2.2.1/apps/preflowpush/Preflowpush.cpp:723-766 | so does every run |
| Runs.WorklistIsActive | Galois-2.2.1/apps/preflowpush/Preflowpush.cpp:473-475 | in every run the worklist holds exactly the active nodes, each once (and at first perhaps the sink), less the one being discharged; none is ever taken only to be dropped |
| Runs.AnyNodeMayBeTaken | Galois-2.2.1/apps/preflowpush/Preflowpush.cpp:730-751 | any listed node may be taken next |
| Runs.AnyTimeForGlobal | Galois-2.2.1/apps/preflowpush/Preflowpush.cpp:752-761 | between any two discharges the labels may be recomputed |
| Runs.Drain | Galois-2.2.1/apps/preflowpush/Preflowpush.cpp:440-500 | from any point a run can be finished without a global relabel, by steps that each bring the end nearer |
| Runs.CompleteRunIsMaximal | Galois-2.2.1/apps/preflowpush/Preflowpush.cpp:723-766 | without an edge from source to sink every complete run ends with the maximum flow value in the sink, and the capacity of its cut |
| Runs.StartKeepsLaws | Galois-2.2.1/apps/preflowpush/Preflowpush.cpp:709-721 | the state that initializePreflow leaves meets the invariant |
| SourceSinkEdge.EveryRunIsMaximalIff | Galois-2.2.1/apps/preflowpush/Preflowpush.cpp:440-500 | if nothing can flow out of the sink: every run ends with the maximum flow value in the sink if and only if the source has no edge to the sink or reaches it in no other way |
| SourceSinkEdge.SinkFirst | Galois-2.2.1/apps/preflowpush/Preflowpush.cpp:440-500 | with such an edge, the run that discharges the sink first and never relabels globally ends with exactly the edge's capacity in the sink |
| SourceSinkEdge.MoreThanTheEdge | Galois-2.2.1/apps/preflowpush/Preflowpush.cpp:709-721 | a second route makes the maximum larger than the edge's capacity |
| SourceSinkEdge.EdgeIsMaximal | Galois-2.2.1/apps/preflowpush/Preflowpush.cpp:723-766 | without one the edge's capacity is the maximum, and whatever was discharged the sink holds it |
| SourceSinkEdge.SinkIsListed | Galois-2.2.1/apps/preflowpush/Preflowpush.cpp:709-721 | the initial worklist consists of inner nodes if and only if the edge from source to sink has capacity 0 |
| SourceSinkEdge.FlowIsLost | Galois-2.2.1/apps/preflowpush/Preflowpush.cpp:440-500 | the smallest instance: on a triangle of unit edges a run ends with one unit where two are possible |
| ExcessOverflow.CapacityIsLost | Galois-2.2.1/apps/preflowpush/Preflowpush.cpp:469-478 | on a valid network without such an edge, where excess does not fit an int, a run pushes -2 and leaves a residual capacity below zero |
| Waves.StepKeepsLaws | Galois-2.2.1/include/Galois/Runtime/ParallelWork.h:456-493 | the invariant of two-wave detection holds through every step of the worker threads and of the wave: stealing, pushing, handing back aborted items, reporting, visiting, closing |
| Waves.AnyoneMayTake | Galois-2.2.1/include/Galois/Runtime/ParallelWork.h:365-418 | the runs include stealing: any thread may take an item from any thread's part of the worklist |
| Waves.OwnerMayRetry | Galois-2.2.1/include/Galois/Runtime/ParallelWork.h:443-446 | a thread may take an item handed back to it |
| Waves.WorkerMayPush | Galois-2.2.1/include/Galois/Runtime/ParallelWork.h:300-310 | a working thread may push any number of items |
| Waves.WorkerMayAbort | Galois-2.2.1/include/Galois/Runtime/ParallelWork.h:317-331 | and hand an item back to any thread |
| Waves.PoolStepKeepsLaws | Galois-2.2.1/include/Galois/Runtime/ParallelWork.h:365-446 | taking, stealing, pushing and handing back items keep it |
| Waves.VisitKeepsLaws | Galois-2.2.1/src/Termination.cpp:104-109 | a thread reporting as the wave passes keeps it |
| Waves.CloseKeepsLaws | Galois-2.2.1/src/Termination.cpp:90-103 | the master's closing of a wave keeps it; a second white wave in a row is closed only when all is quiet |
| Waves.NoWorkProgress | Galois-2.2.1/include/Galois/Runtime/ParallelWork.h:456-493 | once no work is left none comes back, and each visit or closing brings detection closer |
| Waves.MovesLeftBounds | Galois-2.2.1/src/Termination.cpp:86-111 | at most four waves' worth of visits and closings remain |
| RingTermination.RingRefines | Galois-2.2.1/src/Termination.cpp:52-111 | every step of the ring, split at its shared writes, is a step of the two-wave protocol, and calls that take the token are its visits and closings |
| RingTermination.MasterCallRefines | Galois-2.2.1/src/Termination.cpp:90-109 | the master's call with the token closes a wave and starts the next, or detects |
| RingTermination.TokenCallRefines | Galois-2.2.1/src/Termination.cpp:104-109 | any other thread's call with the token is a visit with the right colour |
| RingTermination.PlainCallRefines | Galois-2.2.1/src/Termination.cpp:86-90 | a call without the token, or after detection, only records work |
| RingTermination.InitialRepresents | Galois-2.2.1/src/Termination.cpp:72-84 | initialisation by all threads starts the protocol |
| RingTermination.AnyWorkIsStep | Galois-2.2.1/include/Galois/Runtime/ParallelWork.h:456-493 | whatever a thread outside a call may do with the worklists is a step of the ring |
| RingTermination.StealIsStep | Galois-2.2.1/include/Galois/Runtime/ParallelWork.h:456-493 | stealing in particular |
| RingTermination.AnyoneMayCall | Galois-2.2.1/include/Galois/Runtime/ParallelWork.h:484-487 | a thread that has worked, or found nothing, may call |
| RingTermination.AnyWorkToBegin | Galois-2.2.1/src/Termination.cpp:72-84 | runs start with any number of threads and any initial work |
| RingEpochs.MasterEpochCounts | Galois-2.2.1/src/Termination.cpp:90-96 | in every run the master's epoch is the number of its calls with the token so far, less one, and 0 before the first |
| RingEpochs.TokenCarriesEpoch | Galois-2.2.1/src/Termination.cpp:52-59 | a thread that has the token, or is about to get it, is in the master's epoch, and no thread is ahead |
| RingEpochs.EpochsNeverFall | Galois-2.2.1/src/Termination.cpp:52-111 | no thread's epoch ever falls |
| RingTermination.OneToken | Galois-2.2.1/src/Termination.cpp:52-111 | in every run of any number of threads there is exactly one token, held by a thread or between one thread's two writes |
| RingTermination.TerminationIsSafe | Galois-2.2.1/src/Termination.cpp:86-111 | globalTerm is set only when nothing is queued and nobody works; that stays so, so no later call reports work and no token moves, which is what the two assertions say |
| RingTermination.TerminationIsDetected | Galois-2.2.1/src/Termination.cpp:86-111 | once no work is left fewer than four token calls per thread pass before globalTerm is set |
| RingTermination.HolderCanStep | Galois-2.2.1/src/Termination.cpp:52-111 | the thread that has the token, or is handing it on, can always take a step |
| RingTermination.TokenCallIsNear | Galois-2.2.1/src/Termination.cpp:52-111 | before detection, whatever work is left, the token is taken within four steps: by its holder running alone, or by the next thread once the holder has finished handing it on |
| RingTermination.CompletedIsRingSteps | Galois-2.2.1/src/Termination.cpp:52-111 | an uninterrupted call is the caller's part followed by the two writes |
| RingTermination.LocalTerminationDetection.InitializeThread | Galois-2.2.1/src/Termination.cpp:72-84 | the thread's record after initialisation; only thread 0 has the token |
| RingTermination.LocalTerminationDetection.PropToken | Galois-2.2.1/src/Termination.cpp:52-59 | the next thread around the ring gets colour, epoch and the flag; its other fields and all other records stay |
| RingTermination.LocalTerminationDetection.JudgeToken | Galois-2.2.1/src/Termination.cpp:90-103 | the master starts a new epoch except at the first token, whitens itself, and detects on the second white token in a row |
| RingTermination.LocalTerminationDetection.LocalTermination | Galois-2.2.1/src/Termination.cpp:86-111 | the code computes exactly the step the proofs are about, for all records and globalTerm |
| TreeTermination.TreeRefines | Galois-2.2.1/src/Termination.cpp:146-187 | every step of the tree detector is a step of the two-wave protocol, or none |
| TreeTermination.AnyWorkIsStep | Galois-2.2.1/include/Galois/Runtime/ParallelWork.h:456-493 | whatever a thread outside a call may do with the worklists is a step of the tree |
| TreeTermination.StealIsStep | Galois-2.2.1/include/Galois/Runtime/ParallelWork.h:456-493 | stealing in particular |
| TreeTermination.AnyoneMayCall | Galois-2.2.1/include/Galois/Runtime/ParallelWork.h:484-487 | a thread that has worked, or found nothing, may call, and one in a call may go on |
| TreeTermination.AnyWorkToBegin | Galois-2.2.1/src/Termination.cpp:200-221 | runs start with any number of threads and any initial work |
| TreeTermination.EnterWrites | Galois-2.2.1/src/Termination.cpp:161-174 | a complete token goes to slot (i-1) % 2 of thread (i-1) / 2, with the colour, and nothing else but the sender's record changes |
| TreeTermination.HaveAllCounts | Galois-2.2.1/src/Termination.cpp:150-160 | a token is complete when threads 2i+1 and 2i+2, as far as they exist, have sent theirs |
| TreeTermination.SignalWrites | Galois-2.2.1/src/Termination.cpp:181-185 | the children signalled are 2i+1 and then 2i+2 |
| TreeTermination.LookDownWrites | Galois-2.2.1/src/Termination.cpp:178-181 | a token from above is taken at once, and signalling begins with the first child |
| TreeTermination.SendUpRefines | Galois-2.2.1/src/Termination.cpp:161-174 | a thread that has all tokens from below is visited by the wave and sends the right colour up |
| TreeTermination.AllVisited | Galois-2.2.1/src/Termination.cpp:151-162 | when the master has all tokens from below the wave has visited every thread |
| TreeTermination.CloseRefines | Galois-2.2.1/src/Termination.cpp:162-171 | the master's completed call closes the wave, and the colour it computes is that of the whole wave |
| TreeTermination.LookDownRefines | Galois-2.2.1/src/Termination.cpp:178-181 | taking a token from above is not visible to the protocol |
| TreeTermination.SignalRefines | Galois-2.2.1/src/Termination.cpp:181-185 | nor is passing it to a child |
| TreeTermination.ReportRefines | Galois-2.2.1/src/Termination.cpp:146-160 | a call without a complete token only records work |
| TreeTermination.InitialRepresents | Galois-2.2.1/src/Termination.cpp:200-221 | initialisation by all threads starts the protocol with the token above the root |
| TreeTermination.TerminationIsSafe | Galois-2.2.1/src/Termination.cpp:146-228 | globalTerm is set only when nothing is queued and nobody works; that stays so and no token is under way |
| TreeTermination.FullCallIsTreeSteps | Galois-2.2.1/src/Termination.cpp:146-228 | an uninterrupted call is at most four of the steps |
| TreeTermination.TreeTerminationDetection.InitializeThread | Galois-2.2.1/src/Termination.cpp:200-221 | the thread's record after initialisation; only thread 0 has a token from above |
| TreeTermination.TreeTerminationDetection.LocalTermination | Galois-2.2.1/src/Termination.cpp:223-228 | the code computes exactly those steps, for all records and globalTerm |
| TreeTermination.TreeTerminationDetection.ProcessToken | Galois-2.2.1/src/Termination.cpp:146-187 | the same for the part after the caller's colour is recorded |
| TreeTermination.TreeTerminationDetection.LookBelow | Galois-2.2.1/src/Termination.cpp:150-160 | whether all tokens from below are in, and whether one of them or the thread is black |
| TreeTermination.TreeTerminationDetection.SendTokens | Galois-2.2.1/src/Termination.cpp:162-175 | without all tokens nothing happens; otherwise a thread sends its colour to slot (id-1) % 2 of thread (id-1) / 2, and the master restarts the wave or detects |
| TreeTermination.TreeTerminationDetection.PassDown | Galois-2.2.1/src/Termination.cpp:177-186 | takes a token from above, clears both slots and signals threads 2 id + 1 and 2 id + 2 |
| TreeTermination.TreeTerminationDetection.ResetAndSignal | Galois-2.2.1/src/Termination.cpp:182-185 | one child: its slot is cleared, and thread 2 id + i + 1 gets the token |
| TreeProgress.TerminationIsDetected | Galois-2.2.1/src/Termination.cpp:146-187 | once no work is left fewer than sixteen token movements per thread pass before globalTerm is set |
| TreeProgress.HopIsNear | Galois-2.2.1/src/Termination.cpp:146-187 | until then some thread, even running alone, moves a token within four steps |
| TreeProgress.StepSpends | Galois-2.2.1/src/Termination.cpp:146-187 | every token movement uses up one of the movements left, nothing else adds any |
| McsBarrier.BarrierIsSafe | Galois-2.2.1/src/Barrier.cpp:121-142 | in every interleaving, for every number of threads and of episodes, no thread leaves its k-th wait before all have entered their k-th, and none is more than one episode ahead of another |
| McsBarrier.NoDeadlock | Galois-2.2.1/src/Barrier.cpp:121-142 | if all threads have entered their k-th wait and some thread has not left it, some thread in wait is not spinning |
| McsBarrier.SomeoneMoves | Galois-2.2.1/src/Barrier.cpp:121-142 | the same from the invariant alone: either the root, or the topmost sleeper of the wakeup tree, or the lowest gatherer of the arrival tree can go on |
| McsBarrier.AccessWrites | Galois-2.2.1/src/Barrier.cpp:121-142 | what each access writes, with the threads' numbers written out: flag j of thread i stands for thread 4i+j+1, thread i reports to slot (i-1) % 4 of thread (i-1) / 4 and wakes 2i+1 and then 2i+2 |
| McsBarrier.MoverAges | Galois-2.2.1/src/Barrier.cpp:121-142 | a thread that is not spinning gets further within four steps of its own |
| McsBarrier.EpisodesEnd | Galois-2.2.1/src/Barrier.cpp:121-142 | as long as nobody enters a (k+1)-st wait the threads take at most 10 k steps each that get them further |
| McsBarrier.StepKeepsLaws | Galois-2.2.1/src/Barrier.cpp:121-142 | each access keeps the flags telling the truth about the episode counts: arrival flags through re-arming, wakeup flags through sense reversal |
| McsBarrier.InitialKeepsLaws | Galois-2.2.1/src/Barrier.cpp:96-110 | re-initialisation establishes that |
| McsBarrier.ReleasedIsReported | Galois-2.2.1/src/Barrier.cpp:118-132 | an episode released at the root has been reported and re-armed by every thread |
| McsBarrier.WokenIsReleased | Galois-2.2.1/src/Barrier.cpp:130-141 | nobody is woken for an episode that the root has not released |
| McsBarrier.MCSBarrier.Reinit | Galois-2.2.1/src/Barrier.cpp:96-110 | the loops set up every node's flags and the initial state |
| McsBarrier.MCSBarrier.Step | Galois-2.2.1/src/Barrier.cpp:121-142 | each access of wait in the code is the step the proofs are about, and writes just those flags |
| McsBarrier.MCSBarrier.Run | Galois-2.2.1/src/Barrier.cpp:121-142 | any schedule of the code computes the run the proofs are about, and is safe |
| TopoBarrier.BarrierIsSafe | Galois-2.2.1/src/Barrier.cpp:214-247 | the same safety for the package barrier, over any dense topology of fewer than 2^32 threads |
| TopoBarrier.NoDeadlock | Galois-2.2.1/src/Barrier.cpp:214-247 | and the same freedom from deadlock |
| TopoBarrier.SomeoneMoves | Galois-2.2.1/src/Barrier.cpp:214-247 | the same from the invariant alone, following the trees of packages |
| TopoBarrier.EpisodesEnd | Galois-2.2.1/src/Barrier.cpp:214-247 | as long as nobody enters a (k+1)-st wait the threads take at most 8 k steps each apart from spinning |
| TopoBarrier.StepKeepsLaws | Galois-2.2.1/src/Barrier.cpp:214-247 | each access keeps every counter equal to the number of its members still to arrive, and every sense that of the right episode |
| TopoBarrier.AccessWrites | Galois-2.2.1/src/Barrier.cpp:214-247 | what each access writes, with the packages' numbers written out: followers count down their own package, the leader of package g that of package (g-1) / 4, and package g wakes 2g+1, then 2g+2, and package 0 in the end itself |
| TopoBarrier.WordsWrap | Galois-2.2.1/src/Barrier.cpp:224-246 | counters and senses wrap around at 2^32 |
| TopoBarrier.HaveChildCounts | Galois-2.2.1/src/Barrier.cpp:171-183 | a counter is armed with the number of the package's followers and of the leaders of packages 4g+1 to 4g+4 |
| TopoBarrier.HaveChildIsMembers | Galois-2.2.1/src/Barrier.cpp:171-183 | a counter is armed with exactly the number of threads that report to it: followers and leaders of child packages |
| TopoBarrier.ArriveKeepsOwnCounter | Galois-2.2.1/src/Barrier.cpp:224-228 | the atomic decrement never wraps and takes off exactly the arriving thread |
| TopoBarrier.RearmKeepsCounter | Galois-2.2.1/src/Barrier.cpp:220-222 | the plain store that re-arms a counter loses no decrement |
| TopoBarrier.SenseTells | Galois-2.2.1/src/Barrier.cpp:232-236 | senses of neighbouring episodes differ even when they wrap around |
| TopoBarrier.InitialKeepsLaws | Galois-2.2.1/src/Barrier.cpp:165-186 | re-initialisation establishes the invariant |
| TopoBarrier.ReleasedIsRearmed | Galois-2.2.1/src/Barrier.cpp:214-247 | an episode released by thread 0 has been reported by every package |
| TopoBarrier.WokenIsReleased | Galois-2.2.1/src/Barrier.cpp:238-246 | no package is woken for an episode that thread 0 has not released |
| TopoBarrier.TopoBarrier.constructor | Galois-2.2.1/src/Barrier.cpp:204-206 | a new barrier is in the initial state |
| TopoBarrier.TopoBarrier.Reinit | Galois-2.2.1/src/Barrier.cpp:165-186 | the loops set up every package node and sense |
| TopoBarrier.TopoBarrier.CountChildren | Galois-2.2.1/src/Barrier.cpp:171-183 | the counting loops compute the number the counter is armed with |
| TopoBarrier.TopoBarrier.Step | Galois-2.2.1/src/Barrier.cpp:214-247 | each access of wait in the code is the step the proofs are about, and writes just that |
| TopoBarrier.TopoBarrier.Run | Galois-2.2.1/src/Barrier.cpp:214-247 | any schedule of the code computes the run the proofs are about, and is safe |
| Topology.FinalizePackageData | Galois-2.2.1/src/ll/HWTopoLinux.cpp:337-346 | threads share a package number exactly when they share a physical package, and the numbers are dense in order of first appearance |
| Topology.MaxPackages | Galois-2.2.1/src/ll/HWTopoLinux.cpp:291-297 | the cumulative maximum gives the number of packages among the first threads |
| Topology.FirstThreads | Galois-2.2.1/src/ll/HWTopoLinux.cpp:299-303 | a thread is recorded as leader exactly when it is the first of its package |
| Topology.LeaderIsUnique | Galois-2.2.1/src/ll/HWTopoLinux.cpp:445-448 | among any number of first threads each package in use has exactly one leader |
| Topology.MasterLeadsPackageZero | Galois-2.2.1/src/ll/HWTopoLinux.cpp:445-448 | thread 0 leads package 0 and no other thread does |

## Left out

- SourceSinkEdge.EveryRunIsMaximalIff: assumes a sink without outgoing capacity. For a sink that has some, only one direction is shown (`Runs.CompleteRunIsMaximal`: no edge from source to sink, then every run ends with the maximum); when such a sink is discharged it can send excess on, and where that ends up depends on the rest of the network.
- PreflowPush.Preflow.Run: requires `ExcessFits`, which keeps every excess that is discharged within an int. For a single push `PreflowState.PushAmountExact` says exactly when the narrowing cast is harmless, and `ExcessOverflow.CapacityIsLost` shows a run that it breaks; for a whole network `ExcessFits` is only sufficient, since what a node holds at once depends on the run.
- FlowNetwork.Valid: assumes a simple graph with the reverse of every edge and no self loops, since `findEdge` identifies edges by their end points, and capacities whose two directions together fit an int.
- The second phase, which would return excess stranded at height n to the source, is not in the code either; the maximum flow is shown to exist (`FlowNetwork.PreflowYieldsFlow`), not computed.
- The counters that decide when to relabel globally, the deterministic schedulers and the priority worklists: any order and any moment of relabelling is allowed instead.
- `verify` and its three checks: they test less than what is proved of the final state.
- Graph files, conversion to the reverse-edge format, options, timers and statistics.
- Weak memory: accesses are sequentially consistent, and compiler barriers are not modelled.
- Waves.Pool: assumes that a pop comes back empty only if the thread's own part of the worklist is empty, and that threads push only to their own part; worklists that push into other threads' parts are not covered.
- Leaving the work loop early through the break flag, after which detection is abandoned.
- RingTermination.LocalTerminationDetection.LocalTermination: epochs are unbounded; the code passes them on through an int parameter, and getEpoch is not modelled.
- TreeTermination.Enter: reads the tokens from below in one step; they do not change between the code's reads in a way it could notice, because each is written once per wave.
- TreeTermination.TreeTerminationDetection.InitializeThread: the links to parent and children, which the code stores, are functions of the thread's number and of how many threads there are (`Trees`).
- Hardware discovery on Linux beyond the numbering of packages, and the other platforms, where all threads are in one package.
- McsBarrier.MCSBarrier.Reinit: nodes of threads that do not take part are not represented.
- The pthread barrier, and barrier timing.
- Everything else in the repository: the other applications (spanning forests, graph search, matching, independent sets, centrality), the allocators, file partitioning, graph coarsening, and the worklists and executors themselves.
