# Verification model of speedgun-ng

A Dafny model of the parts of the speedgun-ng benchmark harness whose correctness is
hardest to see by reading one function: the inbox of an execution context, the counters
measurement pipeline, the timed loop, family expansion, provider registration and the
complexity fit. `dafny verify dfyconfig.toml` checks the whole project.

Code that works in place is a class or a method with loops, proved equal to a function of
its inputs or of the old state; what the source promises is then proved about that
function. Code made of expressions is functions. Concurrent code is a step system.

## What is modelled

**The inbox of an execution context** (`inbox*.dfy`). One step is one atomic access of
`dispatchNode`, `runContextLoop`, `reAnchorSentinel`, `waitInboxEmpty`, `requestStop` or
`drain`, and the steps of any number of dispatching threads, stop callers, drainers and
node owners interleave in any order with the one loop thread. Nodes belong to their
callers, who reuse and destroy them under the contracts the header states. `inbox.dfy` is
the step system with history fields that no guard reads, `inbox_invariant.dfy` the
invariant, `inbox_steps.dfy` and `inbox_history.dfy` its preservation by every access,
`inbox_theorems.dfy` what follows for every run, `inbox_outcome.dfy` what becomes of one
dispatch from its call on (DONE means run, STOPPED means refused), `inbox_drain.dfy` the
drainer's own wait, `inbox_progress.dfy` that the loop alone reaches a state with everything
run, `inbox_stop.dfy` that a stop ends the loop and what a drain then finds, and
`inbox_witness.dfy` three concrete runs. The read order is the one the code has, not a
repaired one.

**The barrier** (`barrier.dfy`). N participants over any number of rounds.

**The counters pipeline** (`spine.dfy` to `scope.dfy`). An expression is built by splicing
index-based spines; `compile.dfy` lays the leaves out into provider groups and disclosure
columns, and `compile_outcome.dfy` says when a plan comes back and which error does; `table.dfy` writes one action's points and states through the shared cursor into
the column block; `recorder.dfy` holds the rows in a hard-stop buffer or a power-of-two
ring; `fold.dfy` reads a stretch back. `Fold.EndToEnd` closes the chain: build, compile,
sample any number of times, fold. The arithmetic of the operators is a record of unknown
functions, so no law of numbers is used; leaf changes are exact modulo 2^64.
`fanout.dfy` is the fan-out over the objects of a selection, closed by
`Fanout.FanoutEndToEnd`.

**The timed loop** (`timed_*.dfy`, `chunks.dfy`). `timed_loop.dfy` is the run of one
`State` and `Cursor` as a step function, `timed_state.dfy` the two classes proved against
it, `timed_invariant.dfy` and `timed_theorems.dfy` what every body keeps,
`timed_outcome.dfy` what the top-up and a skip leave and which pauses are recorded,
`timed_reentry.dfy` what a body that enters its loop again meets, and `chunks.dfy` how the
harness reads the chunks and the netted run back from the recorder.

**Families** (`range.dfy`, `names.dfy`, `expansion.dfy`, `expansion_outcome.dfy`),
**registration** (`registration.dfy`, `registration_outcome.dfy`) and **the fit** (`fit.dfy`,
over the reals). The `_outcome` files state what an operation answers in terms of its inputs
alone, without the functions its method is proved against.

## Where the code does less than its documentation says

Each of these is kept as the code has it, shown at an input or for a whole family of inputs,
and bounded by an exact condition where one exists.

- The loop reads the chain before the stop and the counts, and its end also covers a pass
  that found a link owed. A dispatch and a stop can fall between, and the loop ends over an
  accepted node (`ExitCanStrandAnAcceptedNode`). It ends with everything run exactly when
  walk and tail still stand on the sentinel (`ExitIsCompleteIffEmpty`).
- A pass that found a link owed also stores the idle mark, so `drain` can return over a
  node that has not run (`DrainCanReturnEarly`). One look of `drain` is truthful exactly
  when the pass that stored the mark stood on the sentinel
  (`IdleLookIsSoundIffMarkedOnSentinel`).
- A refusal withdraws its accept and wakes nobody. A drain that looks while a late dispatch
  is being refused by an ended context waits for good, though everything accepted has run
  (`DrainCanWaitForGood`). With nothing else moving, a drain of an ended context returns
  exactly where the sentinel is the tail and no dispatch is between its accept and its link
  count or withdrawal (`DrainAfterTheEndReturnsIff`).
- A pause that stands open across a chunk boundary records the boundary sample as its start
  (`PauseAcrossABoundaryIsMisrecorded`); a pair names its own pause exactly when no sample
  was taken while the pause stood open (`PairNamesItsPauseIff`).
- A body that enters its timed loop twice under chunked sampling can meet the always-on
  hard stop, which ends the program, before the run can fail
  (`SecondLoopCanStopTheProgram`). A loop entered in any state is safe for every body exactly
  when the points ahead of it fit the recorder (`LoopIsSafeIff`).
- The ceiling division that counts the points owed wraps in 64 bits for counts near the
  top (`PointsOwedIsExactIff`, `PointsOwedCanBeZero`), and so do the three of the chunk plan:
  one count makes it divide by zero, another leaves it no chunk
  (`ChunkPlanBreaksNearTheTop`). The plan keeps its promise exactly when every sum fits
  (`ChunkPlanIsPromisedIff`).
- An expression operator applied to an empty left operand yields a spine whose children do
  not lie below their parents (`CombinedWellFormedIff`, `EmptyLeftHasNoNode`), and an empty
  right operand repeats the left one (`EmptyRightRepeatsLeft`).
- A fan-out exemplar over two nested objects is let through and collapses onto one of them
  (`ExemplarPassesIff`, `NestedExemplarCollapses`).
- `createRange` lists 0 twice exactly when high is 0 and low is at most -2
  (`Range.CreateRange`). `createDenseRange` leaves 64 bits whenever the step past its last
  value does (`Range.CreateDenseRange`, `DenseToTheTopOverflows`).
- A suite and a case name do not identify an instance: `s` and `s/s` share both, against
  the comment at source/harness/family.cpp:264 (`PairNamesOneInstanceIff`).
- An alias may be spelled like a stored path and then hides it (`AliasCanHideAPath`,
  `AddressResolvesIff`).
- The automatic fit compares residuals divided by the signed mean. A negative mean makes it
  choose the worst candidate (`NegativeMeanChoosesTheWorst`, `NegativeMeanLosesTheExactCurve`);
  at a mean of zero it keeps the first candidate unless one reproduces the values
  (`ZeroMeanChoosesTheFirstExact`, `ZeroMeanLosesTheBetterCurve`). For a positive mean the
  choice is the earliest of the least residuals (`PositiveMeanChoosesTheBest`).

## Model

| member | source | states |
|---|---|---|
| `InboxSteps.StepCore` | source/harness/execution_context.cpp:346-429 | every access of every thread keeps the chain, every node's ownership and every thread's pointers |
| `InboxHistory.RunInv` | source/harness/execution_context.cpp:302-429 | the whole inbox invariant stands at the end of every run, under every interleaving |
| `InboxTheorems.ChainIsTheUntakenLog` | source/harness/execution_context.cpp:346-429 | the exchanged, untaken nodes are one duplicate-free sequence from the walk to the tail, linked except where a link store is in flight |
| `InboxTheorems.AccessesAreLive` | include/speedgun-ng/execution_context.hpp:559-577 | no access of any thread touches a node its caller destroyed under the destructor's precondition |
| `InboxTheorems.SettledIsUnreferenced` | source/harness/execution_context.cpp:302-313 | a node read DONE or STOPPED is neither tail, walk, predecessor nor queued: reuse and destruction are safe |
| `InboxTheorems.SettledStays` | include/speedgun-ng/execution_context.hpp:580-592 | until its caller dispatches or destroys it, no step changes a settled node's words |
| `InboxTheorems.ExecutedIsExchangedPrefix` | source/harness/execution_context.cpp:412-428 | executed nodes are the exchanges up to the loop's place, sentinels removed; one thread's nodes run in its dispatch order, each once |
| `InboxTheorems.RefusedNeverQueued` | source/harness/execution_context.cpp:634-642 | a refused node is in no queue, also when it had been queued before |
| `InboxOutcome.RefusedReadsStopped` | include/speedgun-ng/execution_context.hpp:331-340 | a dispatch called after the stop: over every run that leaves the node to it, the node reads STOPPED from the refusal's store on, and is never accepted or exchanged |
| `InboxOutcome.DoneHasRun` | include/speedgun-ng/execution_context.hpp:514-530 | a node its caller reads DONE: its last dispatch was accepted after the call, exchanged once below the loop's place, and executed at that place's turn |
| `InboxOutcome.StoppedWasRefused` | include/speedgun-ng/execution_context.hpp:261-264 | a node its caller reads STOPPED: the stop stands, and its last dispatch was neither accepted nor exchanged |
| `InboxOutcome.RefusedAlone` | source/harness/execution_context.cpp:634-642 | a refused call with nothing else moving changes the node's completion to STOPPED and nothing else |
| `InboxOutcome.AcceptedAlone` | source/harness/execution_context.cpp:644-662 | an accepted call with nothing else moving leaves the node reset, stamped and the tail, its predecessor linked to it, both counts one higher and the wake standing |
| `InboxTheorems.CountsDifferByTheWindow` | source/harness/execution_context.cpp:634-654 | acceptCount less dispatchCount is the number of dispatches between accept and link count or withdrawal |
| `InboxTheorems.StopClosesTheInbox` | source/harness/execution_context.cpp:734-747 | once the stop stands, over any run, no dispatch is accepted again |
| `InboxTheorems.RequestStopClosesTheInbox` | source/harness/execution_context.cpp:734-747 | from the store of requestStop on, over any run, the stop stands and no dispatch is accepted |
| `InboxStop.LoopEndsAfterStop` | source/harness/execution_context.cpp:377-402 | with a stop standing and nobody dispatching, the loop's own steps and the wakes still owed lead to its end |
| `InboxStop.ExitWakesEveryDrainer` | source/harness/execution_context.cpp:397-402 | the epoch bump on the way out ends every drainer's wait |
| `InboxTheorems.ExitIsCompleteIffEmpty` | source/harness/execution_context.cpp:377-402 | when the loop ends no accept is under way; everything accepted has run and is settled exactly when walk and tail both stand on the sentinel |
| `InboxWitness.ExitCanStrandAnAcceptedNode` | source/harness/execution_context.cpp:360-402 | a run of the code as written that ends the loop over an accepted, unrun node |
| `InboxTheorems.IdleLookIsSoundIffMarkedOnSentinel` | source/harness/execution_context.cpp:495-506 | where the test of drain holds, every accepted node is settled exactly when the pass that stored the idle mark stood on the sentinel |
| `InboxTheorems.DrainIsSound` | source/harness/execution_context.cpp:751-769 | over runs whose idle marks are stored on the sentinel: a node accepted and exchanged before drain is called, and not dispatched again or destroyed, reads DONE when drain has returned |
| `InboxWitness.DrainCanReturnEarly` | source/harness/execution_context.cpp:384-391 | a run of the code as written in which drain returns over a node that has not run |
| `InboxTheorems.NoLostWakeup` | source/harness/execution_context.cpp:321-338 | a parked loop with the flag clear owes nothing unless a dispatch past its exchange still owes its wake store |
| `InboxTheorems.BlockedForGoodMeansDone` | source/harness/execution_context.cpp:404-409 | a loop blocked with nobody dispatching and no stop owed has run everything accepted |
| `InboxDrain.NoDrainerSleeps` | source/harness/execution_context.cpp:751-769 | with the loop blocked, nobody dispatching and no stop, every waiting drainer's epoch is stale and a fresh look finds the inbox idle |
| `InboxStop.DrainAfterTheEndReturnsIff` | source/harness/execution_context.cpp:751-769 | a drain of an ended context, with nothing else moving, returns exactly where the sentinel is the tail and no dispatch is in its window; else it waits for the standing epoch |
| `InboxStop.WaitsForGood` | source/harness/execution_context.cpp:751-769 | a drainer of an ended loop that waits for the standing epoch waits over every run |
| `InboxWitness.DrainCanWaitForGood` | source/harness/execution_context.cpp:634-642 | a run of the code as written after which a drain waits over every continuation, though the loop has ended and everything accepted has run |
| `InboxProgress.LoopRunsEverything` | source/harness/execution_context.cpp:346-429 | with nobody dispatching and no stop, the loop alone reaches a state where every accepted node has run |
| `Barrier.RunInv` | source/harness/execution_context.cpp:846-900 | the barrier's invariant over any interleaving and any number of rounds |
| `Barrier.NeverOverfull` | source/harness/execution_context.cpp:853-857 | the arrivals of a round never exceed the expected participants |
| `Barrier.LeavesOnlyAFullRound` | source/harness/execution_context.cpp:859-900 | nobody leaves a round before all have arrived in it, and the generation has moved when it leaves |
| `Barrier.RoundsStayTogether` | source/harness/execution_context.cpp:859-870 | completed rounds differ by at most one and the generation advances once a round |
| `Barrier.NeverStuck` | source/harness/execution_context.cpp:846-900 | in every reachable state some participant can move |
| `Barrier.RoundCompletes` | source/harness/execution_context.cpp:846-900 | from any state some accesses advance the generation by one, after which nobody waits |
| `Spine.WithLeavesMerges` | include/speedgun-ng/counters_measurement.hpp:132-141 | merging leaves keeps earlier ones in place, finds every merged address, adds nothing else, stays duplicate-free |
| `Spine.SpliceWellFormed` | include/speedgun-ng/counters_measurement.hpp:178-199 | a splice keeps children below parents and leaf indices in range, the earlier spine a prefix |
| `Spine.EvalExtends` | include/speedgun-ng/counters_measurement.hpp:143-147 | growing a spine leaves every earlier node's value alone |
| `Spine.EvalSpliced` | include/speedgun-ng/counters_measurement.hpp:178-199 | a spliced node evaluates as in its source, whatever leaves the operands share |
| `Spine.CombinedMeans` | source/counters/fold.cpp:38-75 | each node kind evaluates to its own operation on the operands' values: sum, difference, quotient, product with the neutral factor, least, greatest |
| `Spine.ScaledMeans` | include/speedgun-ng/counters_measurement.hpp:757-764 | a scalar multiple evaluates to the factor times the operand |
| `Spine.DividedMeans` | include/speedgun-ng/counters_measurement.hpp:774-786 | a quotient evaluates to the quotient, and its two splices build the same spine the other operators would |
| `Spine.CombinedWellFormedIff` | include/speedgun-ng/counters_measurement.hpp:733-743 | an operator yields a well-formed spine exactly when its left operand holds a node |
| `Spine.EmptyLeftHasNoNode` | include/speedgun-ng/counters_measurement.hpp:733-743 | a sum of nothing and one leaf, whose left child is no node |
| `Spine.EmptyRightRepeatsLeft` | include/speedgun-ng/counters_measurement.hpp:178-199 | an empty right operand makes the left one stand on both sides |
| `Spine.BuildPreservesMeaning` | source/counters/fold.cpp:38-75 | the spine any expression builds evaluates to the expression's meaning, written with the operations themselves, over any arithmetic |
| `Spine.BuildLeaves` | include/speedgun-ng/counters_measurement.hpp:132-141 | a built spine's leaves are the expression's addresses, each once |
| `Spine.BuildStarts` | include/speedgun-ng/counters_measurement.hpp:178-199 | the first leaf of a built spine is the first leaf the expression names, whose provider's state a fold discloses |
| `SpineBuild.ExprCore.AddLeaf` | include/speedgun-ng/counters_measurement.hpp:132-141 | finds or appends in place and returns the address's index |
| `SpineBuild.ExprCore.ScaleAll` | include/speedgun-ng/counters_measurement.hpp:160-164 | one scale node over the root |
| `SpineBuild.MergeLeaves` | include/speedgun-ng/counters_measurement.hpp:181-185 | the remap built while merging still names every leaf's index at the end |
| `SpineBuild.Splice` | include/speedgun-ng/counters_measurement.hpp:178-199 | the in-place splice is the specified one and returns the shifted root |
| `SpineBuild.Combine` | source/counters/linux_pmu/metric_formula.cpp:1152-1160 | a copied left operand, the right one spliced, one node over both |
| `SpineBuild.Add` | include/speedgun-ng/counters_measurement.hpp:733-743 | the built spine is worth the sum of its operands over every window |
| `SpineBuild.Subtract` | include/speedgun-ng/counters_measurement.hpp:745-755 | the built spine is worth the left operand less the right one over every window |
| `SpineBuild.Divide` | include/speedgun-ng/counters_measurement.hpp:774-786 | both operands spliced into an empty spine, one quotient node |
| `SpineBuild.Multiply` | include/speedgun-ng/counters_measurement.hpp:757-764 | a copy under one scale node |
| `Layout.GatherOk` | source/counters/plan.cpp:429-491 | what is gathered is each used address once, bound to its countable catalog record |
| `Layout.WindowsOpenTheirSlots` | source/counters/plan.cpp:514-547 | each provider's window is opened over exactly its own slots' addresses, in slot order |
| `Layout.GroupsTile` | source/counters/plan.cpp:514-547 | the groups tile the slots in provider order and each owns one column past all slots |
| `Layout.CompiledOk` | source/counters/plan.cpp:402-594 | a compiled plan reads exactly the used addresses, one slot each, index and address two names of one column |
| `Layout.SlotHasOneOwner` | source/counters/fold.cpp:129-152 | the disclosure scan finds the column of the one group that owns a slot |
| `Compile.GatherAll` | source/counters/plan.cpp:429-491 | the gathering loops with their seen map and every error in order |
| `Compile.PlaceProvider` | source/counters/plan.cpp:514-547 | one provider's leaves appended to slots and address map in loop order |
| `Compile.LayOut` | source/counters/plan.cpp:506-564 | the two layout passes build the specified plan |
| `Compile.CompileCore` | source/counters/plan.cpp:402-594 | the whole compile, refusals included, equals its specification |
| `CompileOutcome.EveryOutcome` | source/counters/plan.cpp:402-594 | what every compile answers: no expression, else the first expression without leaves or the first leaf that is unknown or not countable, else the first provider that declines its window, else a plan |
| `CompileOutcome.PlanComesBackIff` | source/counters/plan.cpp:402-594 | a plan comes back exactly when there is an expression, each names a leaf, each leaf has a countable record, or a scope-refused one for the cpu kind, and each provider opens its window |
| `CompileOutcome.UsesAre` | source/counters/plan.cpp:442-444 | what is read holds each used address exactly once |
| `Table.CellsApart` | include/speedgun-ng/counters_provider.hpp:224-234 | no two cells of the column block share storage |
| `Table.PointSink.Put` | include/speedgun-ng/counters_provider.hpp:224-234 | the point lands in the next column at this row, no other cell changes, the cursor moves by one |
| `Table.PointSink.PutDisclosure` | include/speedgun-ng/counters_provider.hpp:250-265 | the state lands in the named column, the cursor stays |
| `Table.PointOfSlot` | source/counters/plan.cpp:34-44 | a slot's point in the row is its own window's point at its place in that window |
| `Table.ReadWindow` | include/speedgun-ng/counters_provider.hpp:299-307 | one window writes a point for each address in order, then its state, and nothing else |
| `Table.SampleRow` | source/counters/plan.cpp:34-44 | one action fills its row with every group's points in slot order and every state, touches no other row, and leaves the cursor at the leaf count |
| `Bits.PowerTest` | source/counters/plan.cpp:228-232 | the factory's bit test accepts exactly the powers of two |
| `Bits.MaskIsRemainder` | source/counters/plan.cpp:395 | the mask of the head is its remainder by the capacity |
| `Recorder.AppendHolds` | source/counters/plan.cpp:387-400 | writing the next sample at its own row keeps every sample still retained |
| `Recorder.LogicalRowIsSample` | source/counters/fold.cpp:279-289 | logical row i, wrapped or not, is sample number dropped + i, and dropped is what exceeded the capacity |
| `Recorder.Recorder.HardStopSample` | source/counters/plan.cpp:376-385 | a sample is appended to the log exactly while the capacity holds it, else nothing changes |
| `Recorder.Recorder.RingSample` | source/counters/plan.cpp:387-400 | a sample is always appended; wrapped and dropped account for the overwritten ones |
| `Recorder.MintRing` | source/counters/plan.cpp:225-241 | a ring is minted exactly for a power of two |
| `Fold.LineReadsSource` | source/counters/fold.cpp:226-238 | an address's column holds its own reading and the column scanned for it its provider's state |
| `Fold.FoldIsOwed` | source/counters/fold.cpp:265-330 | a fold over a recorder equals what the readings of its two end points owe; interior samples change nothing |
| `Fold.FoldPairs` | source/counters/fold.cpp:332-342 | one fold for each two adjacent points |
| `Fold.EndToEnd` | source/counters/fold.cpp:265-330 | build, compile, sample, fold: a gap exactly when a provider of one of the expression's leaves disclosed one at an end point, else the expression's meaning over each leaf's later reading less its earlier one modulo 2^64 |
| `Fold.DeltasTelescope` | source/counters/fold.cpp:42-48 | adjacent changes add up to the change across them, modulo 2^64 |
| `ScopeWindow.Scope.Start` | source/counters/plan.cpp:342-354 | the first point of a window, taken from a fresh scope |
| `ScopeWindow.Scope.Finish` | source/counters/plan.cpp:356-366 | the second point closes the window |
| `ScopeWindow.Scope.ReadMetric` | source/counters/fold.cpp:401-407 | the metric of a closed scope is what its two readings owe |
| `Fanout.CompileFanout` | source/counters/plan.cpp:597-650 | the fan-out compile equals its specification, with every refusal in order, a null or repeated object where the selection reaches it |
| `Fanout.FanoutOutcome` | source/counters/plan.cpp:597-650 | what every fan-out compile answers: the exemplar's leaves, the selection, the common object, then the first null or repeated object, then what compiling the instances answers |
| `Fanout.InstanceResolves` | source/counters/plan.cpp:622-647 | a compiled fan-out lists the selected objects, each once, and its plan reads every exemplar leaf under each of them through the catalog's provider |
| `Fanout.FindPrefix` | source/counters/plan.cpp:83-104 | the prefix shared by every leaf, or none |
| `Fanout.InstanceMeans` | source/counters/plan.cpp:71-79 | a re-homed spine evaluates as the exemplar over the other object's changes |
| `Fanout.FoldFanout` | source/counters/plan.cpp:652-666 | one fold a selected path over the whole window |
| `Fanout.FanoutEndToEnd` | source/counters/plan.cpp:652-666 | compile an exemplar over any selection, sample, fold: the row of each selected object is a gap exactly when the catalog's provider of one of the exemplar's leaves under that object disclosed one, else the exemplar's value over that object's changes |
| `Fanout.ExemplarPassesIff` | source/counters/plan.cpp:83-104 | an exemplar passes exactly when every leaf's object is the first leaf's or lies below it |
| `Fanout.NestedExemplarCollapses` | source/counters/plan.cpp:597-621 | an exemplar over two nested objects is let through and its difference folds to a value less itself |
| `TimedLoop.PointsOwedIsExactIff` | include/speedgun-ng/benchmark.hpp:1592-1593 | the 64-bit ceiling counts the chunks exactly when its sum does not wrap |
| `TimedLoop.PointsOwedCanBeZero` | include/speedgun-ng/benchmark.hpp:1592-1593 | at the largest count in two uneven chunks no point is owed |
| `TimedLoop.ChunkPlanIsPromisedIff` | source/harness/detail/calibration.hpp:68-92 | the plan in 64-bit words keeps the header's promise exactly when each of its sums fits 64 bits; it then holds the floor and counts the chunks |
| `TimedLoop.ChunkPlanBreaksNearTheTop` | source/harness/detail/calibration.hpp:79-87 | a count whose plan divides by zero, and one whose plan has no chunk |
| `TimedInvariant.StepInv` | include/speedgun-ng/benchmark.hpp:1446-1522 | every operation keeps the run's invariant: room, counts, grid, pauses |
| `TimedTheorems.RoomAlwaysSuffices` | include/speedgun-ng/benchmark.hpp:1805-1842 | whatever pauses, skips and breaks a body makes, the hard stop never fires and the run's counts add up |
| `TimedTheorems.CompletedLoopIsExact` | include/speedgun-ng/benchmark.hpp:1446-1498 | an unskipped loop makes exactly its passes, yields 0 to N-1 in order, and takes one entry, one boundary each chunk and one exit |
| `TimedTheorems.PairNamesItsPauseIff` | include/speedgun-ng/benchmark.hpp:2052-2067 | a recorded pair names its own pause exactly when no point was taken while the pause stood open |
| `TimedTheorems.TidyRunsRecordTruePairs` | include/speedgun-ng/benchmark.hpp:2052-2067 | when each pause closes before the loop takes a point, pairs are disjoint, ordered, adjacent, and every other point is the window's |
| `TimedTheorems.PauseAcrossABoundaryIsMisrecorded` | include/speedgun-ng/benchmark.hpp:2010-2018 | a run whose pause crosses a chunk boundary records the boundary as the pause's start |
| `TimedTheorems.PlainLoopCompletes` | include/speedgun-ng/benchmark.hpp:1446-1466 | from any point of a loop the passes left are made and the points left are taken |
| `TimedOutcome.EndedRunIsClosed` | source/harness/runner.cpp:2586-2592 | however a run of at most one loop ended, after the top-up its window is open and closed, no pause is open, and its points start with the one entry and hold exactly one exit |
| `TimedOutcome.TopUpAdds` | include/speedgun-ng/benchmark.hpp:2081-2088 | the top-up adds the entry of a window never opened, the close of an open pause, recorded or folded and counted, and the exit of an open window at the passes done, in this order and nothing else |
| `TimedOutcome.SecondTopUpChangesNothing` | source/harness/runner.cpp:2585-2592 | the second top-up of a body that threw changes nothing |
| `TimedOutcome.SkipAdds` | include/speedgun-ng/benchmark.hpp:1626-1638 | a skip adds its flag and the exit of a window that stands open |
| `TimedOutcome.SkippedRunMakesNoPass` | include/speedgun-ng/benchmark.hpp:1576-1584 | a loop entered after a skip makes no pass, over any operations that follow |
| `TimedOutcome.PausesRecordedAre` | include/speedgun-ng/benchmark.hpp:1805-1842 | the recorded pauses number the lesser of all pauses and the pause room the capacity leaves; every other one folds |
| `TimedReentry.LoopIsSafeIff` | include/speedgun-ng/benchmark.hpp:1576-1600 | a loop entered in any state of the window is safe for every body exactly when the points ahead of it fit the recorder; else the empty body meets the hard stop |
| `TimedReentry.ReentryIsAtHead` | include/speedgun-ng/benchmark.hpp:1576-1600 | entering again, after a completed loop or a break, owes every boundary, and the exit point where the window still stands open |
| `TimedReentry.SecondLoopStopsTheProgramIff` | source/harness/runner.cpp:2032-2035 | a run with no pauses that completes its loop and enters it again stops the program instead of failing exactly when its pause room is below its boundary count |
| `TimedReentry.SecondLoopCanStopTheProgram` | source/harness/runner.cpp:2024-2026 | two iterations in chunks of one with no pause room, entered twice, meet the hard stop |
| `TimedState.State.Begin` | include/speedgun-ng/benchmark.hpp:1576-1600 | the entry point, the first chunk and the points owed, or an empty cursor after a skip |
| `TimedState.State.Skip` | include/speedgun-ng/benchmark.hpp:1626-1638 | a skip closes the window at once |
| `TimedState.State.PauseTiming` | include/speedgun-ng/benchmark.hpp:1805-1842 | a pause takes recorder room or falls to the slot by the room test |
| `TimedState.State.ResumeTiming` | include/speedgun-ng/benchmark.hpp:1859-1871 | the closing half of the open pause |
| `TimedState.State.ClosePausePair` | include/speedgun-ng/benchmark.hpp:2052-2067 | the pair is recorded or folded, and counted |
| `TimedState.State.TakeChunkSample` | include/speedgun-ng/benchmark.hpp:2010-2018 | one boundary point, one point less owed |
| `TimedState.State.TakeExitSample` | include/speedgun-ng/benchmark.hpp:2030-2042 | the exit point once, while the window stands open |
| `TimedState.State.TopUpWindow` | include/speedgun-ng/benchmark.hpp:2081-2088 | the in-place top-up is the step whose effect TimedOutcome.TopUpAdds writes out |
| `TimedState.Cursor.More` | include/speedgun-ng/benchmark.hpp:1446-1466 | the comparison: a pass, a boundary and a refilled chunk, or the close of the window |
| `TimedState.Cursor.Advance` | include/speedgun-ng/benchmark.hpp:1477-1481 | one pass less |
| `TimedState.Cursor.Index` | include/speedgun-ng/benchmark.hpp:1494-1497 | in a pass of any run the index is the number of passes done before it, and the newest yielded |
| `TimedState.RunLoop` | include/speedgun-ng/benchmark.hpp:1417-1600 | the range-for around any pausing body ends, yields every index once in order, and the recorder holds the window and two points a recorded pair |
| `Chunks.BuildChunkValues` | source/harness/percentiles.cpp:24-88 | from any base point, the chunk values are the windows between the points in no pair, each less the pauses that start in it |
| `Chunks.NettedFold` | source/harness/runner.cpp:109-128 | the netted run is the span less every recorded pause and the total of the pauses that fell to the slot |
| `Chunks.ValuesAreDifferences` | source/harness/percentiles.cpp:68-86 | a chunk value and a netted run written out: later reading less earlier one, less the same of a pause that starts inside, modulo 2^64 |
| `Chunks.PausesAddUp` | source/harness/runner.cpp:109-128 | the paused change of two lists of pauses is the sum of theirs |
| `Chunks.CleanRunReadsBack` | source/harness/percentiles.cpp:44-66 | of a clean run the harness finds exactly the points the loop took for its chunks |
| `Chunks.ChunksShareOutTheRun` | source/harness/percentiles.cpp:68-86 | the chunk values of a clean run add up to the netted run, for every column, modulo 2^64 |
| `Range.AddPowers` | source/harness/family.cpp:41-58 | every power within the bounds, once, rising; the guard stops exactly before a product leaves 64 bits |
| `Range.AddNegatedPowers` | source/harness/family.cpp:64-76 | the mirrored powers of a negative interval, rising |
| `Range.CreateRange` | source/harness/family.cpp:80-110 | sorted; exactly the bounds, the powers and negated powers strictly between and the crossed zero; strictly rising unless high is 0 and low at most -2 |
| `Range.CreateDenseRange` | source/harness/family.cpp:167-187 | a list comes back exactly when the sum past its last value fits 64 bits |
| `Range.DenseIs` | source/harness/family.cpp:155-166 | the list is the bound plus each multiple of the step up to the upper bound |
| `Range.DenseToTheTopOverflows` | source/harness/family.cpp:181-183 | a dense range up to the largest value always overflows |
| `Names.InstanceName` | source/harness/family.cpp:223-253 | the name built in place is the family name, a segment an argument, and the thread segment |
| `Names.NameSpelled` | source/harness/family.cpp:223-253 | a name of two arguments written out, with its label and thread segment |
| `Names.DecimalReadsBack` | source/harness/family.cpp:223-253 | the text of a number reads back as the number and has no leading zero |
| `Names.NameTellsInstancesApart` | source/harness/family.cpp:223-253 | within a family of one arity a name belongs to one argument list and one thread count |
| `Names.SuiteIsOfTheName` | source/harness/family.cpp:267-277 | an instance's suite is the text of its name up to the first separator |
| `Names.SuiteAndCaseMakeTheName` | source/harness/family.cpp:267-277 | the suite, a separator and the case make the instance name, or the name is its suite alone |
| `Names.PairNamesOneInstanceIff` | source/harness/family.cpp:264-277 | two names share suite and case exactly when they are equal or a suite s and s/s |
| `Names.SuiteAndCaseCanRepeat` | source/harness/family.cpp:264-266 | families a and a/a share suite and case |
| `Expansion.HasDuplicate` | source/harness/family.cpp:321-339 | the scan answers whether a kept instance holds the name |
| `Expansion.ExpandRegistry` | source/harness/family.cpp:360-450 | the nested loops over blocks equal the simple form: flatten, keep the first of each name, group by suite |
| `ExpansionOutcome.AskedAt` | source/harness/family.cpp:424-443 | where each combination is asked: families in order, each family's argument lists in order, each list's thread counts in order |
| `ExpansionOutcome.AskedCount` | source/harness/family.cpp:424-443 | a family asks one instance for each argument list and thread count, one list standing for none |
| `ExpansionOutcome.EveryCombinationIsAsked` | source/harness/family.cpp:397-443 | every argument list, the empty one where a family states none, is asked with every thread count |
| `ExpansionOutcome.EveryCombinationIsListed` | source/harness/family.cpp:360-450 | every combination's name is in the expanded list |
| `ExpansionOutcome.EveryListedIsAsked` | source/harness/family.cpp:360-450 | every listed instance is a combination of its own family |
| `ExpansionOutcome.StopsAtFirstUnknown` | source/harness/family.cpp:373-389 | the expansion stops exactly when a family names an unknown preset, at the first that does |
| `Expansion.ExpandedKeepsFirst` | source/harness/family.cpp:350-356 | no name twice, every asked name present, each held by the first that asked |
| `Expansion.ExpandedGroupsStably` | source/harness/family.cpp:350-356 | within a suite nothing moves; suites stand in registration order, each in one run |
| `Expansion.FamilyNeverClashesWithItself` | source/harness/family.cpp:223-253 | two instances of one family clash only when arguments and thread count repeat |
| `Registration.BuildAll` | source/counters/system.cpp:33-81 | a seed's leaves, refusing unknown units and repeated names, the root's included |
| `Registration.System.RegisterProvider` | source/counters/system.cpp:200-297 | all or nothing: a refused call leaves every table, an accepted one merges the whole batch |
| `Registration.RegisterKeeps` | source/counters/system.cpp:200-297 | a call keeps the tree's invariant, adds one provider, and leaves earlier objects, aliases and root leaves as they were |
| `Registration.AcceptedSeedsAreStored` | source/counters/system.cpp:280-295 | every accepted object is stored with its own leaves in order, and the root's are appended |
| `RegistrationOutcome.RefusedIff` | source/counters/system.cpp:200-297 | a call is refused exactly when a seed's path, an entry's unit or name, or a seed's alias stands in the way, and its error names the first such thing in order |
| `RegistrationOutcome.AcceptedTreeIs` | source/counters/system.cpp:280-295 | the whole tree an accepted call leaves: exactly the old and new objects, aliases and limits, a later limit over an earlier one |
| `RegistrationOutcome.AcceptedSeedIs` | source/counters/system.cpp:33-81 | each accepted object has its alias and its leaves in order, each with its own address, name, unit, availability and the call's provider |
| `Registration.EveryTreeIsOk` | source/counters/system.cpp:200-297 | over any sequence of calls, refused or not, a good tree stays good: names, paths and aliases unique, units known, provider indices valid |
| `Registration.TreeIsCatalog` | source/counters/system.cpp:222 | every registered tree satisfies what plan compilation needs of its catalog |
| `Registration.RegisteredFromEmpty` | source/counters/system.cpp:200-297 | whatever is registered from the start, the tree is good and serves compilation as a catalog |
| `Registration.AddressResolvesIff` | source/counters/detail/core.hpp:237-268 | a stored leaf address resolves to its leaf exactly when the name has no separator and no other object's alias is spelled like the path |
| `RegistrationOutcome.AliasResolves` | source/counters/detail/core.hpp:237-268 | an object's alias, the separator and a leaf's name resolve to that object's own leaf |
| `Registration.AliasCanHideAPath` | source/counters/system.cpp:89-98 | an accepted call whose alias is spelled like a stored path, after which that path's leaf address resolves to nothing |
| `Fit.FitCurve` | source/harness/complexity.cpp:67-112 | the two loops compute the coefficient and the relative error, with both degenerate cases |
| `Fit.CoefficientIsLeast` | source/harness/complexity.cpp:88-91 | no other coefficient leaves a smaller sum of squared residuals, and none as small |
| `Fit.FitIs` | source/harness/complexity.cpp:67-112 | a fit's coefficient is the one of least residual sum, and its error times the mean a hundred times the root of the mean squared residual; with both degenerate cases |
| `Fit.ExactFamilyIsRecovered` | source/harness/complexity.cpp:88-91 | a family that follows a curve exactly is fitted with that curve's own coefficient and no residual |
| `Fit.ChooseCurve` | source/harness/complexity.cpp:170-183 | the earliest candidate no other beats |
| `Fit.PositiveMeanChoosesTheBest` | source/harness/complexity.cpp:170-183 | for a positive mean the choice has the least residual sum, strictly less than any earlier candidate's |
| `Fit.ZeroMeanChoosesTheFirstExact` | source/harness/complexity.cpp:103-108 | for a mean that counts as zero the choice is the earliest candidate that reproduces the values, else the first |
| `Fit.NegativeMeanChoosesTheWorst` | source/harness/complexity.cpp:103-112 | for a negative mean the same comparison chooses the greatest residual sum |
| `Fit.NegativeMeanLosesTheExactCurve` | source/harness/complexity.cpp:170-183 | values -1 and -2: the linear curve reproduces them and the constant one is kept |
| `Fit.ZeroMeanLosesTheBetterCurve` | source/harness/complexity.cpp:103-108 | values -1 and 1: the constant curve is kept over the linear one, which leaves less |
| `Fit.FitFamily` | source/harness/complexity.cpp:132-189 | the refusals in order, then one row a quantity over the candidates the user function, the named curve or the automatic fit gives |

## Left out

- InboxTheorems.DrainIsSound: its condition on the run's idle marks is sufficient, not
  necessary, because a mark stored off the sentinel does no harm to a drain that never
  looks at it; the exact condition of one look is `IdleLookIsSoundIffMarkedOnSentinel`.
- C++ weak memory orderings: every access is one sequentially consistent step, and
  `notify_one`, `notify_all` and the atomic waits are guards on the waiting step.
- Wrap-around of the accept and dispatch counts, the epochs, the barrier's generation and
  the recorder's head at 2^64: they are unbounded here.
- Placement, affinity, NUMA binding, thread creation and `join`: platform calls.
- Work a node's function does, including dispatching from inside it: `RunItem` is one step,
  and a dispatch from the loop thread is a dispatch of another thread identity.
- Clock, PMU and push providers: a provider's reading is a parameter, taken to put one
  point for each address of its window in order, the obligation the header states.
- Plan calibration, the multiplex ratio, the `scaled` flag, the push-monotonicity check and
  the raw view of a recorder.
- The sampling thread check, warnings on the error stream and the family size check.
- Kind and description texts of objects, and the handles of the registered tree.
- IEEE rounding: the operators of a fold are abstract, the fit is over the reals, its square
  root is any order-preserving function and the table of curves is a parameter.
- The samples behind a `TimedState.State`: the recorder is its committed count with the
  hard-stop check; the readings enter in `Chunks`, where the total the fold slot accumulated
  is a parameter.
- Chunks.BuildChunkValues: folds one leaf column, with exact counts modulo 2^64; over an
  expression the chunk values add up only where its operators do.
- Chunks.NettedFold: as above, and without the availability of the row.
- Command line, catalog printing, report views, JSON, the jitter probe, the tracer, the
  simulation and the example programs: option plumbing, console output and demonstrations.
