# Tangor in Dafny

Tangor evaluates Boolean circuits on TFHE ciphertexts by submitting one task per gate to the
StarPU runtime. This project models its hard core and proves what holds of every input, every
run and every schedule. Run `dafny verify dfyconfig.toml` to check all files together.

**From netlist to ciphertext.** `Netlist.dfy` is the parser class `ParsedBC`, with its loops proved
against a specification; `NetlistFacts.dfy` says what those loops keep. `TaskGraph.dfy` maps nets
to data handles and builds the tasks. `Runtime.dfy` is the runtime: start and finish are separate
events, and the only ordering rule is that a task waits for the earlier submissions that touch one
of its handles, one of the two writing. `Gates.dfy` is the gate arithmetic modulo q = 8μ, for
ciphertexts of any dimension; `Hoge.dfy` the accelerator wrapper with its leftover kernel
arguments. `EndToEnd.dfy` puts them together: whatever the runtime chooses, gate-driven outputs
encrypt the circuit's values; `Accelerator.dfy` lets each task land on a processor or on the
accelerator, and `HostOutputs.dfy` follows the values into main memory. `CellMeaning.dfy` states the
same of the Boolean functions of the cells as the netlist text has them, by cell type and pin, before
any renaming or reordering. `Progress.dfy` shows that such runs exist for every circuit and input,
and that the assumptions on the ciphertext operations can be met.

**The asynchronous KVSP backend.** `Backend.dfy` is the code around the runtime, as a class proved
against step functions. `BackendRuns.dfy` interleaves API calls of any number of threads with task
starts, completions, callbacks and shutdown. `BackendOwnership.dfy` (heap references, keys, handle
registries), `BackendData.dfy` (every run is a fold of plain updates), `BackendSync.dfy` (captured
runs refine synchronous ones), `BackendCaptures.dfy` (completion tokens and CMUX trees),
`BackendProgress.dfy` (waits end, and what a token promises in a given state),
`BackendPromise.dfy` (what it promises in all runs, read off the captured calls),
`BackendCoherence.dfy` (the same machine over host and device copies, with callers' own stores) and
`KvspGates.dfy` (gate calls on ciphertexts) and `RamMeaning.dfy` (what the RAM calls, and trees of
them, select) hold what every run keeps. `CompletionToken.dfy` and
`Coherence.dfy` are the two questions about the runtime itself: when one completion implies
another, and when host and device copies agree.

**AES, twice.** The C++ AES of the test workload (`AesProgram.dfy`, `AesBlocks.dfy`, `AesKeys.dfy`,
`AesClass.dfy`) is proved against the functions of `AesCipher.dfy` and `AesModes.dfy`; the one-cycle
Verilog AES-128 circuits (`AesNets.dfy`, `AesSbox.dfy`, `AesCircuit.dfy`, `AesColumns.dfy`,
`AesKeyCircuit.dfy`, `AesOneCycle.dfy`) are proved equal to them for every key and block.
`AesStandard.dfy` states the key schedule as FIPS 197 does, for the three key lengths, and
`AesRounds.dfy` is the round structure both share, for any state type; `AesField.dfy` and
`AesTables.dfy` are the arithmetic of GF(2^8) and the constant tables.

## Hypotheses

What the proofs take from outside the code is stated in the contracts:

- Gate order: cells come in JSON object order (src/yosys-json-parser.cpp:24), so
  `EndToEnd.Circuit` asks that each gate reads only inputs and earlier outputs, that nets have one
  driver, and that no gate drives an input. `CellMeaning.TextCircuit` is a check on the netlist text
  that ensures it. The driver index the parser builds is not used for ordering.
- No registers: the D lookup at src/starpu_build_graph.cpp:29-30 takes the begin of one vector and
  the end of another, so graph results are for netlists without DFFs (`TaskGraph.RegisterFree`).
- Output positions: an output net that is also an input or a wire, or a repeated output position, is
  never written; `TaskGraph.OutputSlotTargeted` says exactly which output slots are. An output net is
  never a wire when the modules are separated (`NetlistFacts.Separated`), which one module always is
  (`NetlistFacts.OneModuleSeparated`); then every driven output net is written at its first position
  (`EndToEnd.SeparatedOutput`).
- Bootstrap: the phase's half decides the bit of the result, with noise at most B, as long as the
  phase is `margin` away from the two boundaries (`Gates.Bootstraps`; it can be met, see
  `Gates.BootstrapExists`). Circuit values have noise at most B and 2B + margin < μ. The multiplexers
  of the encryption library are assumed to select correctly with noise at most B (`EndToEnd.Muxes`).
  For the accelerator nothing is assumed but its bootstrap: with bootstrap noise b and
  4b + margin < μ its two-pass MUX meets the same condition with B = 2b (`Accelerator.TwoPassMuxes`),
  so circuits work on any placement that keeps NMUX gates off it (`Accelerator.AcceleratedCircuit`).
- Runtime: the ordering rule above; a completion callback runs after the task and once; host code
  stores only to values no unfinished task uses and marks the store before submitting work on them.
- Unresolved nets: `search_pointer` returns an indeterminate handle for a net that is nowhere
  (src/starpu_build_graph.cpp:50-52); the model builds no graph then, and `TaskGraph.DrivenNetResolves`
  and the circuit conditions rule it out.
- Types: gate calls name TLWE values and the two RAM calls write a TRLWE variable, as their C++
  signatures say (`KvspGates.Typed`).
- Objects: the values a call names exist while it runs (`BackendData.AllExist`).
- Calls: the backend has no codelet for a call whose output is also its selector, for a CMUX whose
  output is both operands, or for a gate whose output is an input (`BackendRuns.WellFormed`;
  `BackendData.CmuxWellFormed` says what that means for a CMUX).

Findings about the code itself:

- With several modules the wire list can overlap the outputs (`NetlistFacts.TwoModulesOverlap`). It
  stays disjoint if and only if every net a module drives that is an output port at all is an output
  port of that module or an earlier one (`NetlistFacts.DisjointIffSeparated`).
- The negated accelerator MUX leaves `!s && c0`, which is the negated selection only when the selector
  and the first operand are both true (`Hoge.NegatedMuxDecides`).
- A capture's token can read finished before the capture's tasks are. The comment at
  src/iyokan-starpu-codelets.cpp:80-83 says of a frontend task that expands into several submissions
  that the last one "depends on all values that feed its output", and that it is therefore the
  completion token. That holds of a CMUX tree (`BackendCaptures.TreeReachesRoot`), and tasks that feed
  the last one's output are covered. Unrelated tasks in one capture fall outside the comment's claim,
  and the token says nothing about them: two captured NOTs on unrelated values can leave it reading
  finished before the first has started (`BackendPromise.CaptureMayLag`). For any calls, the token
  covers exactly those from which a chain of conflicts leads to the last
  (`BackendPromise.CoveredIffChained`); in a given state of a run, also those that have completed or
  whose chain goes through other threads' tasks (`BackendProgress.CaptureCoveredIffChained`).

## Model

| member | source | states |
|---|---|---|
| `Runtime.StepKeepsInv` | src/starpu_build_graph.cpp:112-168 | every submission, start or finish keeps: started tasks saw the values of the sequential run, and a handle whose finished writers are those of a prefix holds that prefix's value |
| `Runtime.SettledHandleIsSequential` | src/iyokan-starpu-codelets.cpp:528-540 | in every reachable state a handle whose submitted writers have all finished holds what running all submissions in order leaves there, even while other tasks run |
| `Runtime.DrainedRunIsSequential` | src/iyokan-starpu-codelets.cpp:357-453 | however submissions, starts and finishes interleave, a drained run leaves every handle as the sequential run does |
| `Runtime.ScheduleIndependence` | src/starpu_build_graph.cpp:112-168 | every total order of W/R/RW tasks that keeps submission order between conflicting tasks ends in the store of submission order |
| `Runtime.NoDeadlock` | src/iyokan-starpu-codelets.cpp:455-460 | while a submission is unfinished, the first unfinished one, all before it having finished, can be started or finished |
| `Runtime.StartsIffApart` | src/starpu_build_graph.cpp:112-168 | a submission can start if and only if it has not and every unfinished earlier one neither writes a handle it uses nor uses a handle it writes; two tasks that only read a handle are never ordered |
| `Runtime.ReadersOverlap` | src/starpu_build_graph.cpp:112-168 | any two submissions that can start can both be started, in either order, before one finishes |
| `CompletionToken.FinishedFollowsChain` | src/iyokan-starpu-codelets.cpp:76-85 | in every reachable state a finished task implies the completion of every task from which a chain of conflicts leads to it |
| `CompletionToken.UnchainedTaskMayLag` | src/iyokan-starpu-codelets.cpp:76-85 | for any list of tasks and any task with no such chain there is a legal run in which the token has finished and the task has not even started |
| `CompletionToken.TokenCoversIffChained` | src/iyokan-starpu-codelets.cpp:542-556 | the token's completion implies a task's completion in all runs if and only if a conflict chain leads from the task to the token |
| `Coherence.TraceKeepsMInv` | src/iyokan-starpu-codelets.cpp:462-475 | any mixture of tasks on host or accelerator, host stores, marks and synchronisations keeps the two copies of every value coherent with the single-copy sequential run |
| `Coherence.HostReadIsCoherent` | src/iyokan-starpu-codelets.cpp:528-540 | a host read after synchronizeOutput sees the last write in submission order, by a task or by a marked host store, registered or not |
| `Coherence.TaskReadIsCoherent` | src/iyokan-starpu-codelets.cpp:567-590 | every started task, on either node, was handed the values left by all earlier submissions and marked host writes |
| `Coherence.MarkedRefines` | src/iyokan-starpu-codelets.cpp:567-590 | marking a host write invalidates the device copy if there is a handle and does nothing if not, and either way counts as a write at that point of the order |
| `Coherence.PlacedRun` | src/starpu_build_graph.cpp:112-168 | two copies do not restrict the runtime: every run of the plain machine, its tasks on any chosen nodes, is a run on two memories with the same values |
| `Coherence.HostWriteRuns` | src/iyokan-starpu-codelets.cpp:462-475 | whenever all tasks on a value have finished it can be stored to and marked, and then main memory holds the stored value as the only valid copy |
| `Backend.Controller.constructor` | src/iyokan-starpu-codelets.cpp:24-36 | the backend starts idle: no key, no handles, no capture, no tasks |
| `Backend.Controller.HandleFor` | src/iyokan-starpu-codelets.cpp:38-66 | returns the registered handle of an address; on first use registers it under a new handle in the table of its kind, changing nothing else |
| `Backend.Controller.EnsureKey` | src/iyokan-starpu-codelets.cpp:121-133 | succeeds if and only if there was no key or the same one, and leaves the first key ever passed |
| `Backend.Controller.EnsureStarpu` | src/iyokan-starpu-codelets.cpp:121-133 | starts the runtime first; then a keyless call passes and a keyed one passes the key check; a rejected key leaves nothing but the started runtime |
| `Backend.Controller.BeginCapture` | src/iyokan-starpu-codelets.cpp:542-548 | succeeds if and only if the thread has no capture, opens an empty one, and leaves other captures alone |
| `Backend.Controller.EndCapture` | src/iyokan-starpu-codelets.cpp:550-556 | closes the thread's capture, hands out its last task, if any, and leaves other captures alone |
| `Backend.Controller.AwaitCapture` | src/iyokan-starpu-codelets.cpp:558-565 | blocks the thread on the capture's last task so far, if there is one, and no other thread |
| `Backend.Controller.RegisterBuffers` | src/iyokan-starpu-codelets.cpp:361-363 | registers the buffers in order and returns one handle per buffer, repeats included |
| `Backend.Controller.Insert` | src/iyokan-starpu-codelets.cpp:365-390 | allocates the heap-held completion state; a failed insertion deletes it at once, an accepted one adds a task to the capture or blocks the thread |
| `Backend.Controller.Record` | src/iyokan-starpu-codelets.cpp:76-85 | an accepted task becomes the last of the thread's open capture, or else the thread waits for it |
| `Backend.Controller.Submit` | src/iyokan-starpu-codelets.cpp:392-453 | registration followed by insertion |
| `Backend.Controller.Run` | src/iyokan-starpu-codelets.cpp:592-697 | a gate, MUX or CMUX call succeeds if and only if its key is acceptable and the runtime accepts the task, and only then adds a task; a rejected key leaves no trace but the started runtime |
| `Backend.Controller.TaskCompleted` | src/iyokan-starpu-codelets.cpp:68-74 | the callback marks the task finished and deletes its heap reference, once |
| `Backend.Controller.ReleaseTable` | src/iyokan-starpu-codelets.cpp:503-506 | the clean-up loop unregisters each entry of a table once, in whatever order the table is walked |
| `Backend.Controller.Shutdown` | src/iyokan-starpu-codelets.cpp:494-516 | if running, unregisters both tables, clears them and the key; otherwise does nothing |
| `BackendRuns.RegisteredAllGrows` | src/iyokan-starpu-codelets.cpp:38-66 | registering buffers keeps every older address's handle and gives each buffer one |
| `BackendRuns.StepKeepsRegistry` | src/iyokan-starpu-codelets.cpp:38-66 | every step keeps: handles and addresses are inverse to each other, and each submission's handles are those of its caller's addresses |
| `BackendOwnership.TraceKeepsSane` | src/iyokan-starpu-codelets.cpp:365-390 | registries, references, callback order and keys stay right over every run of any interleaving |
| `BackendOwnership.ReferencesFreedOnce` | src/iyokan-starpu-codelets.cpp:403-453 | each submission's heap reference is deleted exactly once, by the failed insertion or the callback; it is live exactly while its task is in flight; finished reads true only after the body completed |
| `BackendOwnership.CallersKeyUsed` | src/iyokan-starpu-codelets.cpp:121-133 | every keyed task that has started dereferenced the key its own caller passed |
| `BackendOwnership.ResumedAfterCompletion` | src/iyokan-starpu-codelets.cpp:455-460 | a polling thread goes on only after the polled task's body has completed |
| `BackendOwnership.HandleKept` | src/iyokan-starpu-codelets.cpp:38-66 | an address keeps its handle from first use through any run without a shutdown |
| `BackendOwnership.HandlesDistinct` | src/iyokan-starpu-codelets.cpp:38-66 | in every reachable state distinct addresses have distinct handles, across both tables |
| `BackendOwnership.ReleaseCount` | src/iyokan-starpu-codelets.cpp:503-506 | walking a table whose handles are distinct releases each of them once |
| `BackendOwnership.ShutdownReleasesOnce` | src/iyokan-starpu-codelets.cpp:494-516 | shutdown unregisters every handle ever registered exactly once and no other, with no task pending and no reference live |
| `BackendData.ConflictByHandle` | src/iyokan-starpu-codelets.cpp:357-453 | two submissions conflict on handles if and only if their callers' addresses conflict |
| `BackendData.OrderedIffDependent` | src/iyokan-starpu-codelets.cpp:269-276 | the runtime orders two calls if and only if one's output is a value the other names; sharing operands does not order them |
| `BackendData.LaunchIffIndependent` | src/iyokan-starpu-codelets.cpp:374-386 | in every state with registries in order, a submission can be launched if and only if it has not been and no uncompleted earlier call writes a value it names or names its output |
| `BackendData.StepKeepsRefinement` | src/iyokan-starpu-codelets.cpp:592-697 | every step of the backend is a step of the plain task machine on the callers' own addresses and keys, or none |
| `BackendData.CmuxWellFormed` | src/iyokan-starpu-codelets.cpp:647-684 | a CMUX names its written handle once if and only if the output is not the selector and not both operands |
| `BackendData.WritesOnlyOutput` | src/iyokan-starpu-codelets.cpp:310-319 | with the access modes of its codelet, every call writes its first buffer, the output, and nothing else |
| `BackendData.ApplyIsUpdate` | src/iyokan-starpu-codelets.cpp:184-219 | running a call's task updates its output to the call's meaning on the values before it, whichever operand a CMUX output aliases |
| `BackendData.SequentialIsFold` | src/iyokan-starpu-codelets.cpp:647-684 | any sequence of calls run as tasks in order is a fold of plain updates on a store |
| `BackendData.DrainedRunIsFold` | src/iyokan-starpu-codelets.cpp:592-697 | whatever the threads, captures and schedule, once all tasks have completed the memory is the fold of the accepted calls in submission order |
| `BackendSync.SynchronousRuns` | src/iyokan-starpu-codelets.cpp:455-460 | any sequence of calls with codelets and one key can be run outside captures, each call waiting for its own task |
| `BackendSync.CapturedRefinesSynchronous` | src/iyokan-starpu-codelets.cpp:542-565 | for every drained run, the synchronous run of the same accepted calls exists and ends with the same values |
| `BackendCaptures.TraceKeepsCaptures` | src/iyokan-starpu-codelets.cpp:76-85 | in every run an open capture holds exactly the last submission its own thread made since it began |
| `BackendCaptures.CaptureTokenCovers` | src/iyokan-starpu-codelets.cpp:542-556 | if every task of a capture reaches the last through conflicts, then in every continuation the token reading finished implies that all of them have completed, other threads interleaving |
| `BackendCaptures.TreeReachesRoot` | src/iyokan-starpu-codelets.cpp:80-83 | in a CMUX tree of any shape and depth, with any addresses, every node's task reaches the root's, which is submitted last |
| `BackendCaptures.TreeTokenCovers` | src/iyokan-starpu-codelets.cpp:76-85 | a captured CMUX tree's token reading finished implies that every selection in the tree has completed |
| `BackendProgress.RunChosen` | src/iyokan-starpu-codelets.cpp:357-453 | from every sane state any choice of tasks closed under earlier conflicts can be run to completion and notified, no other task moving |
| `BackendProgress.EveryWaitEnds` | src/iyokan-starpu-codelets.cpp:455-460 | from every reachable state, without any further call, some continuation completes and notifies every task and resumes every waiting thread |
| `BackendProgress.ThreadsGoOn` | src/iyokan-starpu-codelets.cpp:494-565 | from every reachable state short of shutdown, in the state where all waits have ended, every thread may open, close or await a capture and make any call with a codelet, and the backend may be shut down |
| `BackendProgress.ResumedReadsResult` | src/iyokan-starpu-codelets.cpp:455-460 | a thread that goes on after its wait finds its call's output as all accepted calls in order leave it, unless a later call overwrites it, even while other tasks run |
| `BackendProgress.CoversIffChained` | src/iyokan-starpu-codelets.cpp:76-85 | from every reachable state: a task's notification implies another task's completion in every continuation if and only if that one has completed or a chain of conflicts leads from it to the first, through tasks of any thread |
| `BackendProgress.CaptureCoveredIffChained` | src/iyokan-starpu-codelets.cpp:542-556 | the token of an open capture promises all submissions of the capture if and only if each has completed or is chained to the last |
| `BackendPromise.CaptureRuns` | src/iyokan-starpu-codelets.cpp:542-548 | any calls with codelets and one key can be captured by any thread, each becoming the capture's last task |
| `BackendPromise.CoveredIffChained` | src/iyokan-starpu-codelets.cpp:76-85 | for any such calls: in every run in which a thread's capture holds them, whatever other threads and the runtime do, the token covers a call if and only if a chain of conflicts among the calls leads from it to the last |
| `BackendPromise.PairCoveredIffDependent` | src/iyokan-starpu-codelets.cpp:76-85 | the token of two captured calls covers the first in every run if and only if one's output is a value the other names |
| `BackendPromise.UnchainedCallLags` | src/iyokan-starpu-codelets.cpp:542-556 | for any such calls and any call without a chain there is a run in which the capture holds exactly them, the token reads finished and the call has not started |
| `BackendPromise.CaptureMayLag` | src/iyokan-starpu-codelets.cpp:80-83 | a capture of two unrelated NOTs whose token reads finished while its first task has not started |
| `BackendPromise.CommonInputMayLag` | src/iyokan-starpu-codelets.cpp:76-85 | so does a capture of two NOTs of the same value: a common input orders nothing |
| `BackendCoherence.RunKeepsSound` | src/iyokan-starpu-codelets.cpp:592-697 | any interleaving of calls, tasks on either node, callbacks, waits, host stores and marks keeps the backend's tables right, registration in step with them, and both copies of every value coherent with the history of calls and marked stores run on one copy |
| `BackendCoherence.HistoryIsReplay` | src/iyokan-starpu-codelets.cpp:567-697 | that one-copy run is a replay of plain updates, one per accepted call or marked store |
| `BackendCoherence.SynchronizedReadsLastWrite` | src/iyokan-starpu-codelets.cpp:528-540 | acquiring a finished task's output leaves in main memory the last write to it in the history, wherever the tasks ran |
| `BackendCoherence.WaitReadsResult` | src/iyokan-starpu-codelets.cpp:455-460 | a wait that ends, output acquisition included: unless something later in the history writes the output, the thread finds in main memory what its call computes from the calls and marked stores before it |
| `BackendCoherence.LaunchedReadsReplay` | src/iyokan-starpu-codelets.cpp:592-697 | every started task, on either node, was handed the values left by the calls and marked stores before it |
| `BackendCoherence.MarkedIsWrite` | src/iyokan-starpu-codelets.cpp:462-475 | marking a store makes main memory, as stored, the only valid copy and enters the write in the history; an address without a handle changes no copy |
| `BackendCoherence.StoreIffDone` | src/iyokan-starpu-codelets.cpp:567-590 | a caller can store to a value, and then mark the store, if and only if the value is there, has no unmarked store and every submitted call that names it has completed |
| `BackendCoherence.AcquiredIffDone` | src/iyokan-starpu-codelets.cpp:528-540 | an output can be acquired, and a wait for it end, if and only if its task has been notified and every submitted call with the same output has completed, the value being there and marked |
| `BackendCoherence.BackendRunsOnNodes` | src/iyokan-starpu-codelets.cpp:592-697 | every run of the backend's machine up to its waits happens over two memories too, with its tasks on any nodes |
| `KvspGates.IyokanGateCorrect` | src/iyokan-starpu-codelets.cpp:269-276 | each of the eight coefficient rows, bootstrapped, encrypts the gate its name promises, noise bound kept |
| `KvspGates.CallEncrypts` | src/iyokan-starpu-codelets.cpp:135-182 | one gate, NOT or MUX call on encryptions yields an encryption of the gate's truth value on the bits of its named operands, left before right, select before the two arms |
| `KvspGates.CallOnBits` | src/iyokan-starpu-codelets.cpp:135-182 | the task of a gate call, run on bits, leaves that truth value in its output and nothing else changed |
| `KvspGates.NamesRelate` | src/iyokan-starpu-codelets.cpp:269-276 | the eight gates against each other: negated names negate, and ANDNOT and ORNOT negate their second operand |
| `KvspGates.FoldEncrypts` | src/iyokan-starpu-codelets.cpp:592-697 | any sequence of calls, RAM calls among them and outputs reused at will, leaves in every TLWE value an encryption of what the gate calls compute on bits |
| `KvspGates.KvspRunEncrypts` | src/iyokan-starpu-codelets.cpp:592-697 | once the calls of any run have completed, RAM calls included, every TLWE value encrypts what the gate calls compute on bits in submission order |
| `RamMeaning.CmuxSelects` | src/iyokan-starpu-codelets.cpp:184-219 | running a CMUX's task leaves in its output what the operand chosen by the selector held, whether the output is a third value, the operand for true or the operand for false |
| `RamMeaning.MuxWoSESelects` | src/iyokan-starpu-codelets.cpp:221-233 | likewise for a MUX without sample extraction |
| `RamMeaning.TreeSelects` | src/iyokan-starpu-codelets.cpp:647-684 | the calls of a CMUX tree of any shape leave at its root what the leaf addressed by its selectors held, for all trees whose calls do not overwrite what later ones need, in-place nodes included |
| `RamMeaning.DistinctUndisturbed` | src/iyokan-starpu-codelets.cpp:80-83 | trees whose nodes are different values and neither leaves nor selectors are such trees |
| `RamMeaning.TreeRunSelects` | src/iyokan-starpu-codelets.cpp:455-460 | in every run whose accepted calls are such a tree, once the last task's state reads finished the root holds what the addressed leaf held |
| `Gates.PhaseCombine` | src/iyokan-starpu-codelets.cpp:135-154 | the phase of ca·a + cb·b + offset is that combination of the phases modulo q, for every dimension and binary key |
| `Gates.CombineNear` | src/iyokan-starpu-codelets.cpp:135-154 | combining two noisy encryptions lands within the weighted sum of their noises of the combined messages |
| `Gates.RowDecides` | src/wrappedcodelets.cpp:23-140 | each of the ten rows puts the phase in the upper half if and only if its gate is true, a margin away from both boundaries, when two noises and the margin fit in μ |
| `Gates.BootstrapExists` | src/wrappedcodelets.cpp:23-140 | the assumption on the bootstrap can be met for every key, bound and margin |
| `Gates.BinaryGateCorrect` | src/wrappedcodelets.cpp:23-140 | a bootstrapped two-input gate on operands that fit encrypts its truth value with the noise of the bootstrap, whatever the operands' noise |
| `Gates.BootstrapsLoosely` | src/wrappedcodelets.cpp:23-140 | a bootstrap with some noise meets every looser bound |
| `Gates.NotCorrect` | src/iyokan-starpu-codelets.cpp:156-163 | negating every word flips the bit and keeps the noise bound |
| `Gates.NotInvolution` | src/iyokan-starpu-codelets.cpp:156-163 | NOT undoes itself word for word |
| `Gates.NotCodelet` | src/iyokan-starpu-codelets.cpp:156-163 | the loop leaves the negated words of its input in the output buffer |
| `Gates.BinaryCodelet` | src/iyokan-starpu-codelets.cpp:135-154 | copying in, evaluating and copying out leaves the gate of the old buffer contents in the output, also when it aliases an input |
| `Hoge.IndexRoundTrip` | include/wrappedcodelets.hpp:37-39 | the kernel's coefficient and offset indices stand for the coefficients the rows use |
| `Hoge.Device.Gate` | include/hogewrapper.hpp:35-53 | a one-pass gate leaves the bootstrapped combination in its output |
| `Hoge.Device.MuxPasses` | include/hogewrapper.hpp:60-78 | the second pass relies on the offset, the second coefficient and the uploaded selector left by the first, and computes the other half of the selection |
| `Hoge.Device.Mux` | include/hogewrapper.hpp:55-84 | the output buffer ends as the sum of both passes plus μ on the body |
| `Hoge.Device.NegatedMux` | include/hogewrapper.hpp:79-83 | the negated variant ends as minus their difference minus μ |
| `Hoge.MuxCorrect` | include/hogewrapper.hpp:55-84 | the two-pass MUX on operands that fit encrypts s ? c1 : c0 with noise at most the sum of the two bootstrap noises, whatever the operands' noise, for every dimension and key |
| `Hoge.NegatedMuxDecides` | include/hogewrapper.hpp:79-83 | the negated variant decrypts to !s && c0, the negated selection if and only if s and c1 are both true |
| `Netlists.ParsedBC.constructor` | src/yosys-json-parser.cpp:4-7 | a fresh parser holds the empty netlist, the gate index at 1 |
| `Netlists.ParsedBC.AddPort` | src/yosys-json-parser.cpp:9-22 | appends the port's nets to inputs or outputs; fails if and only if the direction is another one or a bit is a constant |
| `Netlists.ParsedBC.Drive` | src/yosys-json-parser.cpp:48-59 | lists the net as a wire unless it is an output or listed, and sets its driver index, growing the vector |
| `Netlists.ParsedBC.AddGate` | src/yosys-json-parser.cpp:43-98 | reads a combinational cell pin by pin into one gate, or fails exactly where a pin it reads is missing or constant |
| `Netlists.ParsedBC.AddCell` | src/yosys-json-parser.cpp:24-99 | a register appends its Q and D; any other cell appends one gate, and every net it drives, X of a full adder included, is listed and has that gate as its driver |
| `Netlists.ParsedBC.AddPorts` | src/yosys-json-parser.cpp:9-22 | the port loop, stopping at the first error |
| `Netlists.ParsedBC.AddCells` | src/yosys-json-parser.cpp:24-99 | the cell loop, stopping at the first error |
| `Netlists.ParsedBC.AddModule` | src/yosys-json-parser.cpp:8-100 | ports, then cells |
| `Netlists.ParsedBC.PairRegisters` | src/yosys-json-parser.cpp:102-108 | lists the registers whose output net is an output port |
| `Netlists.ParsedBC.Finish` | src/yosys-json-parser.cpp:102-113 | pairs registers with the unsorted outputs, then sorts the three net lists |
| `Netlists.ParsedBC.Load` | src/yosys-json-parser.cpp:4-114 | the whole constructor computes the parse of its modules, or fails exactly where that is undefined |
| `Lists.SortKeepsMembers` | src/yosys-json-parser.cpp:110-113 | sorting keeps exactly the members |
| `NetlistFacts.CellsKeepIndexed` | src/yosys-json-parser.cpp:24-99 | over any number of cells the gates, the driver index and the register pairs stay those of the cells read so far |
| `NetlistFacts.CellsWires` | src/yosys-json-parser.cpp:48-59 | over any number of cells the wire list stays duplicate-free and gains exactly the driven nets that are not outputs |
| `NetlistFacts.ParserFacts` | src/yosys-json-parser.cpp:4-114 | for any number of modules: wires are duplicate-free and exactly the nets some module drives before any module up to it exports them; outputs are the exported nets; gates are the combinational cells in order; Q and D stay paired; the driver index is the 1-based last driver, 0 for undriven nets |
| `NetlistFacts.DisjointIffSeparated` | src/yosys-json-parser.cpp:51-55 | for any number of modules wires and outputs are disjoint if and only if every net a module drives that is an output port at all is an output port of that module or an earlier one |
| `NetlistFacts.OneModuleSeparated` | src/yosys-json-parser.cpp:8-24 | a single module is always separated, its ports being read before its cells |
| `NetlistFacts.DirectExact` | src/yosys-json-parser.cpp:102-108 | the direct pairs are one (q, q) for each register whose Q is an exported net, in register order, and no other |
| `NetlistFacts.TwoModulesOverlap` | src/yosys-json-parser.cpp:51-55 | two modules that are not separated and whose netlist has a net as wire and output |
| `TaskGraph.SlotsDistinct` | src/starpu_build_graph.cpp:20-53 | distinct nets never resolve to the same handle |
| `TaskGraph.SlotExists` | src/starpu_build_graph.cpp:20-53 | a net resolves if and only if it is an input, a wire or an output |
| `TaskGraph.SlotOrder` | src/starpu_build_graph.cpp:20-53 | a net resolves to its first position among the inputs, else among the wires, else among the outputs, and to no other slot |
| `TaskGraph.DrivenNetResolves` | src/starpu_build_graph.cpp:44-49 | every net a cell drives, second outputs included, resolves, for any number of modules |
| `TaskGraph.BuildGraph` | src/starpu_build_graph.cpp:95-228 | the submission loop yields one task per supported gate in order, with a written output and read inputs in codelet order, or fails where a net does not resolve |
| `TaskGraph.GraphWrites` | src/starpu_build_graph.cpp:112-168 | a slot is written by some task if and only if some supported gate's output resolves to it |
| `TaskGraph.GatesOrdered` | src/starpu_build_graph.cpp:112-168 | two gates are ordered if and only if one's output is the other's output or input; a common input leaves them free |
| `TaskGraph.OutputSlotTargeted` | src/starpu_build_graph.cpp:47-49 | output slot i is some task's target if and only if its net is driven by a supported gate, is neither an input nor a wire, and i is its first position |
| `TaskGraph.OutputSlotWritten` | src/starpu_build_graph.cpp:47-49 | the same without the word wire for separated modules, so for one module |
| `EndToEnd.SolutionExists` | src/starpu_build_graph.cpp:95-228 | a topologically ordered circuit has a solution extending any inputs |
| `EndToEnd.SolutionUnique` | src/starpu_build_graph.cpp:95-228 | and only one, so the circuit's value is well defined |
| `EndToEnd.EvaluateCorrect` | src/wrappedcodelets.cpp:142-228 | each supported gate on encryptions gives an encryption of its truth value, MUX operands in the order the graph passes them, on every worker sound for its kind |
| `EndToEnd.GraphEncrypts` | src/starpu_build_graph.cpp:95-228 | the tasks in submission order leave in every net's slot an encryption of the net's value |
| `EndToEnd.RunEncrypts` | src/starpu_build_graph.cpp:95-228 | so does every drained run of every schedule, tasks on any sound workers |
| `EndToEnd.OutputsEncryptCircuit` | src/starpu_build_graph.cpp:95-228 | parsed netlist to output slot: each written output slot ends as an encryption, within the noise bound, of the circuit's value of its net |
| `EndToEnd.SeparatedOutput` | src/yosys-json-parser.cpp:51-55 | in separated modules, so in one module, the first position of every driven output net is a written slot |
| `CellMeaning.OnlySupported` | src/starpu_build_graph.cpp:99-119 | a gate is submitted if and only if it comes from one of the eleven supported cell types |
| `CellMeaning.RegisterRead` | src/yosys-json-parser.cpp:38-43 | a `$_SDFF_PP0_` cell is read as a register, its Q and D, and no gate |
| `CellMeaning.AdderRead` | src/yosys-json-parser.cpp:69-91 | a `$fa` cell is read from A, B, C to Y, X, or as a half adder with a constant carry, and drives both outputs |
| `CellMeaning.GateMeansCell` | src/yosys-json-parser.cpp:24-98 | for each of the eleven supported cell types the gate's equation, after renaming and in codelet operand order, is the Boolean function Yosys gives the cell on its pins A, B, S |
| `CellMeaning.InputsExact` | src/yosys-json-parser.cpp:9-14 | the parsed inputs are exactly the nets of the input ports, for any number of modules |
| `CellMeaning.TextCircuitParsed` | src/yosys-json-parser.cpp:4-114 | a netlist text of supported cells, one per net, each reading only input ports and Y pins of earlier cells, parses to a circuit without registers |
| `CellMeaning.SolutionIsCells` | src/starpu_build_graph.cpp:95-190 | an assignment solves the circuit if and only if it satisfies every cell of the text |
| `CellMeaning.CellsSolvable` | src/starpu_build_graph.cpp:95-190 | the cells of such a text have a solution for any inputs |
| `CellMeaning.CellsDecide` | src/starpu_build_graph.cpp:95-190 | and only one, on every input and driven net |
| `CellMeaning.OutputsEncryptCells` | src/starpu_build_graph.cpp:95-228 | text to output slot: every drained schedule leaves, for each driven output port, an encryption of what the cells say, at the port's first position |
| `CellMeaning.HostReadsCells` | src/starpu_build_graph.cpp:95-236 | text to main memory: tasks on either node and running in between, the synchronised slot holds that encryption |
| `Accelerator.TwoPassMuxes` | include/hogewrapper.hpp:55-84 | with bootstrap noise b and 4b + margin < μ the accelerator's MUX selects correctly on values of noise 2b and keeps that bound |
| `Accelerator.AcceleratedCircuit` | src/wrappedcodelets.cpp:168-217 | whichever of processor and accelerator each task lands on, NMUX tasks staying off the accelerator, every schedule leaves encryptions of the circuit's values with noise at most two bootstraps' |
| `HostOutputs.SynchronizedHost` | src/starpu_build_graph.cpp:230-236 | once an output has been synchronised, tasks still running on either node, main memory holds its last write in submission order |
| `HostOutputs.HostReadsCircuit` | src/starpu_build_graph.cpp:95-236 | netlist to main memory: after submission and synchronisation, in any interleaving, the host finds in each written output slot an encryption of the circuit's value |
| `HostOutputs.SyncLoopReadsCircuit` | src/starpu_build_graph.cpp:230-236 | when all tasks have finished the synchronising loop runs through and leaves all written outputs encrypted in main memory |
| `HostOutputs.CircuitRunsOnNodes` | src/starpu_build_graph.cpp:95-236 | every circuit, with every assignment of its inputs and every placement of its tasks, has a run on two memories that meets the hypotheses of the two results above |
| `Progress.DrainedRunExists` | src/starpu_build_graph.cpp:95-228 | any list of tasks has a run that submits exactly them and drains |
| `Progress.CircuitRuns` | src/starpu_build_graph.cpp:55-236 | every circuit, with every assignment of its inputs, has loaded slots and a run meeting all hypotheses of the end-to-end theorem |
| `Progress.SoundExists` | src/wrappedcodelets.cpp:23-228 | the assumptions on bootstrap and multiplexers can be met together, for every key and noise bound with 2B + margin < μ |
| `AesField.GfMulAdds` | test/aes/aes-verilog/thirdparties/AES/src/AES.cpp:228-231 | multiplication by any constant polynomial distributes over addition |
| `AesField.InvMixMix` | test/aes/aes-verilog/thirdparties/AES/src/AES.h:338-345 | the two circulant matrices are inverse over GF(2^8), for every column |
| `AesTables.SboxInverse` | test/aes/aes-verilog/thirdparties/AES/src/AES.h:112-179 | the two S-box tables are inverse permutations |
| `AesTables.TablesMultiply` | test/aes/aes-verilog/thirdparties/AES/src/AES.h:181-337 | all six filled multiplication tables are multiplication in the field, for every byte |
| `AesRounds.DecryptedEncrypted` | test/aes/aes-verilog/thirdparties/AES/src/AES.cpp:139-199 | the round structure inverts for any state type, any invertible steps, any number of rounds and any keys |
| `AesRounds.EncryptedAgree` | test/aes/aes-verilog/encrypt/aes_1cc.v:37-79 | two implementations whose steps agree under a representation encrypt alike |
| `AesRounds.DecryptedAgree` | test/aes/aes-verilog/decrypt/inverse_aes_1cc.v:37-79 | and decrypt alike |
| `AesCipher.SubShiftCommute` | test/aes/aes-verilog/thirdparties/AES/src/AES.cpp:184-186 | inverse substitution commutes with both row shifts |
| `AesCipher.MixColumnsUndone` | test/aes/aes-verilog/thirdparties/AES/src/AES.cpp:343-361 | inverse column mixing undoes column mixing on every block |
| `AesCipher.DecryptEncrypt` | test/aes/aes-verilog/thirdparties/AES/src/AES.cpp:139-199 | block decryption undoes block encryption for every block, every number of rounds and any round-key array |
| `AesProgram.Substitute` | test/aes/aes-verilog/thirdparties/AES/src/AES.cpp:201-210 | the loop substitutes every byte of the state through its table |
| `AesProgram.SubBytes` | test/aes/aes-verilog/thirdparties/AES/src/AES.cpp:201-210 | the state becomes its byte substitution |
| `AesProgram.InvSubBytes` | test/aes/aes-verilog/thirdparties/AES/src/AES.cpp:332-341 | the state becomes its inverse substitution |
| `AesProgram.ShiftRow` | test/aes/aes-verilog/thirdparties/AES/src/AES.cpp:212-220 | rotates one row left through a temporary and leaves the others |
| `AesProgram.ShiftRows` | test/aes/aes-verilog/thirdparties/AES/src/AES.cpp:222-226 | the state becomes its row shift |
| `AesProgram.InvShiftRows` | test/aes/aes-verilog/thirdparties/AES/src/AES.cpp:363-367 | left rotations by 3, 2, 1 are the inverse row shift |
| `AesProgram.Scale` | test/aes/aes-verilog/thirdparties/AES/src/AES.cpp:243-246 | the look-up, or the copy for coefficient 1, is multiplication in the field |
| `AesProgram.MultiplyColumns` | test/aes/aes-verilog/thirdparties/AES/src/AES.cpp:233-254 | the triple accumulation loop multiplies every column by the matrix |
| `AesProgram.MixColumns` | test/aes/aes-verilog/thirdparties/AES/src/AES.cpp:233-254 | with the first matrix this is column mixing |
| `AesProgram.InvMixColumns` | test/aes/aes-verilog/thirdparties/AES/src/AES.cpp:343-361 | with the second it is its inverse |
| `AesProgram.AddRoundKey` | test/aes/aes-verilog/thirdparties/AES/src/AES.cpp:256-263 | adds the sixteen key bytes at the given offset |
| `AesBlocks.LoadState` | test/aes/aes-verilog/thirdparties/AES/src/AES.cpp:144-148 | state row i, column j is byte i + 4j of the block |
| `AesBlocks.StoreState` | test/aes/aes-verilog/thirdparties/AES/src/AES.cpp:163-167 | writes the state back to sixteen bytes of the output and touches no other |
| `AesBlocks.EncryptBlock` | test/aes/aes-verilog/thirdparties/AES/src/AES.cpp:139-168 | the block method computes the cipher of its input under any round-key buffer |
| `AesBlocks.DecryptBlock` | test/aes/aes-verilog/thirdparties/AES/src/AES.cpp:170-199 | the inverse method computes the inverse cipher |
| `AesKeys.RotWord` | test/aes/aes-verilog/thirdparties/AES/src/AES.cpp:272-278 | rotates the word buffer by one byte |
| `AesKeys.SubWord` | test/aes/aes-verilog/thirdparties/AES/src/AES.cpp:265-270 | substitutes the four bytes |
| `AesKeys.XorWords` | test/aes/aes-verilog/thirdparties/AES/src/AES.cpp:280-285 | adds two words, also when the result buffer is an operand |
| `AesKeys.Rcon` | test/aes/aes-verilog/thirdparties/AES/src/AES.cpp:287-296 | leaves the round constant, a power of x, in the first byte |
| `AesKeys.Mangle` | test/aes/aes-verilog/thirdparties/AES/src/AES.cpp:312-321 | the three cases of the loop body, the extra substitution for eight-word keys included |
| `AesKeys.KeyExpansion` | test/aes/aes-verilog/thirdparties/AES/src/AES.cpp:298-330 | fills the round-key buffer with the key schedule; for 4, 6 and 8 key words every word satisfies the recurrence of FIPS 197 |
| `AesStandard.RotatedWord` | test/aes/aes-verilog/thirdparties/AES/src/AES.cpp:315-319 | every Nk-th word adds the rotated, substituted previous word and a power of x to the word Nk places back |
| `AesStandard.SubstitutedOnly` | test/aes/aes-verilog/thirdparties/AES/src/AES.cpp:320-322 | with eight key words, the words in between at position 4 add the substituted previous word |
| `AesStandard.PlainWord` | test/aes/aes-verilog/thirdparties/AES/src/AES.cpp:324-328 | all other words add the previous word as it is |
| `AesStandard.ExpandedIsSchedule` | test/aes/aes-verilog/thirdparties/AES/src/AES.cpp:298-330 | the expanded key starts with the key and follows that recurrence, for the three key lengths and any number of rounds |
| `AesStandard.ScheduleUnique` | test/aes/aes-verilog/thirdparties/AES/src/AES.cpp:298-330 | and is the only buffer of its length that does |
| `AesModes.EcbRoundTrip` | test/aes/aes-verilog/thirdparties/AES/src/AES.cpp:20-48 | ECB recovers every whole-block text for any inverse pair of block functions |
| `AesModes.CbcRoundTrip` | test/aes/aes-verilog/thirdparties/AES/src/AES.cpp:50-88 | CBC recovers every whole-block text under every IV |
| `AesModes.CfbRoundTrip` | test/aes/aes-verilog/thirdparties/AES/src/AES.cpp:90-130 | CFB does so for any block function at all |
| `AesModes.EcbBlock` | test/aes/aes-verilog/thirdparties/AES/src/AES.cpp:20-48 | block i of an ECB result is the block function of block i alone |
| `AesModes.CbcEncryptBlock` | test/aes/aes-verilog/thirdparties/AES/src/AES.cpp:50-68 | block i of a CBC ciphertext encrypts the sum of block i and the ciphertext block before it, or the IV for the first |
| `AesModes.CbcDecryptBlock` | test/aes/aes-verilog/thirdparties/AES/src/AES.cpp:70-88 | block i of a CBC plaintext is the decrypted block i plus the ciphertext block before it, or the IV for the first |
| `AesModes.CfbEncryptBlock` | test/aes/aes-verilog/thirdparties/AES/src/AES.cpp:90-109 | block i of a CFB ciphertext is block i plus the encryption of the ciphertext block before it, or of the IV for the first |
| `AesModes.CfbDecryptBlock` | test/aes/aes-verilog/thirdparties/AES/src/AES.cpp:111-130 | block i of a CFB plaintext is the same sum, from the ciphertext |
| `AesClass.XorBlocks` | test/aes/aes-verilog/thirdparties/AES/src/AES.cpp:369-374 | adds two windows of any length byte by byte into a third that may be one of them |
| `AesClass.AES.constructor` | test/aes/aes-verilog/thirdparties/AES/src/AES.cpp:3-18 | key words and rounds of the three key lengths: 32 times as many key bits as words, and six more rounds than words |
| `AesClass.Parameters` | test/aes/aes-verilog/thirdparties/AES/src/AES.cpp:3-18 | the same of the parameter tables |
| `AesClass.AES.EncryptECB` | test/aes/aes-verilog/thirdparties/AES/src/AES.cpp:20-33 | fails exactly on a length not divisible by 16, else ECB under the expanded key |
| `AesClass.AES.DecryptECB` | test/aes/aes-verilog/thirdparties/AES/src/AES.cpp:35-48 | the same for ECB decryption |
| `AesClass.AES.EncryptCBC` | test/aes/aes-verilog/thirdparties/AES/src/AES.cpp:50-68 | the same for CBC, chaining through the block buffer |
| `AesClass.AES.DecryptCBC` | test/aes/aes-verilog/thirdparties/AES/src/AES.cpp:70-88 | the same for CBC decryption |
| `AesClass.AES.EncryptCFB` | test/aes/aes-verilog/thirdparties/AES/src/AES.cpp:90-109 | the same for CFB |
| `AesClass.AES.DecryptCFB` | test/aes/aes-verilog/thirdparties/AES/src/AES.cpp:111-130 | the same for CFB decryption, which also encrypts |
| `AesClass.ModesRoundTrip` | test/aes/aes-verilog/thirdparties/AES/src/AES.cpp:20-130 | for every key length, key, IV and whole-block text the three modes decrypt what they encrypted |
| `AesNets.PackLanes` | test/aes/aes-verilog/encrypt/SubBytes.v:137-139 | vectors of whole bytes and byte sequences determine each other |
| `AesSbox.SboxCorrect` | test/aes/aes-verilog/encrypt/SubBytes.v:2-126 | the gate-level S-box equals the table for all 256 bytes |
| `AesSbox.InvSboxCorrect` | test/aes/aes-verilog/decrypt/inverseSubBytes.v:2-135 | the gate-level inverse S-box equals the inverse table |
| `AesCircuit.SubBytesAgrees` | test/aes/aes-verilog/encrypt/SubBytes.v:128-143 | sixteen S-box instances compute the byte substitution |
| `AesCircuit.InvSubBytesAgrees` | test/aes/aes-verilog/decrypt/inverseSubBytes.v:137-148 | likewise the inverse |
| `AesCircuit.ShiftRowsAgrees` | test/aes/aes-verilog/encrypt/ShiftRows.v:1-25 | the two bit reversals and the 128-wire permutation are the row rotation |
| `AesCircuit.InvShiftRowsAgrees` | test/aes/aes-verilog/decrypt/inverseShiftRows.v:2-33 | the byte permutation is the inverse row rotation |
| `AesCircuit.AddRoundKeyAgrees` | test/aes/aes-verilog/encrypt/AddRoundKey.v:1-12 | bitwise exclusive or of buses is addition of blocks |
| `AesColumns.XtimeModuleCorrect` | test/aes/aes-verilog/encrypt/MixColumns.v:1-23 | the multiplexed doubling is the multiplied one |
| `AesColumns.MixModuleCorrect` | test/aes/aes-verilog/encrypt/MixColumns.v:45-68 | the shared-sum form of a column equals the matrix row products |
| `AesColumns.MixColumnsAgrees` | test/aes/aes-verilog/encrypt/MixColumns.v:26-74 | the module is column mixing |
| `AesColumns.MultiplyLoop` | test/aes/aes-verilog/decrypt/inverseMixColumns.v:13-23 | the loop doubles n times |
| `AesColumns.Multiples` | test/aes/aes-verilog/decrypt/inverseMixColumns.v:33-79 | the four multiplier functions are multiplication by 0e, 0d, 0b and 09 |
| `AesColumns.InvMixModuleCorrect` | test/aes/aes-verilog/decrypt/inverseMixColumns.v:84-90 | the four row sums of a column equal the inverse matrix product |
| `AesKeyCircuit.PortColumnIs` | test/aes/aes-verilog/decrypt/inverseMixColumns.v:3-4 | through ports declared [0:127], loop index i carries column 3 - i |
| `AesKeyCircuit.InvMixColumnsAgrees` | test/aes/aes-verilog/decrypt/inverseMixColumns.v:2-95 | the module is inverse column mixing |
| `AesKeyCircuit.CoreAgrees` | test/aes/aes-verilog/encrypt/KeyExpansion.v:58-64 | rotation, the padded SubBytes instance and the round constant compute the mangled word |
| `AesKeyCircuit.KeyWiresAgree` | test/aes/aes-verilog/encrypt/KeyExpansion.v:43-64 | every word of the circuit's schedule is the byte-level schedule's word |
| `AesOneCycle.Aes1ccIsEncrypted` | test/aes/aes-verilog/encrypt/aes_1cc.v:37-79 | the ten-round wiring is the common round structure |
| `AesOneCycle.InvAes1ccIsDecrypted` | test/aes/aes-verilog/decrypt/inverse_aes_1cc.v:37-79 | likewise for the decryptor |
| `AesOneCycle.UnscrambleAgrees` | test/aes/aes-verilog/decrypt/inverse_aes_1cc.v:49-61 | shifting before substituting, as the decryptor does, equals substituting before shifting |
| `AesOneCycle.CircuitsAgree` | test/aes/aes-verilog/encrypt/aes_1cc.v:5-82 | for every key and block the encryptor's output is the C++ AES-128 key expansion and block encryption, and the decryptor's is block decryption |
| `AesOneCycle.DecryptorRecovers` | test/aes/aes-verilog/decrypt/inverse_aes_1cc.v:5-82 | for every 128-bit key and message the decryptor recovers what the encryptor was given |

## Left out

- The insides of TFHEpp, cuFHEpp and StarPU (bootstrapping, FFT, CUDA kernels, worker choice, memory transfers): they appear only as the hypotheses above.
- DFF state and clocking: the graph builder has no register-update step, and the D lookup range is mixed.
- Submission of `fa`, `ha`, `AOI3` and `OAI3` gates: commented out in the source; the model treats them as gates that submit nothing.
- Netlists.ParsedBC.AddCell: a cell type shorter than three characters is an error here; the source erases past its end.
- An NMUX claim for the accelerator path: it does not hold, and `Hoge.NegatedMuxDecides` says what does.
- Gate calls after shutdown: the once-flag is spent and the runtime is not started again, so runs end with the shutdown.
- A failing runtime start-up and the worker configuration in src/iyokan-starpu-codelets.cpp:87-117 and 479-492: environment plumbing.
- That the ciphertext CMUX and the MUX without sample extraction select: assumed in `RamMeaning.Selects` and in the contract of `RamMeaning.MuxWoSESelects`, as the multiplexer is in `EndToEnd.Muxes`; noise growth in CMUX trees is not followed.
- BackendSync.CapturedRefinesSynchronous: compares the accepted calls; which submissions the runtime accepts is a parameter of a run.
- Backend.Controller.AwaitCapture: the wait's second half, acquiring the output, is not part of the method; what the thread then reads is `BackendProgress.ResumedReadsResult`, and with two copies `BackendCoherence.WaitReadsResult`.
- Backend.Controller.Shutdown: the wait for all tasks is the guard of the Shutdown event in `BackendRuns`, not part of the method, which cannot run tasks itself.
- Data across a shutdown: it unregisters without fetching device copies (src/iyokan-starpu-codelets.cpp:503-506), so runs over two memories in `BackendCoherence` end before it.
- BackendCoherence.BackendRunsOnNodes: leaves waits out of the runs it lifts, because the acquisition that ends a wait also waits for later writers of the output, which the one-memory machine does not.
- JSON text, cereal archives, file I/O, timing and console output, OpenCL setup, the vector wrappers and hex printing of the AES class, and the benchmark netlists.
