# A verified model of the interpreter

The interpreter runs an effectful language on explicit continuations, and drives concurrent
tasks from one coordinator. This project models its hardest parts in Dafny and proves what
they are for. It reads from the bottom up in seven groups.

1. **Effect handlers.** `Continuations` has the continuation tree and its searches.
   `HandlerMachine` is the evaluation machine as a step function in which the frames that only
   compute are left open, so that one machine stands for every program. `HandlerMirror` and
   `HandlerRuns` prove that the mutable handler stack mirrors the live boundaries hidden in the
   continuation, at every step and over every run. `HandlerLeak` is the one program shape for
   which it does not. `Forwarding` proves that forwarding an unmatched action and resuming it
   is a round trip, and `ExitRuns` that values, returns, resumes and finishes arrive as they
   were sent. `PerformLoop` has the task state and the work-stack loop in place.
   `CallPolicies` has limits around calls. `PolicyPlans` says under which policy each frame
   still to be run will be entered, `PolicyRuns` proves exactly which steps and runs keep that,
   and `PolicyLoss` has programs that do not. `ResumeCounters` has identities after a restore.
2. **Suspension.** `Language` and `DirectEval` are a language of expressions, statements and
   bounded loops with its direct evaluator. `SuspendEval` is the evaluate, save, resume machine,
   where at every subexpression the host decides whether it suspends. `ContainedCode` and
   `Transparency` prove that the machine stops and computes the direct result. `LoopRounds` and
   `LanguageLaws` say what programs observe: rounds, order, lists and patterns. `SuspendLoops`
   has the resume functions as loops.
3. **Typed host decoding.** `HostTypes`, `HostDecode`, `HostScoping`, `HostRoundTrip` and
   `HostJson`: lazy environments against eager substitution, soundness of decoded values,
   encode/decode, and JSON documents.
4. **Frames.** `Frames` has the shared storage and its methods, `FrameRuns` whole runs through
   aliases and across a checkpoint.
5. **Nested assignment.** `NestedAssign`: preflight, in-place commit and the lens laws.
6. **Constants.** `ConstEval`: the cycle check against big-step derivations.
7. **Coordinator and calls.** `Coordinator` is the step system of tasks, CPU jobs and host
   operations, `CheckpointBarrier` the loops that take a checkpoint. `ComposedCalls` and
   `Comparators` cover composed callables and the purity check of comparison callables.

## Where the code does not do what one might expect

- A `break` or `continue` that leaves a `handle` inside a loop passes the boundary without
  closing it (`crates/etas_interpreter/src/eval/continuation.rs:382-407`). The scope stays on
  the handler stack. The mirror is proved to hold exactly when this does not happen.
- A `break` or `continue` in a loop's own condition or iterable means something else when the
  condition is suspended than when it is evaluated on the spot. Since the evaluator always
  suspends, the model's direct evaluator ends that loop on a break. For hosts that do not
  always suspend, the results ask that loop conditions contain their breaks.
- The checkpoint barrier asserts that a task with a finished host result is ready
  (`crates/etas_interpreter/src/driver/scheduler/mod.rs:479-491`). A task that was woken and
  then cancelled by its group's policy is not, and its result is still in the reactor.
- A host layout that mentions a parameter it does not declare picks up the caller's binding,
  and so does a generic nominal left unapplied. On a single name, chain search and
  substitution agree exactly when the innermost frame binds the name or no frame does.
- A typed error that ends part of the way out, at a `try` that captures it or a handler with
  an arm for it, leaves later policy restorations whole, unlike one that is still travelling.
- A limited call whose continuation is thrown away does not give its caller's policy back: an
  arm that finishes, returns, breaks or continues drops the restoration saved at the perform
  (`crates/etas_interpreter/src/eval/continuation.rs:322-355`). What the caller does next runs
  under the policy of the call, also when an outer limited call restores its own later.
- A typed error opens a policy restoration before it acts
  (`crates/etas_interpreter/src/eval/continuation.rs:51-60`). When a `try` inside captures the
  error, what follows that `try` runs under the policy of the call. `PolicyRuns` has the exact
  condition for every step, `PolicyLoss` the runs.

## Model

| member | source | states |
|---|---|---|
| Continuations.VisitStackOrder | crates/etas_interpreter/src/eval/machine/step.rs:743-762 | flattening a continuation tree by a scratch stack yields its leaves outermost first, the order in which frames go onto the machine stack |
| Continuations.HandlerScopeOccurrences | crates/etas_interpreter/src/control/continuation.rs:371-398 | the worklist counts every boundary of a scope in a continuation tree, live or saved for re-entry |
| HandlerMirror.PerformAtBoundary | crates/etas_interpreter/src/eval/handler.rs:617-769 | at a live boundary the scope on top of the handler stack is that boundary's; a match runs the arm under it, anything else pops exactly that scope and saves the boundary for re-entry, and no duplicate-owner fault is possible |
| HandlerMirror.PropagateKeeps | crates/etas_interpreter/src/eval/continuation.rs:20-117 | a perform travelling through any continuation tree keeps the handler stack a mirror of the boundaries still in front |
| HandlerRuns.CloseKeeps | crates/etas_interpreter/src/eval/handler.rs:853-887 | closing the front boundary never faults and pops exactly its scope |
| HandlerRuns.ReenterKeeps | crates/etas_interpreter/src/eval/handler.rs:771-806 | re-entering a saved boundary pushes its scope back, never out of order |
| HandlerRuns.OpenKeeps | crates/etas_interpreter/src/eval/handler.rs:199-240 | a handle opens a scope with a fresh, larger identity under a new boundary |
| HandlerRuns.ValueKeeps | crates/etas_interpreter/src/eval/continuation.rs:428-1045 | every frame that receives a value keeps the mirror and raises no handler-stack fault |
| HandlerRuns.ExitKeeps | crates/etas_interpreter/src/eval/continuation.rs:198-363 | return, resume and finish keep the mirror through every frame; so do break and continue through every frame that is not a boundary |
| HandlerRuns.StepKeepsMirrorExactly | crates/etas_interpreter/src/eval/continuation.rs:382-407 | one machine step keeps the mirror if and only if it does not let a break or continue pass a boundary |
| HandlerRuns.RunKeepsExactly | crates/etas_interpreter/src/eval/machine/step.rs:176-694 | every state of a run mirrors if and only if no break or continue of the run passes a boundary |
| HandlerRuns.ReachableStates | crates/etas_interpreter/src/eval/handler.rs:199-337 | in every reachable state the handler stack is the live boundaries outermost first, strictly increasing, each scope occurs at most once, the stack-empty, mismatch, re-entry-order, missing-boundary, duplicate-owner and lexical-owner faults never occur, and a finished program leaves no scope open |
| HandlerLeak.BreakLeavesScopeOpen | crates/etas_interpreter/src/eval/continuation.rs:382-407 | a loop whose body opens a handler and breaks inside it ends normally with the scope still on the stack |
| Forwarding.Deliver | crates/etas_interpreter/src/eval/handler.rs:741-769 | an action reaches the innermost scope that has an arm for its very symbol, no scope inside having one; exactly the scopes inside are popped, and everything crossed is saved for resumption |
| Forwarding.ResumeRestores | crates/etas_interpreter/src/eval/handler.rs:741-851 | forwarding is a round trip at any nesting depth and for any run of the arm: once a resume reaches the handler the action was delivered to, the value reaches the frames it was performed in, in the same order, and the handler stack holds exactly the scopes of those frames |
| Forwarding.HandlersAsPerformed | crates/etas_interpreter/src/eval/handler.rs:771-806 | unless a saved re-entry still stands in front of the performing frames, the handler stack after resuming is the one at the perform |
| Forwarding.ResumeAtOnceRestores | crates/etas_interpreter/src/eval/handler.rs:741-851 | such a run exists for every handled action: deliver it, resume at once |
| ExitRuns.ReturnReachesCaller | crates/etas_interpreter/src/eval/machine/step.rs:381-415 | from anywhere inside a call a return reaches the caller: through every frame, handler and policy the call had opened, its value goes to the caller's continuation over the frames the caller left |
| ExitRuns.ValuesKept | crates/etas_interpreter/src/eval/continuation.rs:198-363 | no step changes a value, return, resume or finish on its way except by giving the value to the program's code |
| ExitRuns.FramePasses | crates/etas_interpreter/src/eval/continuation.rs:198-363 | a return becomes a value at a call boundary, a resume at the arm's saved continuation, a finish at the handler, and no other frame stops or changes one |
| ExitRuns.UnhandledIsAnswered | crates/etas_interpreter/src/eval/machine/step.rs:417-500 | an action that no open scope has an arm for goes to the outside, and the answer to the continuation that performed it |
| PerformLoop.PropagateIsFold | crates/etas_interpreter/src/eval/continuation.rs:20-117 | for every tree, request and task state propagating is a left fold of the one-frame step over the frames met: chain inner before outer, boundary inner before the boundary, and policy restorations opened exactly as long as a typed error is travelling, which ends at the first capturing try or matching handler |
| PerformLoop.OpenedExactly | crates/etas_interpreter/src/eval/continuation.rs:51-60 | a typed error meets every policy restoration opened if and only if no restoration with something inside comes after the frame that ends the error |
| PerformLoop.CapturedErrorKeepsRestoreWhole | crates/etas_interpreter/src/eval/continuation.rs:51-60 | a concrete such tree: after a try has caught the error, a later policy restoration is passed whole |
| PerformLoop.EvalTask.ApplyPerformToContinuation | crates/etas_interpreter/src/eval/continuation.rs:20-117 | the work-stack loop terminates and computes that propagation, changing only the handler stack and the model policy |
| PerformLoop.EvalTask.CloseHandlerScope | crates/etas_interpreter/src/eval/handler.rs:853-887 | pops the top scope when it is the expected one, else faults and changes nothing |
| PerformLoop.EvalTask.OpenHandlerScope | crates/etas_interpreter/src/eval/handler.rs:199-240 | pushes a scope with the next identity and advances the counter |
| PerformLoop.EvalTask.ReenterHandler | crates/etas_interpreter/src/eval/handler.rs:771-806 | pushes the saved scope back or faults, as the step function says |
| PerformLoop.EvalTask.SuspendHandlerForPerform | crates/etas_interpreter/src/eval/handler.rs:741-769 | closes the scope and leaves the boundary to be re-entered |
| PerformLoop.EvalTask.ContinueHandleSignal | crates/etas_interpreter/src/eval/handler.rs:617-739 | a signal at a boundary is dispatched, wrapped again, or ends the scope |
| PerformLoop.EvalTask.DispatchHandler | crates/etas_interpreter/src/eval/handler.rs:367-384 | an arm is found if and only if one is for the resolved symbol of the action, or for the type of the raised error |
| Continuations.ScopeMatchesExactly | crates/etas_interpreter/src/eval/handler.rs:1141-1144 | a scope matches a request if and only if one of its arms names the very action symbol, or the very error type |
| CallPolicies.CallTask.PrepareCallTarget | crates/etas_interpreter/src/eval/call.rs:640-668 | nested limits act as one list applied outermost first, a limit that does not fit leaves the policy alone, and the caller's policy is saved around the continuation exactly when there were limits |
| CallPolicies.LayersInOrder | crates/etas_interpreter/src/eval/call.rs:640-668 | layers of limits are applied outermost first, every limit once, and fit if and only if each fits the policy the ones before it left |
| PolicyRuns.StepPlansExactly | crates/etas_interpreter/src/eval/continuation.rs:198-407 | the same frames survive a machine step, and each will be entered under the model policy it would have been entered under before it, those of a policy scope under the scope's, if and only if the step throws no restoration away that differs from the policy in force, or no frame runs before the next restoration anyway; values, exits, performs, typed errors and pops |
| PolicyRuns.StepEntersExactly | crates/etas_interpreter/src/eval/continuation.rs:198-407 | counting restorations as frames, every suffix of what the step leaves to be run keeps its entry policy if and only if the thrown-away restoration is none or equals the policy in force, whatever stands further out |
| PolicyPlans.CrossedExactly | crates/etas_interpreter/src/eval/continuation.rs:51-83 | for a typed error, whatever it crosses: the frames behind its end get the policy they are due if and only if it carries no restoration, or one in force already, or a try ends it and the outermost restoration crossed has acted, or a handler ends it and the outermost one is carried |
| PolicyRuns.LeavingArm | crates/etas_interpreter/src/eval/continuation.rs:198-363 | leaving a handler arm by finish, return, break or continue leaves the arm's policy in force; the frames outside run as planned if and only if the continuation saved at the perform restores none or that very policy, or no frame runs before the next restoration |
| PolicyRuns.RunPlansExactly | crates/etas_interpreter/src/eval/machine/step.rs:176-694 | every part of a run goes as planned, no surviving frame being entered under a policy other than its own, if and only if every step of the run meets that condition |
| PolicyRuns.LimitedCallPlans | crates/etas_interpreter/src/eval/call.rs:640-668 | a limited call narrows the policy and leaves every frame of its caller planned as before |
| PolicyRuns.EnteredAsPlanned | crates/etas_interpreter/src/eval/call.rs:640-668 | after limited calls with any nesting of limits the caller's continuation runs under the caller's policy: a value that reaches a frame that was there before enters it under the policy planned for it then |
| PolicyRuns.DoneRestores | crates/etas_interpreter/src/eval/call.rs:640-668 | such a program ends under the policy it started with, however many limited calls it made and however they were left |
| PolicyLoss.LimitOutlivesCall | crates/etas_interpreter/src/eval/continuation.rs:322-355 | a limited call performs an action whose arm finishes: the program ends normally and the call's policy stays in force |
| PolicyLoss.LimitOutlivesNestedCall | crates/etas_interpreter/src/eval/continuation.rs:322-355 | the same inside an outer limited call: a frame pushed under policy 1 is entered under 9 although a restoration to 2 stands further out |
| PolicyLoss.CaughtUnderLimit | crates/etas_interpreter/src/eval/continuation.rs:51-60 | an error raised in a limited call and caught by a try in the continuation it wraps: what follows the try runs under the policy of the call, and only then does the restoration act |
| ResumeCounters.HandlerScopeIds | crates/etas_interpreter/src/orchestration/suspension.rs:114-153 | the search finds exactly the scope identities that occur in the saved continuations |
| ResumeCounters.Restore | crates/etas_interpreter/src/eval/checkpoint.rs:13-66 | after a restore the next identity is above every identity in the restored handler stack and continuations and the machine invariant holds, so identities go on increasing |
| Language.OrderedExactly | crates/etas_interpreter/src/eval/call.rs:173-190 | with distinct slots, method arguments are accepted exactly when they fill every parameter, and each value lands in the slot of its position |
| Language.FillSlots | crates/etas_interpreter/src/eval/call.rs:173-190 | the receiver and argument loops compute that order |
| SuspendLoops.ResumeExprSequence | crates/etas_interpreter/src/eval/aggregate_expr.rs:427-493 | the element loop, from any start index and values, computes its specification; the same shape serves performs and calls |
| SuspendLoops.ResumeRecordFields | crates/etas_interpreter/src/eval/aggregate_expr.rs:208-294 | so does the record field loop with its shorthand fields |
| SuspendLoops.ResumeMapEntries | crates/etas_interpreter/src/eval/aggregate_expr.rs:300-349 | so does the map loop, which may suspend at a key or at a value |
| SuspendLoops.ExecuteMatchArms | crates/etas_interpreter/src/eval/branch.rs:210-232 | the arm loop runs the first arm whose pattern fits and faults without one |
| SuspendLoops.ContinueWhileLoop | crates/etas_interpreter/src/eval/loop_control.rs:302-395 | the counted while loop saves its iteration before it suspends; a saved iteration is below the limit |
| SuspendLoops.ContinueForLoop | crates/etas_interpreter/src/eval/loop_control.rs:112-207 | the for loop saves the index of the next element |
| Transparency.ListedCompute | crates/etas_interpreter/src/eval/aggregate_expr.rs:427-493 | aggregates, performs and call arguments, resumed anywhere, land on the direct evaluator's result |
| Transparency.FieldsCompute | crates/etas_interpreter/src/eval/aggregate_expr.rs:208-294 | record construction resumed at any field lands on the direct result |
| Transparency.EntriesCompute | crates/etas_interpreter/src/eval/aggregate_expr.rs:300-400 | map construction resumed at any key or value lands on the direct result |
| Transparency.ConsComputes | crates/etas_interpreter/src/eval/aggregate_expr.rs:20-75 | list cons lands on the direct result wherever head or tail suspends |
| Transparency.RangeComputes | crates/etas_interpreter/src/eval/aggregate_expr.rs:77-133 | so does a range |
| Transparency.IfComputes | crates/etas_interpreter/src/eval/branch.rs:5-107 | an if expression takes the branch the direct evaluator takes |
| Transparency.IfStmtComputes | crates/etas_interpreter/src/eval/branch.rs:119-166 | an if statement and the rest of its block land on the direct result |
| Transparency.MatchStmtComputes | crates/etas_interpreter/src/eval/branch.rs:168-208 | a match statement and the rest of its block land on the direct result |
| Transparency.WhileComputes | crates/etas_interpreter/src/eval/loop_control.rs:302-460 | a bounded while loop, suspended in its condition or its body, is the simple counted loop |
| Transparency.ForComputes | crates/etas_interpreter/src/eval/loop_control.rs:112-207 | a bounded for loop is the simple counted loop over its elements |
| Transparency.BlockIsTransparent | crates/etas_interpreter/src/eval/continuation.rs:428-900 | for every choice of which subexpressions suspend, the machine stops and stops only with the direct evaluator's outcome, variables and requests in order |
| Transparency.CutsDoNotMatter | crates/etas_interpreter/src/eval/continuation.rs:428-900 | two hosts that answer alike but suspend differently give the same outcome, variables and request order |
| LoopRounds.ForRunsBody | crates/etas_interpreter/src/eval/loop_control.rs:112-207 | a for loop over an array or list runs its body over the first max(1, limit) elements in order, or over all if there are fewer, until the body leaves |
| LoopRounds.WhileRunsBody | crates/etas_interpreter/src/eval/loop_control.rs:302-395 | a while loop makes whole rounds until one does not go on, at most max(1, limit), and exactly that many while its condition stays true and its body goes on |
| LoopRounds.ForAsksInOrder | crates/etas_interpreter/src/eval/loop_control.rs:490-507 | on the machine, whatever is suspended, a loop that asks about its variable asks about exactly those elements, in order |
| LoopRounds.WhileAsksExactly | crates/etas_interpreter/src/eval/loop_control.rs:490-507 | on the machine a while loop whose condition stays true asks exactly max(1, limit) times |
| LanguageLaws.AggregateInOrder | crates/etas_interpreter/src/eval/aggregate_expr.rs:427-493 | an aggregate holds the values of its elements, evaluated left to right, in that order |
| LanguageLaws.PerformInOrder | crates/etas_interpreter/src/eval/aggregate_expr.rs:427-493 | a perform evaluates its arguments left to right and then makes exactly one request, of its own action with those arguments, whose answer is its value |
| LanguageLaws.MethodCallInOrder | crates/etas_interpreter/src/eval/call.rs:173-190 | a method call asks its own target with the values in their parameter slots, or faults after evaluating them |
| LanguageLaws.ConsInFront | crates/etas_interpreter/src/eval/aggregate_expr.rs:20-75 | cons puts its head before the elements of its tail, which must be a list |
| LanguageLaws.MatchPicksFirst | crates/etas_interpreter/src/eval/branch.rs:210-232 | a match runs the first arm that fits with its name bound; a literal pattern fits only its own value, and without a fit the match faults |
| Transparency.BreakInConditionDiffers | crates/etas_interpreter/src/eval/loop_control.rs:302-352 | a break inside a loop condition escapes the loop when evaluated on the spot and ends the loop when suspended |
| HostTypes.FindBinding | crates/etas_interpreter/src/eval/host_type_environment.rs:57-68 | the loop up the chain finds the nearest binding together with the scope its argument was written in |
| HostTypes.FindConcreteType | crates/etas_interpreter/src/eval/host_type_environment.rs:33-48 | the recursion that fills a binding map computes the type with all arguments put in, or fails exactly when a type would have to be invented |
| HostScoping.FrameSigma | crates/etas_interpreter/src/eval/host_type_environment.rs:49-56 | entering a body in a new frame puts in the same arguments as substituting them first, also for a repeated parameter name |
| HostScoping.Agree | crates/etas_interpreter/src/eval/host_value.rs:106-348 | decoding in a chained environment gives the value, nominal tags or error that eager substitution gives, for every nesting of generic nominals and enums with closed layouts and every type whose parameters the innermost frame binds or no frame does |
| HostScoping.RootAgrees | crates/etas_interpreter/src/eval/host_value.rs:65-83 | decoding from the root needs no environment at all |
| HostScoping.ScopeIrrelevant | crates/etas_interpreter/src/eval/host_value.rs:106-300 | decoding in a scope equals decoding the substituted type at the root |
| HostScoping.DecodeMoreFuel | crates/etas_interpreter/src/eval/host_value.rs:106-300 | a finished answer does not depend on the unfolding bound |
| HostScoping.NameAgreesExactly | crates/etas_interpreter/src/eval/host_type_environment.rs:57-68 | in every scope, open types included: searching the chain for a name decodes as its nearest binding says, and a decoded value is the one substitution gives if and only if the innermost frame binds the name |
| HostScoping.LookupAgreesExactly | crates/etas_interpreter/src/eval/host_type_environment.rs:33-68 | chain search and substitution give a name the same type if and only if the innermost frame binds it or no frame does, up to a parameter that stands for itself |
| HostScoping.OpenLayoutsDisagree | crates/etas_interpreter/src/eval/host_type_environment.rs:57-68 | a concrete open layout: the lazy lookup finds a caller's parameter that substitution does not |
| HostScoping.UnappliedAgreesExactly | crates/etas_interpreter/src/eval/host_value.rs:106-348 | a decoded value of a generic nominal left unapplied is the one substitution gives if and only if decoding its body meets no parameter that the caller's scope binds |
| HostScoping.UnappliedGenericsDisagree | crates/etas_interpreter/src/eval/host_value.rs:106-348 | a concrete generic nominal left unapplied: its body keeps the caller's scope and picks up the caller's argument |
| HostRoundTrip.Sound | crates/etas_interpreter/src/eval/host_value.rs:106-393 | a decoded value has exactly the requested type, with a nominal wrapper exactly at each declaration |
| HostRoundTrip.RecordExactly | crates/etas_interpreter/src/eval/host_value/record.rs:5-48 | a host record yields all its components, in declaration order, exactly when it names each declared field once and nothing else, in any order; each component is the value given under that name |
| HostRoundTrip.RoundTrip | crates/etas_interpreter/src/eval/host_value/projection.rs:16-85 | a typed value that can be encoded is decoded again from its own encoding, at every numeric width |
| HostRoundTrip.DecodeIsStable | crates/etas_interpreter/src/eval/host_value.rs:106-393 | what is decoded has its type, and encoding and decoding it again gives the same value |
| HostJson.JsonRoundTrip | crates/etas_interpreter/src/eval/host_value.rs:444-466 | a typed value rendered as JSON, by a rendering that knows nothing of the decoder, is decoded to that value: array elements keep their positions and record fields their names |
| HostJson.HostIntegers | crates/etas_interpreter/src/eval/host_value.rs:490-560 | a host integer decodes at an integer type if and only if the type holds it; an unsigned one at unsigned types only |
| HostJson.ListFailsAt | crates/etas_interpreter/src/eval/host_value.rs:468-488 | a list whose i-th element is the first that does not decode fails with that element's error, located at i |
| HostJson.RecordRefusals | crates/etas_interpreter/src/eval/host_value/record.rs:5-48 | a record reports a repeated field before an unknown one and an unknown one before a missing one, and each name it reports is wrong in that way |
| Frames.LayoutOf | crates/etas_interpreter/src/plan/slots.rs:34-46 | a slot layout is the sorted, deduplicated symbols |
| Frames.WriteSlot | crates/etas_interpreter/src/control/frame.rs:303-340 | writing one slot changes one entry of the map the frame stands for |
| Frames.AddSlot | crates/etas_interpreter/src/control/frame.rs:507-527 | adding a slot keeps slots distinct and in range and changes no binding |
| Frames.Frame.Get | crates/etas_interpreter/src/control/frame.rs:293-301 | reads the map, whether dense or restored |
| Frames.Frame.Insert | crates/etas_interpreter/src/control/frame.rs:303-319 | binds a symbol and keeps the cached scope exact |
| Frames.Frame.Set | crates/etas_interpreter/src/control/frame.rs:321-340 | assigns exactly the bound symbols |
| Frames.Frame.WithLocalMut | crates/etas_interpreter/src/control/frame.rs:342-353 | updates a bound symbol in place and reports whether there was one |
| Frames.Frame.ScopeSymbols | crates/etas_interpreter/src/control/frame.rs:373-381 | returns the bound symbols, from the cache when present |
| Frames.Frame.CleanupTo | crates/etas_interpreter/src/control/frame.rs:383-418 | keeps exactly the bindings in the given scope; the identity shortcut agrees with the sweep |
| Frames.Frame.Sweep | crates/etas_interpreter/src/control/frame.rs:393-418 | the sweep over layout, added slots and restored locals restricts the map and drops the cache exactly when something was removed |
| Frames.Frame.InstallScopeLayout | crates/etas_interpreter/src/control/frame.rs:507-527 | gives every missing symbol of a dense frame its own slot and changes no binding |
| Frames.Frame.Capture | crates/etas_interpreter/src/control/frame.rs:178-196 | captures exactly the named bindings, or names the first symbol without a slot or a value |
| Frames.Frame.FromSnapshot | crates/etas_interpreter/src/control/frame.rs:198-220 | rebuilds the map from distinct locals and refuses duplicates |
| Frames.Frame.SortedLocals | crates/etas_interpreter/src/control/frame.rs:420-436 | lists the map in symbol order |
| FrameRuns.RunThrough | crates/etas_interpreter/src/control/frame.rs:293-436 | any sequence of operations through any aliases observes one finite map; a live frame binds symbols slotted at the start or by an earlier layout of the run |
| FrameRuns.RestoreIsInvisible | crates/etas_interpreter/src/control/frame.rs:198-220 | a live frame and the frame rebuilt from its sorted locals give the same observations under any operations |
| NestedAssign.ValidatePath | crates/etas_interpreter/src/eval/assign_nested/validate.rs:3-83 | the walk over borrowed values reports the first segment that does not fit |
| NestedAssign.ValidExactly | crates/etas_interpreter/src/eval/assign_nested/validate.rs:3-83 | a path is valid exactly when it reads something or its last segment inserts into a map that its prefix reads |
| NestedAssign.Commit | crates/etas_interpreter/src/eval/assign_nested.rs:7-45 | the cursor loop computes the recursive functional update of a valid path, gives the preflight's fault otherwise, and never the invalidated fault |
| NestedAssign.LocalSlot.AssignResolvedLocalPlace | crates/etas_interpreter/src/eval/assign.rs:36-58 | all or nothing on the local slot |
| NestedAssign.PutGet | crates/etas_interpreter/src/eval/assign_nested.rs:7-45 | what was written is read back, also after an insertion |
| NestedAssign.GetPut | crates/etas_interpreter/src/eval/assign_nested.rs:7-45 | writing back what is there changes nothing |
| NestedAssign.PutPut | crates/etas_interpreter/src/eval/assign_nested.rs:7-45 | the last write wins |
| NestedAssign.PutElsewhere | crates/etas_interpreter/src/eval/assign_nested.rs:7-45 | a write leaves every place on a diverging path alone |
| NestedAssign.PutsCommute | crates/etas_interpreter/src/eval/assign_nested.rs:7-45 | writes to diverging existing places commute |
| NestedAssign.InsertionsDoNotCommute | crates/etas_interpreter/src/value/map.rs:71-96 | two insertions of new keys do not, because keys are appended |
| NestedAssign.InsertedLast | crates/etas_interpreter/src/value/map.rs:71-96 | assigning a new map key, however deep, adds one entry at the end and leaves the others in place; assigning a present key changes its entry in place |
| NestedAssign.FaultOfFirstMisfit | crates/etas_interpreter/src/eval/assign_nested/validate.rs:3-83 | a path is rejected with the fault of its first segment that does not fit the value the segments before it lead to |
| NestedAssign.PutKeepsTags | crates/etas_interpreter/src/eval/assign_nested.rs:18-21 | every nominal wrapper on the way is kept |
| ConstEval.EvaluatesExactly | crates/etas_interpreter/src/eval/const_expr.rs:370-523 | a constant evaluates to a value or ordinary fault under the cycle check exactly when a finite derivation gives it |
| ConstEval.CyclicExactly | crates/etas_interpreter/src/eval/const_expr.rs:154-279 | the cycle fault is reported exactly when there is no finite derivation |
| ConstEval.Accepted | crates/etas_interpreter/src/eval/const_expr.rs:154-279 | the check never rejects a derivation, whatever symbols are being visited, as long as none of them has one |
| ConstEval.ConstructsGive | crates/etas_interpreter/src/eval/const_expr.rs:370-523 | sequences, maps, records and ranges hold the values of their operands in order |
| ConstEval.LogicTables | crates/etas_interpreter/src/eval/const_expr.rs:670-702 | the truth tables of and and or: the right side counts only when the left does not decide, and both must be booleans |
| ConstEval.Evaluator.EvalGlobalSymbol | crates/etas_interpreter/src/eval/const_expr.rs:154-279 | computes that evaluation, terminates, and leaves the visiting set as it was on success and on error |
| ConstEval.Evaluator.EvalConstExpr | crates/etas_interpreter/src/eval/const_expr.rs:370-523 | operands left to right, first fault first, visiting set unchanged |
| ConstEval.Evaluator.EvalLogical | crates/etas_interpreter/src/eval/const_expr.rs:670-702 | and and or stop early and demand booleans |
| Coordinator.StartCpuKeeps | crates/etas_interpreter/src/driver/task.rs:486-545 | handing a task's CPU work over, being refused, or finding no room keeps all the books |
| Coordinator.RefusedForever | crates/etas_interpreter/src/driver/task.rs:500-511 | a refused submission requeues the task without its CPU work, uses up a dispatch number and registers no job, and over every later run the task never owns a job again |
| Coordinator.FinishJobKeeps | crates/etas_interpreter/src/driver/task.rs:1168-1275 | a completion removes its job once and settles its task unless it has already settled |
| Coordinator.CompletedAsReported | crates/etas_interpreter/src/driver/task.rs:1228-1263 | every task that waits on a job of a batch settles as that job's completion says, unless an earlier completion of the batch cancels it |
| Coordinator.FinishJobExactly | crates/etas_interpreter/src/driver/task.rs:1192-1275 | one completion settles its waiting task in the reported way, cancels exactly the named tasks that are neither settled, running nor waiting on the host, and changes no other task |
| Coordinator.SettleKeeps | crates/etas_interpreter/src/driver/task.rs:1313-1371 | ending a task and cancelling its group keeps all the books; nothing settles twice |
| Coordinator.SettleExactly | crates/etas_interpreter/src/driver/task.rs:1313-1371 | a task that ends settles in the way it ended; of the tasks its group cancels exactly those not settled, running or waiting on the host settle as cancelled, and no other changes |
| Coordinator.CancelOneKeeps | crates/etas_interpreter/src/driver/scheduler/mod.rs:862-887 | cancelling leaves a task with a host operation in flight alone and settles any other that does not run |
| Coordinator.HostDoneKeeps | crates/etas_interpreter/src/driver/scheduler/host.rs:202-230 | a finished host operation always finds its own waiting task, which becomes ready |
| Coordinator.ScanKeeps | crates/etas_interpreter/src/driver/scheduler/mod.rs:426-465 | the admission pass keeps every ready task queued once |
| Coordinator.ScanExactly | crates/etas_interpreter/src/driver/scheduler/mod.rs:426-465 | the pass starts the first admissible ready task; entries before it go to the back in order unless stale, which drops them, and the others stay in front |
| Coordinator.QueueGrowsAtBack | crates/etas_interpreter/src/driver/scheduler/mod.rs:426-465 | apart from the dispatching pass an event leaves the ready queue as it is or adds one task at its end |
| Coordinator.StepKeeps | crates/etas_interpreter/src/driver/task.rs:363-545 | every coordinator event keeps all the books, closing and opening the checkpoint gate and committing a result behind it included |
| Coordinator.Reachable | crates/etas_interpreter/src/driver/task.rs:1168-1275 | over every run, with checkpoints anywhere in it: jobs in flight stay within capacity, each belongs to a task waiting on it or already settled, each submitted job is in flight or was removed, and removed exactly once, no task settles twice, dispatch numbers strictly increase and completion numbers are consecutive |
| Coordinator.Driver.StartReady | crates/etas_interpreter/src/driver/scheduler/mod.rs:426-465 | the queue loop starts the first admissible ready task, drops stale entries, keeps the rest in order, and does nothing while a checkpoint is taken |
| Coordinator.Driver.DriveCpu | crates/etas_interpreter/src/driver/task.rs:478-545 | hands the work over exactly when there is room and the executor accepts, and then the task waits on that very job |
| Coordinator.Driver.FinishTask | crates/etas_interpreter/src/driver/task.rs:1313-1371 | settles the running task and cancels its group one by one, keeping all the books |
| CheckpointBarrier.Checkpointer.DrainCpuCompletions | crates/etas_interpreter/src/driver/task.rs:1168-1190 | completions are handled in job order up to the first unknown job, and every task ends as its completion, or a cancellation by an earlier one, says |
| CheckpointBarrier.Checkpointer.CommitTasks | crates/etas_interpreter/src/driver/checkpoint.rs:70-94 | results are handed to their owners in task order, each once, until one fails or an owner is not ready |
| CheckpointBarrier.CommittingExactly | crates/etas_interpreter/src/driver/scheduler/mod.rs:479-491 | the readiness assertion fails if and only if the first result that cannot be committed belongs to a task that is not ready, and a commit failure ends the loop if and only if that first result fails to commit |
| CheckpointBarrier.Checkpointer.Drain | crates/etas_interpreter/src/driver/checkpoint.rs:52-99 | the drain loop dispatches nothing, computes its turn-by-turn specification, and succeeds only with no CPU job, no host operation and no uncommitted result left |
| CheckpointBarrier.PanicsExactly | crates/etas_interpreter/src/driver/checkpoint.rs:52-99 | the loop fails its assertion if and only if some turn it reaches drains into a state whose first uncommittable result belongs to a task that is not ready |
| CheckpointBarrier.RootCommitsOnce | crates/etas_interpreter/src/driver/checkpoint.rs:59-67 | the root's host operation is committed at most once, and exactly once by the time the barrier is entered if there was one |
| CheckpointBarrier.Checkpointer.Enter | crates/etas_interpreter/src/driver/checkpoint.rs:12-23 | success leaves the gate closed with every task's result and the root's committed exactly once; failure opens the gate; it panics exactly when a reached turn does |
| CheckpointBarrier.Checkpointer.Create | crates/etas_interpreter/src/driver/checkpoint.rs:25-50 | the gate is open after every finished attempt, and nothing was started meanwhile |
| CheckpointBarrier.ClosedGate | crates/etas_interpreter/src/driver/scheduler/mod.rs:426-429 | from a closed gate, over every run until it opens: no task is admitted, dispatched or run, no job submitted, no host operation issued, and what is in flight only shrinks |
| CheckpointBarrier.CancelledResultIsLeftBehind | crates/etas_interpreter/src/driver/scheduler/mod.rs:479-491 | a reachable state in which a cancelled task still owns a finished host result, so that the barrier's readiness assertion fails in its first turn |
| ComposedCalls.Indices | crates/etas_interpreter/src/control/call_site.rs:60-69 | reading a path bottom up and reversing gives its indices from the root |
| ComposedCalls.PathRoundTrip | crates/etas_interpreter/src/control/call_site.rs:46-77 | reading a path and building one undo each other; advancing moves the last index by one |
| ComposedCalls.PathsAddressStages | crates/etas_interpreter/src/eval/call.rs:557-638 | at every moment of every nested composed call the recorded root and path lead to the stage being called |
| ComposedCalls.SitesShareRoot | crates/etas_interpreter/src/eval/call.rs:577-584 | however deep compositions are nested, every site recorded in a run has the composition that was called first as its root |
| ComposedCalls.ComposedIsFold | crates/etas_interpreter/src/eval/call.rs:557-638 | a composed call of any nesting makes its calls in order and returns the left fold of its stages |
| Comparators.ValidateComparator | crates/etas_interpreter/src/eval/collection_ordering.rs:6-56 | the worklist loop terminates and reports the verdict, the turns and the shared targets expanded that its specification reports from the same state |
| Comparators.AcceptsExactly | crates/etas_interpreter/src/eval/collection_ordering.rs:6-56 | accepted exactly when every leaf is a pure callable of the program it is read in |
| Comparators.AcceptsByPaths | crates/etas_interpreter/src/eval/collection_ordering.rs:6-56 | accepted if and only if along every chain of links from the root a leaf is pure in the program of the last scope passed and no forbidden target is reached |
| Comparators.ExpandsOnce | crates/etas_interpreter/src/eval/collection_ordering.rs:36-50 | every expansion of a shared target is of a different target or owner |
| Comparators.WorkBound | crates/etas_interpreter/src/eval/collection_ordering.rs:17-52 | for every graph: a check takes at most the turns of one visit of its root plus, for each owner, one visit of what each marked target holds |
| Comparators.LinearWork | crates/etas_interpreter/src/eval/collection_ordering.rs:13-52 | with every wrapped or composed target seen as shared and no scope around a scope, as a check sees them, a check takes at most two turns for each owner and place that holds a target, and two for the root, however often a scoped callable is held |
| Comparators.SingleHolderWork | crates/etas_interpreter/src/eval/collection_ordering.rs:17-52 | where sharing is not seen everywhere but a target that is never marked has one holder, at most one turn for each owner and place, and one for the root |

## Left out

- HandlerRuns.ReachableStates: asks that no break or continue passes a boundary, because the code leaks the scope there; HandlerRuns.RunKeepsExactly proves this condition exact.
- Forwarding.ResumeRestores: asks that no break or continue of the arm passes a boundary; delivery (Forwarding.Deliver) covers actions, as a raised typed error does not search the handler stack and is covered by the step and run invariants.
- HostScoping.Agree: asks for layouts closed over their own parameters and no unapplied generic nominal in them, as the counterexamples HostScoping.OpenLayoutsDisagree and HostScoping.UnappliedGenericsDisagree show it must.
- PolicyRuns.EnteredAsPlanned: asks that no break or continue passes a boundary and that every step spares the frames it leaves, which PolicyRuns.RunPlansExactly proves exact; restorations come from limited calls only, not from continuations a program emits.
- PolicyRuns.StepPlansExactly: the frames a typed error crosses count as abandoned; an arm that resumed such an error would run them under the policy in force there.
- HostScoping.UnappliedAgreesExactly: asks that each parameter of the body is bound by the innermost frame or by none; for one bound only further out HostScoping.NameAgreesExactly says what a single name gives.
- HostScoping.DecodeMoreFuel: the unfolding bound stands for the call stack; a nominal type whose representation leads back to itself without consuming the value has no answer at any bound.
- HostJson.JsonRoundTrip: whole JSON numbers are taken as exact; how a host rounds them is not modelled.
- HostRoundTrip.RoundTrip: leaves out messages, JSON documents and floats, whose encodings belong to a host library that is not part of this model; sets and slices have no encoding.
- Transparency.BlockIsTransparent: asks that everything suspends, as the evaluator does, or that loop conditions contain their breaks and continues.
- ConstEval.EvaluatesExactly: operators, field access, indexing and slicing are one opaque pure function of their operand values.
- CheckpointBarrier.Checkpointer.Enter: the fault cases are those of unknown jobs, failed commits and cancelled native work; the text of a fault is not modelled.
- ComposedCalls.PathsAddressStages: calls started as a pipeline record a stage number instead of a path, and the overflow check on a stage index is not modelled.
- Frames: residual invocations, snapshot identities and type bindings of a frame; sharing of values between frames (values are copied on write, so a frame's map holds plain values).
- Continuation frames that only compute are one opaque frame in the handler machine; deferred continuation tokens, residual scopes, retries, several checked programs and a handler floor other than zero are not modelled.
- Matching of handler arms by action symbol and by error type is modelled; generic instantiation, selectors and effect-row checks are not.
- Host boundaries (console, files, network, memory, models, sessions, approvals) are one request that is answered by any value.
- Block scope cleanup across a suspension and after a suspended break; checked layouts give every binding its own symbol, so the model's variables are never shared.
- Index, slice, field, unary, binary, try and pipeline continuations follow the same save and resume shape and would only add members of the kind already there.
- Text iteration in for loops, which goes through a native work item.
- The resolution of an assignment target into segments; the commit starts from resolved segments.
- Map keys and values are compared structurally; the source's value equality on floats and nested maps is not modelled.
- Interned types are trees, with a predicate for the types that exist; the substitution routine itself belongs to a crate that is not part of this model.
- Admission by scope concurrency and by resource permits is a set chosen by the environment; waiter lists, wakeups, group outcomes and checkpoint contents are not modelled.
- Everything the coordinator records for observers only: telemetry, events and diagnostics.
