# A verified model of the GenC runtime

GenC compiles calls between prompts, models and functions into a small lambda calculus and
runs it on a stack of executors. This project models the parts of that runtime in which
meaning, ownership and order of events are at stake, and proves what they promise. Everything
is Dafny; `dafny verify dfyconfig.toml` checks all of it.

## How the model is laid out

**Evaluation.** `Ir.dfy` is the IR. `Evaluator.dfy` says, as functions with a bound on the
number of steps, what the control-flow executor computes on top of the inline executor and
with the eight control-flow handlers; `Fuel.dfy` shows that the bound does not matter.
`EvaluationRules.dfy` says the same a second time, without a bound and without the functions of
the first: one rule for each kind of expression, function and handler, with chains and loops as
paths of states. `EvaluationExact.dfy`, `ChainRules.dfy` and `OperatorRules.dfy` prove that the
two agree, errors included, and `RunMeaning.dfy` does so for a whole run. An
embedded value is the outcome of a future of the child executor, so an error can be *lazy* (it
shows when the value is materialised) or *eager* (the call that builds the value returns it).
Inline handlers are an arbitrary deterministic function. `ControlFlowExecutor.dfy` is the same
executor as it runs: loops, a current scope, values that own ids of a child executor, slots
that are given back. Its methods compute exactly what the functions say. `InlineExecutor.dfy`,
`IdTable.dfy`, `ExecutorService.dfy` and `Runner.dfy` add the child, the id table, the service
in front of it and the runner on top.

**Who owns what.** The executor counts, id by id, the references that the values in existence
hold to the child's ids (`ExecutorValues.dfy`, `ValueReferences.dfy`). Each of its methods
copies and releases references where the C++ code copies and destroys shared pointers, and
promises that they grow by exactly those of its result, and by none on an error. Between calls
the only references left are those of the tracked values, so a run ends with the tables of both
executors as they were. `SharedValues.dfy` has the shared pointers themselves: a heap of
counted cells in which destroying a pointer frees exactly the cells that the remaining pointers
do not reach, and changes the id counts exactly as a release in the executor does.

**Theorems about evaluation.** `Relevance.dfy` and `ScopeRelevance.dfy`: an expression sees a
scope only through its free references; `FreeNames.dfy` says where these occur.
`Representation.dfy` and `StructUse.dfy`: when a struct held locally can be told from one held
by the child. `CodeConditions.dfy`: the conditions of these theorems, for code and values one
can name. `RoundTrip.dfy`, `Handlers.dfy`, `Chains.dfy`, `InlineChains.dfy`: data, `Fallback`,
conditionals and the forms of a chain. `Constructors.dfy` holds the functions that write chains,
loops and conditionals in the IR, and `Encodings.dfy` says what each of them means.

**The tracing compiler.** `Tracing.dfy` states what the Python tracer builds, and the nested call
tree without sharing. `TraceTrees.dfy`, `TraceMeaning.dfy` and `TraceTheorem.dfy` prove that the
block means what the tree means. `TraceReference.dfy` says on values what the traced function
itself does, and proves that the traced computation does this; `TracedRuns.dfy` follows it to
the payload of a run. `TracingContext.dfy` is the Python context with its two dictionaries;
`CppTracing.dfy` is the C++ one over `BiMap.dfy`, and `CppTraceMeaning.dfy` says what a call
traced by it means.

**Types.** `Types.dfy` (inference and equality), `TypedTree.dfy` (inference in place, on a tree
of objects) and `TypeSoundness.dfy` (inference against the evaluator).

**Concurrency and distribution.** `Futures.dfy` (futures under any scheduler),
`CallbackTracker.dfy`, `RemoteProtocol.dfy`, `RemoteDelivery.dfy` and `RemoteDrain.dfy` (client
tasks, messages and server as one system of asynchronous steps), and `LocalCache.dfy`.

## Where the code does not do what one might expect

Each of these is a theorem with a concrete input.

- A lambda called without an argument runs in the scope it captured, where its own parameter's
  name may mean something else: a closed program can read its surroundings
  (`ScopeRelevance.ZeroArgumentCallLeaks`).
- `RepeatedConditionalChain` and `ParallelMap` evaluate payloads again in the scope of their own
  operator. A lambda that passes through loses the scope it was made in
  (`ScopeRelevance.ReentryChangesScope`).
- A struct held locally and the same struct held by the child can be told apart: a failing
  sibling spoils a selection from the child's form only (`Representation.SelectionDiffers`), an
  index out of range and a call of the struct are eager errors locally and lazy ones in the child
  (`Representation.LazyErrorShows`, `Representation.CalledStructShows`), and `Fallback` turns
  that into different values (`Representation.FallbackTellsFormsApart`).
- A traced call whose result is dropped still runs, and its failure fails the computation
  (`TraceTheorem.DeadCallChangesMeaning`).
- `RepeatedConditionalChain` drops the labels of structs between its steps, `BreakableChain`
  keeps them (`Chains.LabelsTellChainsApart`).

One more is about schedulers other than the repository's own, which starts a thread for each
callback: a bounded pool of workers can get stuck on futures if it starts them out of order
(`Futures.OutOfOrderPoolStuck`).

## Model

| member | source | states |
|---|---|---|
| Fuel.EvalMono | genc/cc/runtime/control_flow_executor.cc:513-553 | An evaluation that has finished within a bound has the same outcome within every larger one |
| Fuel.ExecMono | genc/cc/runtime/control_flow_executor.cc:748-767 | The same for a handler: its finished outcome does not depend on the bound |
| Fuel.EvaluatesUnique | genc/cc/runtime/control_flow_executor.cc:513-553 | An expression has at most one result in a scope |
| EvaluationExact.EvaluationFollowsRules | genc/cc/runtime/control_flow_executor.cc:513-627 | For every kind of expression, an expression has a result, value or error, if and only if the rule for it gives that result: members in order up to the first that fails, selection by an unsigned index, calls with function before argument, locals bound one after the other, intrinsics refused or captured as their handler demands |
| OperatorRules.ApplicationFollowsRules | genc/cc/runtime/control_flow_executor.cc:375-404 | For every kind of function, a call has a result if and only if the rule for it gives that result: closures in the scope they captured, embedded functions in the child, and each of the eight handlers as below |
| EvaluationExact.InlineExact | genc/cc/runtime/inline_executor.cc:101-127 | A call in the child executor has the result r if and only if the rule gives r: errors of function and argument first, then InvalidArgument, NotFound or the refusal of the handler, and for a well-formed inline intrinsic exactly the handler's answer for its uri, its static parameter and the payload |
| EvaluationExact.PayloadExact | genc/cc/runtime/control_flow_executor.cc:474-511 | Materialising gives what the rule for payloads gives: the struct of the payloads of the members, or the first error among them; an operator anywhere inside is Internal |
| EvaluationExact.EmbedExact | genc/cc/runtime/control_flow_executor.cc:474-511 | Embedding fails if and only if there is an operator among the parts; all other errors stay in the future |
| EvaluationExact.SelectionExact | genc/cc/runtime/control_flow_executor.cc:430-460 | Selecting gives what the rule gives, in every case and for every index, negative ones included |
| EvaluationExact.CheckOpExact | genc/cc/intrinsics/repeat.cc:29-36 | Each handler refuses exactly the static parameters that do not have the number of members it needs |
| EvaluationExact.ResolveExact | genc/cc/runtime/control_flow_executor.cc:296-308 | A name resolves to x if and only if the innermost binding of that name is to x, and is NotFound if and only if there is none |
| ChainRules.ChainExact | genc/cc/intrinsics/breakable_chain.cc:36-59 | A chain has a result if and only if there is a path of states to it, one for each function that had its turn: along all functions in order, or up to one that failed or answered true; false answers keep the state |
| ChainRules.RoundsIsChain | genc/cc/intrinsics/repeated_conditional_chain.cc:57-75 | The nested loops have, for every bound, the outcome of the one chain of all functions repeated, with each state created again from its payload |
| OperatorRules.LoopExact | genc/cc/intrinsics/while.cc:37-67 | The loop has a result if and only if there is a path of states to it: at each but the last the condition answers true and the body leads to the next; at the last the condition answers false, or something fails |
| RunMeaning.RunFollowsRule | genc/cc/runtime/runner.cc:60-72 | A run has a result if and only if creating the computation, creating the argument, calling and materialising give it, in this order and up to the first error |
| RunMeaning.InlineRun | genc/cc/runtime/inline_executor.cc:101-127 | Running an inline intrinsic on data gives exactly what its handler answers for its static parameter and that data, less what structs had recorded |
| ScopeRelevance.EvalSame | genc/cc/runtime/control_flow_executor.cc:513-627 | In two scopes that resolve every free reference of an expression to values of the same meaning, it has the same outcome: both unfinished, the same error, or values of the same meaning. In any runtime, for code that fits a mode: closures may capture names, and only code with ParallelMap or RepeatedConditionalChain has more names counted as free |
| ScopeRelevance.ApplySame | genc/cc/runtime/control_flow_executor.cc:375-404 | Calling functions of the same meaning on arguments of the same meaning has the same outcome, for closures and control-flow operators with whatever scopes they captured |
| ScopeRelevance.ExecSame | genc/cc/runtime/control_flow_executor.cc:748-767 | The same for each control-flow handler run in two captured scopes |
| ScopeRelevance.ClosedSame | genc/cc/runtime/control_flow_executor.cc:673-679 | A closed computation means the same in every scope |
| ScopeRelevance.AnyCodeSame | genc/cc/runtime/control_flow_executor.cc:283-308 | For all code, all values and all runtimes: scopes that resolve the free references alike give the same outcome, where a parameter counts as free in its own lambda and every name in a handler that evaluates payloads |
| ScopeRelevance.OrdinaryCodeSame | genc/cc/runtime/control_flow_executor.cc:283-308 | Code without ParallelMap and RepeatedConditionalChain, run on values without them, depends only on the references written in it, also where these handlers are registered |
| ScopeRelevance.ZeroArgumentCallLeaks | genc/cc/runtime/control_flow_executor.cc:291-293 | A closed call without an argument that is 1 in one scope and NotFound in another |
| ScopeRelevance.ReentryChangesScope | genc/cc/intrinsics/repeated_conditional_chain.cc:64-65 | A closed program whose result is a lambda over the scope of the program, not the scope the lambda was made in |
| FreeNames.FreeExact | genc/cc/runtime/control_flow_executor.cc:283-308 | A name counts as free if and only if some path into the expression leads to a place where it is looked up and no binder on that path binds it |
| CodeConditions.OrdinarySame | genc/cc/runtime/control_flow_executor.cc:69-187 | A value without the two handlers in its code means the same as itself, whatever payloads it holds, so the theorems on ordinary code apply to it |
| CodeConditions.OrdinaryScopesSame | genc/cc/runtime/control_flow_executor.cc:283-308 | Ordinary code has the same outcome in two scopes that resolve its free references to the same ordinary values, or fail to together |
| Relevance.EmbedSame | genc/cc/runtime/control_flow_executor.cc:474-511 | Values of the same meaning embed to the same future and materialise to the same payload |
| Relevance.SelectionSame | genc/cc/runtime/control_flow_executor.cc:430-460 | Selecting from values of the same meaning gives the same error or values of the same meaning |
| ExecutorValues.LookupMeans | genc/cc/runtime/control_flow_executor.cc:296-308 | The lookup on scopes in memory finds the value that the innermost binding of the name means, or NotFound |
| ExecutorValues.KeepNode | genc/cc/runtime/control_flow_executor.cc:131-187 | A value in memory keeps its meaning, through structs and captured scopes, for as long as the child keeps its ids |
| ValueReferences.Bracket | genc/cc/runtime/control_flow_executor.cc:592-602 | What is held around a step and given up afterwards leaves exactly the gain of the step |
| ValueReferences.Outlives | genc/cc/runtime/control_flow_executor.cc:592-602 | A result keeps its meaning, and the ids it refers to, when the temporaries it was computed from are destroyed |
| ValueReferences.GainedIds | genc/cc/runtime/control_flow_executor.cc:131-187 | After a step the child has exactly the ids of the references gained more than before; without any, both sides are as they were |
| ControlFlowExecutors.ControlFlowExecutor.Release | genc/cc/runtime/executor.h:151-162 | Gives up exactly the references that a value holds; an id goes back to the child if and only if its last reference went |
| SharedValues.SharedHeap.Copy | genc/cc/runtime/control_flow_executor.cc:296-308 | Copying a pointer keeps all counts exact, and adds exactly the references the pointer stands for |
| SharedValues.SharedHeap.Make | genc/cc/runtime/control_flow_executor.cc:568-573 | A new value or scope takes over the pointers moved into it; no reference comes or goes |
| SharedValues.SharedHeap.MakeOwner | genc/cc/runtime/control_flow_executor.cc:549-550 | A new embedded value owns a new id of the child, and exactly that reference is added |
| SharedValues.SharedHeap.Destroy | genc/cc/runtime/control_flow_executor.cc:98-187 | Exactly the cells that the remaining pointers do not reach are freed and their ids given back; the executor loses exactly the references that the pointer stood for |
| SharedValues.LiveIsReachable | genc/cc/runtime/control_flow_executor.cc:98-187 | With exact counts every cell is reachable from a pointer outside: values refer to older ones only, so counting leaves no garbage |
| SharedValues.LeftIsReachable | genc/cc/runtime/control_flow_executor.cc:98-187 | What is left after pointers went is exactly what the remaining ones reached before |
| SharedValues.OwnedIsReferred | genc/cc/runtime/control_flow_executor.cc:131-187 | The ids owned by cells are exactly those that occur in the trees behind the pointers outside, so counting per id and per pointer keep the same ids alive |
| ControlFlowExecutors.ControlFlowExecutor.EmbedValue | genc/cc/runtime/control_flow_executor.cc:474-511 | The id holds the future the specification gives; however deep structs nest, at most one new id stays tracked, the one in the slot; an error leaves the child's table as it was |
| ControlFlowExecutors.ControlFlowExecutor.EmbedStruct | genc/cc/runtime/control_flow_executor.cc:480-496 | Every id passed to CreateStruct is tracked at that moment, and all field slots are given back on success and on error |
| ControlFlowExecutors.ControlFlowExecutor.MaterializeValue | genc/cc/runtime/control_flow_executor.cc:467-472 | The payload or error of the value, with the child's table exactly as before |
| ControlFlowExecutors.ControlFlowExecutor.Evaluate | genc/cc/runtime/control_flow_executor.cc:513-553 | Evaluation in memory has the specified outcome; the references grow by exactly those of the result and by none on an error, so the child tracks the ids it tracked before and those of the result, and all futures are as they were |
| ControlFlowExecutors.ControlFlowExecutor.EvaluateCall | genc/cc/runtime/control_flow_executor.cc:592-602 | Function, then argument, then call: the specified outcome of the call expression |
| ControlFlowExecutors.ControlFlowExecutor.EvaluateStruct | genc/cc/runtime/control_flow_executor.cc:604-613 | The loop yields the members in order, or the first error |
| ControlFlowExecutors.ControlFlowExecutor.EvaluateBlock | genc/cc/runtime/control_flow_executor.cc:555-575 | The loop over the current scope has the outcome of binding each local for the ones after it and for the result |
| ControlFlowExecutors.ControlFlowExecutor.CreateSelection | genc/cc/runtime/control_flow_executor.cc:430-460 | The specified selection: eager NotFound locally, a new future in the child |
| ControlFlowExecutors.ControlFlowExecutor.CreateCall | genc/cc/runtime/control_flow_executor.cc:375-404 | The specified outcome of a call, for each kind of function value and with or without an argument |
| ControlFlowExecutors.ControlFlowExecutor.CallChild | genc/cc/runtime/control_flow_executor.cc:380-388 | The outcome that ApplicationFollowsRules characterises for an embedded function: the handler's answer for an inline one, whatever its static parameter; exactly the id of the result is added, the argument's slot is given back, and an error leaves everything as it was |
| ControlFlowExecutors.ControlFlowExecutor.CreateInContext | genc/cc/runtime/control_flow_executor.cc:673-679 | What a handler creates is evaluated in the scope its operator captured |
| ControlFlowExecutors.ControlFlowExecutor.CallAndMaterialize | genc/cc/runtime/control_flow_executor.cc:697-736 | The value a call gives together with the payload of that same value, or the first error of the two steps |
| ControlFlowExecutors.ControlFlowExecutor.ExecuteCall | genc/cc/runtime/control_flow_executor.cc:748-767 | Each handler has its specified outcome in the captured scope, a missing argument included: the one that the rule for it gives (OperatorRules.ExecSound and OperatorRules.ExecFuel) |
| ControlFlowExecutors.ControlFlowExecutor.ExecuteSerialChain | genc/cc/intrinsics/serial_chain.cc:36-48 | The loop has the outcome of the chain that ChainExact characterises (ChainRules.SerialIsChain) |
| ControlFlowExecutors.ControlFlowExecutor.ExecuteBreakableChain | genc/cc/intrinsics/breakable_chain.cc:36-59 | The loop with its break has the outcome of the chain that ChainExact characterises (ChainRules.BreakableIsChain): a true answer ends it with the current state, a false one keeps the state |
| ControlFlowExecutors.ControlFlowExecutor.ExecuteConditional | genc/cc/intrinsics/conditional.cc:39-54 | Only the chosen branch is created; a condition that is not a Boolean is InvalidArgument |
| ControlFlowExecutors.ControlFlowExecutor.ExecuteFallback | genc/cc/intrinsics/fallback.cc:34-58 | The loop has the outcome that FallbackFirstSuccess and FallbackAllFail characterise |
| ControlFlowExecutors.ControlFlowExecutor.ExecuteParallelMap | genc/cc/intrinsics/parallel_map.cc:41-56 | The loop has the outcome that ParallelMapMeaning characterises |
| ControlFlowExecutors.ControlFlowExecutor.RepeatBody | genc/cc/intrinsics/repeat.cc:38-52 | The counted loop has the outcome of that many applications of the body (ChainRules.RepeatIsChain), none for zero and negative counts |
| ControlFlowExecutors.ControlFlowExecutor.LoopWhile | genc/cc/intrinsics/while.cc:37-67 | The condition-first loop has the outcome that LoopExact characterises |
| ControlFlowExecutors.ControlFlowExecutor.ExecuteRepeatedConditionalChain | genc/cc/intrinsics/repeated_conditional_chain.cc:40-76 | All body functions are created before the first round; then the nested loops have the specified outcome |
| ControlFlowExecutors.ControlFlowExecutor.RunRound | genc/cc/intrinsics/repeated_conditional_chain.cc:58-70 | One pass of the inner loop: the state it ends in, created again from each payload, and whether a function asked to break |
| InlineExecutors.InlineExecutor.CreateCall | genc/cc/runtime/inline_executor.cc:101-127 | Unknown ids and a missing argument are eager errors that add nothing; otherwise one id is added, whose future is the outcome of the call, as InlineExact characterises it |
| InlineExecutors.InlineExecutor.CreateStruct | genc/cc/runtime/inline_executor.cc:129-141 | Succeeds exactly when all member ids are tracked, and adds one future, the struct of theirs |
| InlineExecutors.InlineExecutor.CreateSelection | genc/cc/runtime/inline_executor.cc:143-158 | Succeeds exactly when the source id is tracked; a bad index or a source that is not a struct goes into the new future |
| InlineExecutors.InlineExecutor.Materialize | genc/cc/runtime/inline_executor.cc:93-99 | The outcome of the future behind the id, or NotFound |
| InlineExecutors.GatherMembers | genc/cc/runtime/inline_executor.cc:129-141 | The member loop yields the struct of all payloads in order, or the error of the first member that failed |
| IdTables.IdTable.TrackValue | genc/cc/runtime/executor.h:194-200 | The new id was never issued before, and exactly it is added |
| IdTables.IdTable.GetAllTracked | genc/cc/runtime/executor.h:259-266 | Succeeds exactly when every id is tracked, with the values in order |
| IdTables.IdTable.Dispose | genc/cc/runtime/executor.h:278-287 | Removes exactly the id, and succeeds exactly when it was tracked |
| IdTables.OwnedValueId.Move | genc/cc/runtime/executor.h:126-129 | Ownership moves: the source is left empty and nothing is disposed of |
| IdTables.OwnedValueId.Assign | genc/cc/runtime/executor.h:131-137 | Disposes of exactly the id owned before, takes over the other's id and leaves the other empty |
| IdTables.OwnedValueId.Release | genc/cc/runtime/executor.h:151-162 | Disposes of the owned id if there is one, and leaves the owner empty, so a second release does nothing |
| ExecutorServices.ExecutorService.ReadArguments | genc/cc/runtime/executor_service.cc:76-113 | Succeeds exactly when every reference parses to a tracked id; a malformed one anywhere in the list is InvalidArgument, otherwise an unknown one is NotFound |
| ExecutorServices.ExecutorService.Create | genc/cc/runtime/executor_service.cc:76-121 | On success exactly the id in the response is added and stays tracked, on error nothing is |
| ExecutorServices.ExecutorService.Dispose | genc/cc/runtime/executor_service.cc:152-174 | Removes every named id whatever fails, and succeeds exactly when all references parse, all are tracked and none is repeated |
| ExecutorServices.DisposesIff | genc/cc/runtime/executor_service.cc:158-168 | No step of the disposal loop fails if and only if the references are tracked ids without repetition |
| Runners.Executor.CreateValue | genc/cc/runtime/executor.h:243-245 | Adds one tracked value of the specified meaning and exactly the references it holds, or reports the specified error and leaves both executors as they were |
| Runners.Executor.CreateCall | genc/cc/runtime/executor.h:247-257 | The same for calls; an unknown id is NotFound and changes nothing |
| Runners.Executor.CreateStruct | genc/cc/runtime/executor.h:259-266 | Adds one struct of the tracked members, each mention with its references; an unknown member is NotFound, and what was copied before it is given back |
| Runners.Executor.CreateSelection | genc/cc/runtime/executor.h:268-272 | Adds the selected value or reports the specified error; an unknown id is NotFound and changes nothing |
| Runners.Executor.Materialize | genc/cc/runtime/executor.h:274-276 | The payload of the tracked value, with both tables unchanged |
| Runners.Executor.Dispose | genc/cc/runtime/executor.h:278-287 | Removes exactly the id and gives up exactly the references of its value; the child tracks exactly the ids that the remaining values refer to |
| Runners.RunInternal | genc/cc/runtime/runner.cc:60-72 | The specified outcome of the run, and on success and on error the tables of parent and child end exactly as they began, since the temporaries of evaluation and the three owners have given back what they held |
| Runners.RunIsCall | genc/cc/runtime/runner.cc:60-72 | A run has the outcome of evaluating the call of the computation on the argument in the root scope and materialising it |
| Representation.SelectionAgreement | genc/cc/runtime/control_flow_executor.cc:430-460 | What a selection from the embedded form yields, the local form yields; the two agree on success if and only if the index is out of range, the selected field fails, or no field fails |
| Representation.SelectionDiffers | genc/cc/runtime/control_flow_executor.cc:437-450 | A failing sibling spoils the selection from the embedded form only |
| Representation.EmbeddingIsTransparent | genc/cc/runtime/control_flow_executor.cc:467-511 | Materialising a value or passing it to an embedded function does not tell it from its embedded form |
| Representation.EvalSim | genc/cc/runtime/control_flow_executor.cc:513-627 | Replacing local structs by their embedded form, anywhere in the scope. If the embedded run uses its structs properly (selects from them within range and calls none), or if the code selects nothing and calls only lambdas and intrinsics written in place, the two runs agree in everything: simulating values, the same error, lack of fuel together; in every runtime, with Fallback, and with failing structs if the run keeps off failed futures. Without these conditions, for code without Fallback and error-free structs, what the local run yields the embedded run yields |
| Representation.FormsAgree | genc/cc/runtime/control_flow_executor.cc:430-511 | Under either condition no caller can tell the forms apart: for every bound, evaluating and materialising gives the same payload, the same error, or lack of fuel in both |
| Representation.LazyErrorShows | genc/cc/runtime/control_flow_executor.cc:441-450 | An unused selection out of range fails for the local struct and not for the embedded one |
| Representation.FailedStructShows | genc/cc/runtime/control_flow_executor.cc:437-450 | A struct with a failed field: an unused selection out of range fails locally, while the embedded run, in which the struct is a failed future, goes on; so keeping off failed futures is needed |
| Representation.CalledStructShows | genc/cc/runtime/control_flow_executor.cc:393-396 | An unused call of a struct fails for the local struct and not for the embedded one |
| Representation.FallbackTellsFormsApart | genc/cc/intrinsics/fallback.cc:34-58 | Two candidates of which the first, by a selection out of range, fails for the local struct only, so the same Fallback yields 6 for the local form and 5 for the embedded one |
| CodeConditions.DataFormsAgree | genc/cc/runtime/control_flow_executor.cc:430-511 | For all code, scopes and runtimes: data bound to a name may be held locally or by the child without a visible difference, if the run with the child's form selects within its structs and calls none |
| RoundTrip.DataRoundTrip | genc/cc/runtime/control_flow_executor.cc:336-362 | CreateValue takes nested data if and only if its top node has a payload, and is Unimplemented otherwise; materialising the result gives the data back with only the metadata of struct nodes erased; a second trip changes nothing; a value survives unchanged if and only if its struct nodes carry none |
| RoundTrip.MaterializeStructure | genc/cc/runtime/control_flow_executor.cc:480-496 | A struct materialises if and only if all members do, to their payloads in order |
| RoundTrip.ParallelMapMeaning | genc/cc/intrinsics/parallel_map.cc:41-56 | The map succeeds if and only if every call on an element does, with their results in order, and otherwise reports the error of the first call that failed; the result materialises if and only if all members do |
| Handlers.FallbackFirstSuccess | genc/cc/intrinsics/fallback.cc:34-58 | The result is y if and only if y is the result of the first candidate that materialises; the returned value then always materialises |
| Handlers.FallbackDecides | genc/cc/intrinsics/fallback.cc:38-56 | After failing candidates the next one decides, whatever the later ones are |
| Handlers.FallbackAllFail | genc/cc/intrinsics/fallback.cc:36-57 | When all candidates fail the error is the last one's, and Unavailable if there are none |
| Handlers.ConditionalMeaning | genc/cc/authoring/constructor.cc:336-358 | The encoded conditional applied to x has exactly the results of "if c(x) then p(x) else q(x)", errors included, with the other branch never evaluated |
| Handlers.ClosedConditional | genc/cc/authoring/constructor.cc:336-358 | For closed c, p and q the same on function values: the encoded conditional answers x as calling what c makes on x, and then what p or what q makes on x, does |
| Encodings.SerialChainMeaning | genc/cc/authoring/constructor.cc:271-283 | What CreateSerialChain writes answers x with r if and only if handing x through all its functions in order does, errors included; without functions it is refused |
| Encodings.BreakableChainMeaning | genc/cc/authoring/constructor.cc:257-269 | What CreateBreakableChain writes evaluates to a function that answers x with r if and only if r ends a path of states along all its functions in order, stopped by the first true answer or error, with false answers keeping the state |
| Encodings.RepeatedChainMeaning | genc/cc/authoring/constructor.cc:239-255 | What CreateRepeatedConditionalChain writes makes all its functions first, and then answers as the chain of that many rounds of them does |
| Encodings.RepeatMeaning | genc/cc/authoring/constructor.cc:44-55 | What CreateRepeat writes answers x with r if and only if exactly that many applications of the body do (none for a negative count), errors included |
| Encodings.WhileMeaning | genc/cc/authoring/constructor.cc:227-237 | What CreateWhile writes makes condition and body, and then answers as the loop of LoopExact does |
| Encodings.FallbackMeaning | genc/cc/authoring/constructor.cc:324-334 | What CreateFallback writes answers with the first candidate that can be made, called and materialised, and otherwise with the error of the last one, or Unavailable |
| Encodings.ParallelMapResponds | genc/cc/authoring/constructor.cc:285-291 | What CreateParallelMap writes answers with the struct of the function's answers for the members of the payload in order, or the first error |
| Encodings.SmartChainMeaning | genc/cc/authoring/smart_chain.cc:27-40 | What the builder makes answers as the rounds of its operations do for more than one iteration, and as their serial chain otherwise |
| Encodings.ParallelSmartChain | genc/cc/authoring/smart_chain.cc:35-37 | On request that chain is called on each member of the payload |
| Chains.SerialAppend | genc/cc/intrinsics/serial_chain.cc:36-48 | A concatenated chain is the composition of its parts, and stops at the first error |
| Chains.RepeatIsFlatSerial | genc/cc/intrinsics/repeat.cc:38-52 | Repeating a serial chain and the chain written out that many times have exactly the same outcomes, errors included |
| Chains.BreakableIsSerial | genc/cc/intrinsics/breakable_chain.cc:36-59 | A breakable chain that succeeds without a Boolean answer gives what the serial chain gives |
| Chains.RepeatedChainIsBreakable | genc/cc/intrinsics/repeated_conditional_chain.cc:40-76 | When the repeated chain succeeds on plain data states, the breakable chain over its functions repeated succeeds with the same payload; with structs among the states if functions and scope contain no Fallback or call only functions written in place |
| Chains.RepeatedChainExact | genc/cc/intrinsics/repeated_conditional_chain.cc:40-76 | When its functions can be created and no state is a struct, the repeated chain has exactly the outcome of the breakable chain over its functions repeated: the same value, the same error, or lack of fuel in both |
| Chains.SmartChainForms | genc/cc/authoring/smart_chain.cc:27-40 | When the loop form succeeds on plain data states and nothing answers with a Boolean, the serial form repeated gives the same payload; structs as above |
| InlineChains.BreakingChainsAgree | genc/cc/intrinsics/repeated_conditional_chain.cc:57-75 | For inline functions whose handlers answer with plain data, Booleans and the breaks they cause included, the repeated chain and the breakable chain written out both finish, with the payload or error of the state in which the functions, one after the other, leave the chain |
| InlineChains.StepsAppend | genc/cc/intrinsics/breakable_chain.cc:40-57 | Chains that can break compose: the second part runs, from where the first part got to, exactly if the first part was not ended by an error or a true answer |
| InlineChains.InlineChainsAgree | genc/cc/intrinsics/repeated_conditional_chain.cc:40-76 | For inline functions whose handlers answer with plain data other than Booleans, the serial chain agrees with these two as well: all three finish, with the same payload or the same error |
| InlineChains.SmartChainAgrees | genc/cc/authoring/smart_chain.cc:27-40 | Under this condition, which can be checked beforehand, both forms that the chain is built in have the same outcome |
| Chains.LabelsTellChainsApart | genc/cc/intrinsics/repeated_conditional_chain.cc:64-65 | Two functions for which the repeated and the breakable chain give different payloads, because of a struct's label |
| Constructors.CreateSerialChain | genc/cc/authoring/constructor.cc:271-283 | The loop builds the chain with each function in its place and labelled by its index |
| Constructors.CreateBreakableChain | genc/cc/authoring/constructor.cc:257-269 | The same for a breakable chain |
| Constructors.CreateRepeatedConditionalChain | genc/cc/authoring/constructor.cc:239-255 | The number of steps comes first, then each function in its place and labelled by its index |
| Constructors.CreateFallback | genc/cc/authoring/constructor.cc:324-334 | The candidates in order, each with the label the source gives it |
| Constructors.SmartChain.Build | genc/cc/authoring/smart_chain.cc:27-40 | The loop form for more than one iteration, the serial form otherwise, and the parallel map of either on request |
| TraceTrees.TracedExpands | genc/python/authoring/tracing_context.py:28-72 | Expanding the names in what tracing built gives back the nested call tree, and each local refers only to earlier locals and the argument |
| TraceTrees.InternExpands | genc/python/authoring/tracing_context.py:60-72 | The reference put in place of a value expands to that value's tree, shared or not |
| TraceTheorem.TracingSound | genc/python/authoring/tracing_decorator.py:41-68 | Whenever the traced lambda succeeds on x, the nested call tree succeeds where the argument is x, with the same meaning; the tree means what the traced function returns (TraceReference.ReturnsIsTree) |
| TraceTheorem.TracingComplete | genc/python/authoring/tracing_decorator.py:41-68 | When the tree and all calls made and values named succeed, which is when the traced function returns (TraceReference.ReturnsIsTree), so does the traced lambda, with the meaning of the tree |
| TraceTheorem.TracedCallsSucceed | genc/cc/runtime/control_flow_executor.cc:555-575 | A traced lambda that succeeds has evaluated every call the traced function made and every value it named |
| TraceTheorem.TracingExact | genc/python/authoring/tracing_decorator.py:41-68 | The traced lambda succeeds if and only if the tree and every call made and every value named, used or not, succeed, that is, if the traced function returns (TraceReference.ReturnsIsTree) |
| TraceTheorem.TracingPreservesMeaning | genc/python/authoring/tracing_context.py:28-72 | If every call and every named value is used later or returned, the traced lambda and the call tree succeed together and mean the same; for what the tree means see TraceReference.ReturnsIsTree |
| TraceTheorem.DeadCallChangesMeaning | genc/python/authoring/tracing_decorator.py:57-66 | A traced function with an unused failing call: its tree is the argument, its traced lambda fails |
| TraceReference.TracedMeansFunction | genc/python/authoring/tracing_decorator.py:32-68 | A reference semantics on values: a parameter is the argument, or the member of it that its place in the signature says; a step of the function calls what its function is on what its arguments are, in order, as one struct when there is more than one. The traced computation answers x with a value if and only if the function, called on x, returns one of the same meaning |
| TraceReference.ReturnsIsTree | genc/python/authoring/tracing_decorator.py:41-68 | In this semantics the function returns z if and only if its nested call tree evaluates to z and all its steps evaluate |
| TraceReference.CallTreeIs | genc/python/authoring/tracing_context.py:28-51 | A traced call of several values is the call of the function on the struct of what they are, in order; of one value, on that value |
| TracedRuns.TracedRun | genc/cc/runtime/runner.cc:60-72 | Running the traced computation on data gives the payload v if and only if v is the payload of what the traced function returns for that data |
| TracingContexts.TracingContext.ReplaceWithReference | genc/python/authoring/tracing_context.py:60-72 | The two dictionaries stay inverse to each other, names count up in order, equal IR gets the same name, and references pass through |
| TracingContexts.TracingContext.Call | genc/python/authoring/tracing_context.py:28-51 | Arguments, function and call are named in that order; no argument is an error that adds nothing |
| TracingContexts.TracingContext.Embed | genc/python/authoring/tracing_context.py:53-54 | The value is named as an argument of a call would be, and nothing is called |
| TracingContexts.TracedComputation | genc/python/authoring/tracing_decorator.py:32-68 | The decorator builds the lambda that TraceReference.TracedMeansFunction is about, which returns what the traced function returns |
| BiMaps.BiMap.Insert | genc/cc/modules/retrieval/bi_map.h:35-43 | Succeeds exactly when neither side is present; the two maps stay mutual inverses |
| BiMaps.BiMap.Upsert | genc/cc/modules/retrieval/bi_map.h:45-67 | Refused exactly when both sides are present; otherwise replaces the pair that held the taken side, and the maps stay mutual inverses |
| BiMaps.BiMap.RemoveByKey | genc/cc/modules/retrieval/bi_map.h:70-80 | Removes exactly the pair of the key, from both maps |
| BiMaps.BiMap.RemoveByValue | genc/cc/modules/retrieval/bi_map.h:83-92 | Removes exactly the pair of the value, from both maps |
| BiMaps.BiMap.FindByValue | genc/cc/modules/retrieval/bi_map.h:102-106 | Finds a key exactly when some key maps to the value, and then one that does |
| BiMaps.BiMap.Injective | genc/cc/modules/retrieval/bi_map.h:114-119 | No two keys share a value |
| Names.VarNameInjective | genc/cc/authoring/tracing_context.cc:58-58 | Different numbers give different names |
| Names.NameReads | genc/cc/authoring/tracing_context.cc:58-58 | A name is `v_` followed by decimal digits that read as its number |
| CppTracing.NextBinding | genc/cc/authoring/tracing_context.cc:57-60 | The name made from the size of the map is fresh, so the insertion never fails |
| CppTracing.CppTracingContext.ReplaceWithReference | genc/cc/authoring/tracing_context.cc:48-62 | The name is new exactly when the IR is, and equal IR gets the same name |
| CppTracing.CppTracingContext.Call | genc/cc/authoring/tracing_context.cc:31-46 | Arguments and then the function are named; the call returned is that of CppCallExpands and is not named; no argument is InvalidArgument |
| CppTracing.CppCallOrdered | genc/cc/authoring/tracing_context.cc:31-62 | Tracing a call keeps it so that each local mentions only earlier locals, and the call it returns only existing ones |
| CppTraceMeaning.CppCallExpands | genc/cc/authoring/tracing_context.cc:31-46 | Expanding the names in the call that is returned gives the call of the function on all the arguments, in order and packed as one struct when there is more than one; the call may be handed to the context again |
| CppTraceMeaning.CppCallMeaning | genc/cc/authoring/tracing_context.cc:31-62 | Under the bindings of the context, in order, the returned call evaluates if and only if calling what the function is on what the arguments are gives a value, and to one of the same meaning, provided that what was bound before evaluates |
| Types.CheckEqualExact | genc/cc/types/checking.cc:66-92 | The check succeeds if and only if the types are equal and fully specified |
| Types.MismatchCode | genc/cc/types/checking.cc:25-92 | The check reports Unimplemented if its first type is of a kind it does not support, and InvalidArgument for every other mismatch |
| Types.CheckEqual | genc/cc/types/checking.cc:25-92 | The loops and the reassigned status yield the specified status: InvalidArgument for every mismatch, Unimplemented for the kinds not supported |
| Types.InferExact | genc/cc/types/inference.cc:50-104 | Inference succeeds if and only if the value has a type and no annotation contradicts it; then every node carries its type. What the type of a value is, TypeSoundness.InferenceExact says by its payload |
| Types.InferCode | genc/cc/types/inference.cc:27-104 | The error reported is that of the first part that fails; otherwise Unimplemented for a kind or scalar that inference does not know, InvalidArgument for a selection without a member, and the mismatch of the annotation |
| Types.InferOnlyAnnotates | genc/cc/types/inference.cc:27-104 | Nothing but type annotations changes, even on failure |
| Types.InferTwice | genc/cc/types/inference.cc:50-104 | After a success a second run changes nothing and succeeds |
| Types.InferFailsAgain | genc/cc/types/inference.cc:50-104 | After a failure a second run fails again, despite the annotations left behind |
| TypedTrees.Node.CreateStructType | genc/cc/types/inference.cc:37-46 | The loop over the children annotates them in order up to the first failure and leaves the later ones alone |
| TypedTrees.Node.InferTypes | genc/cc/types/inference.cc:50-104 | In place on a tree of objects, inference leaves exactly the tree and the status that Infer describes, and that InferenceExact characterises |
| TypeSoundness.TypedEvaluates | genc/cc/runtime/control_flow_executor.cc:604-621 | A value with a type evaluates successfully in every scope, to a value of that type |
| TypeSoundness.InferenceExact | genc/cc/types/inference.cc:50-104 | Inference accepts a value if and only if each of its nodes is a leaf, a struct or a selection by an index that is not negative, evaluates to a payload of some type, and is annotated with that type or not at all; afterwards every node of the result is so |
| TypeSoundness.InferenceSound | genc/cc/types/inference.cc:50-104 | If inference accepts a value, its evaluation ends and never fails, and its payload has exactly the inferred type and no other: strings have the string type, 32-bit integers the int32 type, Booleans the bool type, structs the type of their members |
| Futures.SchedulerIndependence | genc/cc/runtime/inline_executor.cc:85-158 | In every reachable state of every schedule, a future that has a result has the value or error that sequential evaluation gives, which is that of its task on what its inputs hold: the handler's answer, the struct of the members or their first error, the selected member |
| Futures.NoDeadlock | genc/cc/runtime/concurrency.h:46-92 | As long as some future has no result, some task can start or finish |
| Futures.OrderedPoolProceeds | genc/cc/runtime/concurrency.h:46-92 | Any positive number of workers suffices if tasks start in the order of submission |
| Futures.OutOfOrderPoolStuck | genc/cc/runtime/concurrency.h:73-82 | A run in which the only worker waits for a task that has no worker |
| Futures.RunsEnd | genc/cc/runtime/concurrency.h:46-92 | Each task starts and finishes at most once, so runs without new submissions are bounded; one that cannot go on has settled every future |
| CallbackTrackers.CallbackTracker.RegisterCallback | genc/cc/runtime/concurrency_helpers.h:42-50 | Cancels an early completion if there is one, and records the waitable otherwise |
| CallbackTrackers.CallbackTracker.FinishCallback | genc/cc/runtime/concurrency_helpers.h:57-66 | Drops the waitable if it is recorded, and records an early completion otherwise; counts the completion |
| CallbackTrackers.CallbackTracker.LookForWork | genc/cc/runtime/concurrency_helpers.h:68-95 | One look under the lock: done, a recorded waitable, or the error |
| CallbackTrackers.TrackerInvariant | genc/cc/runtime/concurrency_helpers.h:33-104 | In every interleaving the recorded waitables are those of the registered unfinished callbacks, the early completions are the finished unregistered ones, and the counters differ by the number of unfinished callbacks |
| CallbackTrackers.IssueIsNew | genc/cc/runtime/concurrency_helpers.h:37-40 | In every reachable state a new id is one that no Schedule call has had |
| CallbackTrackers.EitherOrder | genc/cc/runtime/concurrency_helpers.h:42-66 | A callback that runs to its end before it is registered leaves the tracker in the same state as one that runs afterwards: one more completion, and nothing recorded |
| CallbackTrackers.RefusedIsIgnored | genc/cc/runtime/concurrency_helpers.h:52-55 | A callback that the scheduler refuses counts as completed, and nothing is recorded for it |
| CallbackTrackers.LookIsRight | genc/cc/runtime/concurrency_helpers.h:68-95 | Waiting succeeds if and only if nothing is unfinished at that moment, fails only while some Schedule call is under way, and otherwise waits on an unfinished callback |
| CallbackTrackers.RoundShrinks | genc/cc/runtime/concurrency_helpers.h:69-86 | A round of the wait loop strictly shrinks the set of unfinished callbacks when nothing new is scheduled |
| CallbackTrackers.WaitEnds | genc/cc/runtime/concurrency_helpers.h:68-95 | The wait loop makes at most as many rounds as callbacks were unfinished |
| CallbackTrackers.QuiescentIsEmpty | genc/cc/runtime/concurrency_helpers.h:127-141 | When no Schedule call is under way and every callback has run, the tracker holds nothing |
| RemoteProtocol.OwnershipInvariant | genc/cc/runtime/remote_executor.cc:52-195 | In every reachable state each id the server tracks is answered for exactly once, by a client task, a response under way or a Dispose message; each id ever issued is tracked or was disposed of, exactly once; no request names an id that is not tracked, and the server has never had to refuse one |
| RemoteProtocol.RequestKnown | genc/cc/runtime/remote_executor.cc:128-195 | The ids named by a request under way are tracked |
| RemoteProtocol.StepKeepsBalance | genc/cc/runtime/executor_service.cc:65-174 | Every step of client, network or server keeps the account of ids balanced |
| RemoteProtocol.StepKeepsShape | genc/cc/runtime/remote_executor.cc:128-195 | Every step keeps the inputs of an existing task in existence, and what requests name in agreement with what those inputs hold |
| RemoteDelivery.ValueLives | genc/cc/runtime/remote_executor.cc:52-195 | From a create request that the server answers with success: a new id is tracked; whatever others do, it stays tracked and with the client until the client lets go; then exactly this id is disposed of, and the server stops tracking it and nothing else |
| RemoteDelivery.CallReturns | genc/cc/runtime/remote_executor.cc:98-150 | In every reachable state a call on values that have arrived can run through: request, answer and response leave the client with a future that holds a new id which the server tracks |
| RemoteDelivery.ServerAnswers | genc/cc/runtime/executor_service.cc:65-121 | The answer to a create request issues a new id and tracks it, or reports an error and changes nothing on the server |
| RemoteDelivery.FailureEnds | genc/cc/runtime/remote_executor.cc:128-150 | A call that the server refused, or one of whose inputs failed, ends with an error and without a value |
| RemoteDelivery.RequestNames | genc/cc/runtime/remote_executor.cc:128-150 | A request names the ids of the call's inputs, in order |
| RemoteDrain.NoDeadlock | genc/cc/runtime/remote_executor.cc:98-195 | Some step is possible as long as a call is unfinished, a Dispose message is under way, or, with no handle left, a task exists |
| RemoteDrain.RunsEnd | genc/cc/runtime/remote_executor.cc:98-195 | Without new calls every run is bounded |
| RemoteDrain.RestIsEmpty | genc/cc/runtime/remote_executor.cc:52-66 | In a reachable state at rest with no handle left, the server tracks nothing and has disposed of each id it ever issued exactly once |
| RemoteDrain.DrainsCompletely | genc/cc/runtime/remote_executor.cc:52-66 | From any reachable state, without new calls, the system makes at most a computable number of further steps, and if it comes to rest with no handle left the server has disposed of everything |
| LocalCaches.LastSlides | genc/cc/modules/retrieval/local_cache.h:46-55 | Dropping the oldest of a full window and appending keeps it the last messages of the whole log |
| LocalCaches.LocalCache.Put | genc/cc/modules/retrieval/local_cache.h:46-55 | The log of the key grows by the message, and the cache still holds the last messages of every log |
| LocalCaches.LocalCache.Get | genc/cc/modules/retrieval/local_cache.h:59-73 | The last min(n, capacity) messages put under the key since it was last removed |
| LocalCaches.LocalCache.Remove | genc/cc/modules/retrieval/local_cache.h:85-88 | The log of the key is empty again, the others are unchanged |
| LocalCaches.Read | genc/cc/modules/retrieval/local_cache.cc:31-44 | Prints exactly the last messages of the log, in order, each followed by the delimiter (LocalCaches.PrintedInOrder) |
| LocalCaches.PrintedInOrder | genc/cc/modules/retrieval/local_cache.cc:35-41 | The text begins with the first message and the delimiter, and goes on with the text of the others |
| LocalCaches.Write | genc/cc/modules/retrieval/local_cache.cc:46-51 | Appends the argument to the log of the default key and returns it |
| LocalCaches.Clear | genc/cc/modules/retrieval/local_cache.cc:53-58 | Empties the log of the default key and returns the argument |

## Left out

Statements that are weaker than one might wish:

- EvalSim: agreement in everything needs one of its two conditions; LazyErrorShows, CalledStructShows, FailedStructShows and FallbackTellsFormsApart show what happens without. If the code contains ParallelMap or RepeatedConditionalChain, the inline handlers must keep payloads within what the code may contain.
- EvalSame: carries a mode, because calls without an argument and handlers that evaluate payloads again limit it; ZeroArgumentCallLeaks and ReentryChangesScope show why. Code that evaluates payloads needs inline handlers that keep the free names of payloads within the mode's names; the mode of AnyCodeSame asks nothing.
- TracingSound: the traced function uses its parameters, its calls and closed IR of its own (TraceTrees.ClosedIsOwn), since references pass through the tracer unrenamed; and the argument and the code fit the mode of EvalSame; where own code evaluates payloads, the names the mode allows resolve outside the lambda to values that fit it, or not at all, and differ from those the tracer makes.
- TracingComplete: the same hypotheses.
- TracingExact: the same hypotheses.
- TracingPreservesMeaning: the same hypotheses.
- TracedMeansFunction: the same hypotheses; own IR of the function is evaluated where the argument is bound.
- TracedRun: the same hypotheses, in the root scope, and the argument is data with a payload.
- CppCallMeaning: the same hypotheses, and what was bound before evaluates, because a block evaluates all its locals.
- ApplicationFollowsRules: operators are as evaluation makes them, with a static parameter that their handler accepts.
- RepeatedChainIsBreakable: only when the repeated chain succeeds and its states are data without metadata on structs; LabelsTellChainsApart shows that some such condition is needed. RepeatedChainExact is exact where no state is a struct, and BreakingChainsAgree has a condition on the code alone, for inline functions.
- SmartChainForms: the same condition, and no Boolean answers.
- ClosedConditional: up to values of the same meaning, since closures keep the scope they were made in.
- ControlFlowExecutors.ControlFlowExecutor.LoopWhile: the answer of the condition is given back once it is read, in the source at the end of the turn; likewise in RunRound. Nothing observes the difference.
- OrderedPoolProceeds: a sufficient condition only; some orders other than that of submission do no harm.
- LocalCache: a capacity of 0 and a negative n are undefined in the source and are excluded.

Not modelled:

- Assumptions of the remote protocol: calls are reliable and answered once, the Dispose closure is always scheduled, a scheduler drops its callback when it has run, ids do not run out.
- Loss of messages, server restarts, gRPC and protobuf encoding, the decimal text of ids, and the text of error messages; errors are status codes.
- Sharing in the tracers is by equality of IR, where the source compares printed or serialised IR.
- Lists and dictionaries passed to a traced call that hold traced results; with IR of the function's own in them they are own IR.
- Keyword arguments, default values and signatures without parameters, which the Python decorator refuses, and the stack of contexts around it.
- Reading an absent optional argument is an ordinary error here, which Fallback goes on after; in the source it throws or aborts.
- Materialising a closure that has free references: the source forwards the lambda without its scope, and so does the model, but only closed lambdas are claimed to keep their meaning.
- The futures of RemoteExecutor as values: that a remote run gives what a local one gives.
- HTTP, JNI, Java, attestation and cryptography, and all model backends, which are inline handlers here.
- Inline handlers with state, other than the local cache on its own.
- `delegate`, `confidential_computation` and custom control-flow intrinsics.
- Templates, parsers and regular expressions, which are thin layers over other libraries.
