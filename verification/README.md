# Verified model of the OMLE runtime

A Dafny model of the parts of the OMLE inference engine whose correctness no test can settle, with proofs.
Numbers are exact reals, with NaN as a value of its own where the code treats it specially; library functions such
as `exp`, and the rounding of a double to a float, are parameters. Code that works in place is modelled in place,
with arrays, fields and loops, and proved against a specification function; the properties are then theorems about
that function.

| file | what it models |
|---|---|
| `ThreadPool.dfy` | the pool's mutex, condition variable and generation counter as a machine of atomic steps |
| `GraphExecutor.dfy`, `FlatPredict.dfy` | batch prediction by row chunks: results joined byte by byte, or written into one shared buffer |
| `ValueStores.dfy`, `Graphs.dfy` | the lookup chain of stores, and composite nodes run in isolated scopes |
| `Flattening.dfy`, `SymbolicRuns.dfy` | the load-time inlining of composite nodes by renaming; a test that decides whether it preserves a graph |
| `Schema.dfy`, `Slots.dfy` | feature policies, the load-time rewrite of n features into one wide tensor, scattering and gathering of slots |
| `Expressions.dfy`, `BuiltinLaws.dfy`, `Inlining.dfy` | the expression language with user functions; what its built-in functions mean; inlining and row locality |
| `PairwiseCoupling.dfy` | class probabilities from pairwise SVM probabilities |
| `FactorAnalysis.dfy` | Gauss-Jordan inversion and the posterior projection |
| `BSplines.dfy`, `Interpolation.dfy`, `Exponents.dfy` | spline basis, piecewise linear maps, exponent enumeration |
| `Csr.dfy`, `OneHot.dfy`, `RegisteredColumns.dfy` | fast representations against simple ones: sparse rows, category maps, cached inputs |
| `NeuralNetwork.dfy`, `LinearKernels.dfy` | layers between two swapping buffers; blocked dot products |
| `Sums.dfy`, `Nums.dfy`, `Wrappers.dfy` | finite sums, vectors and matrices; numbers with NaN; optional results |

Where a property holds only under a condition that the code does not check, the condition is a precondition or one
side of an equivalence; the lemmas with `Breaks`, `Fails` or the like in their names are inputs outside it on which
the property fails.

Where the code and its own comments differ, the model follows the code:

- The comment on the quantile references gives their shape as levels by features (src/operator_registry.cpp:1343);
  the code reads them feature by feature (line 1372).
- The special case for the last knot in the spline basis (src/operator_registry.cpp:1404-1406) reads as if it closed
  the last interval; above degree 0 it changes nothing (`BSplines.LastKnotVanishes`).
- Batch mode of the schema is commented as an optimisation (src/graph_loader.cpp:1688-1691); it also takes every
  single feature out of the store (`Schema.OtherConsumersFail`).
- The NaN elements of a matrix are dropped by `to_sparse` although they are not small (`Csr.RoundTripIff`).

## Model

| member | source | states |
|---|---|---|
| `ThreadPool.StepKeepsInv` | src/thread_pool.cpp:7-62 | Every atomic step of any worker, of the dispatcher or of the environment (spurious wakeups included) keeps the pool's invariant: lock ownership, generations seen, who sleeps and why, which tasks are out, which runs are logged. |
| `ThreadPool.RunKeepsInv` | src/thread_pool.cpp:7-62 | The invariant holds after every possible sequence of steps. |
| `ThreadPool.RunHands` | src/thread_pool.cpp:48-57 | What has been published and what waits to be is, in order, exactly what was handed over; a call without tasks asks for nothing. |
| `ThreadPool.EachTaskExactlyOnce` | src/thread_pool.cpp:23-62 | In every interleaving of every sequence of non-overlapping calls, whenever no call is in progress, each task of each call handed to the pool has begun and ended exactly once with that call's callable, and nothing else ever ran; only a call that still waits to be published has not run. |
| `ThreadPool.GenerationsNeverMix` | src/thread_pool.cpp:23-46 | A worker with a task has seen the current generation, uses the current callable and holds a task of the call in progress that no other worker holds; outside a call no worker can reach `fn_`. |
| `ThreadPool.NoLostWakeup` | src/thread_pool.cpp:29-61 | In every reachable state a thread asleep with its predicate true has a `notify_all` still to come. |
| `ThreadPool.CallNeverStuck` | src/thread_pool.cpp:29-61 | From its publication to its return, a call on a pool with a worker always has a thread that can move. |
| `ThreadPool.RequestNeverStuck` | src/thread_pool.cpp:48-58 | While the dispatcher waits to publish a call, or to set the stop flag, some thread can move, with or without workers. |
| `ThreadPool.ShutdownNeverStuck` | src/thread_pool.cpp:13-21 | After the destructor's step some thread can move until every worker has been joined. |
| `ThreadPool.StopsIffAsked` | src/thread_pool.cpp:13-18 | The pool begins to stop exactly when the destructor is asked for. |
| `ThreadPool.DestroyedMeansExited` | src/thread_pool.cpp:7-21 | The workers are the ones the constructor started, and the destructor does not return before every one of them has left its loop. |
| `ThreadPool.PhaseIsBounded` | src/thread_pool.cpp:13-61 | Whatever the scheduler does, a request is served, a call returns and a shutdown completes: each phase lasts at most Measure + 6k + 1 steps, k being the number of spurious wakeups in it, and is never stuck before its end (a published call needs a worker for that). |
| `ThreadPool.CallCanReturn` | src/thread_pool.cpp:29-61 | From every reachable state of a call its threads can bring it to return by themselves. |
| `ThreadPool.CallReturnsIffPoolNonempty` | src/thread_pool.cpp:7-11 | A call that publishes work can return if and only if the pool was built with at least one worker. |
| `ThreadPool.OverlapLosesUnclaimed` | src/thread_pool.cpp:48-61 | From every reachable state of a call with the lock free, a second publication of another callable makes every task of the call that is unclaimed, or claimed and not begun, one that no continuation runs with its callable, unless a later call hands that callable out again. |
| `ThreadPool.OverlappingCallLosesTasks` | src/thread_pool.cpp:51-57 | A concrete run in which the overlapped call returns although none of its tasks was ever run. |
| `PairwiseCoupling.QuadIsDisagreement` | src/nodes/svm_node.cpp:150-158 | The quadratic form of Q is half the sum over all ordered pairs of the squared misses between pairwise and class probabilities. |
| `PairwiseCoupling.QIsCoupling` | src/nodes/svm_node.cpp:150-158 | Q is symmetric, positive on the diagonal, never positive off it, and its form is never negative. |
| `PairwiseCoupling.RowBelowQuad` | src/nodes/svm_node.cpp:165-180 | For every vector, (Qp)_t squared is at most Q_tt times pQp (a Cauchy-Schwarz bound). |
| `PairwiseCoupling.NudgeBounded` | src/nodes/svm_node.cpp:179-186 | 1 + diff is at least 3/4 whatever the vector, so no division of the sweep is by zero or changes a sign. |
| `PairwiseCoupling.MovedRow` | src/nodes/svm_node.cpp:183-186 | The incremental update of `Qp` gives exactly Q times the moved and renormalised vector. |
| `PairwiseCoupling.MovedQuad` | src/nodes/svm_node.cpp:181-182 | The incremental update of `pQp` gives exactly the quadratic form of the moved and renormalised vector. |
| `PairwiseCoupling.NudgeDescends` | src/nodes/svm_node.cpp:178-186 | A coordinate update lowers the objective by exactly (pQp + Q_tt) (d / (1 + d)) squared, so it never raises it. |
| `PairwiseCoupling.UpdateSound` | src/nodes/svm_node.cpp:178-187 | One coordinate update keeps every entry nonnegative and the total at 1, or above 1 from the moment the clamp raises an entry. |
| `PairwiseCoupling.IterateSound` | src/nodes/svm_node.cpp:163-189 | The same for the whole iteration, with the objective no higher at the end than at the start unless the clamp fired. |
| `PairwiseCoupling.DistributionIffNoClamp` | src/nodes/svm_node.cpp:145-190 | The result is never negative, never sums to less than 1, and sums to exactly 1 if and only if the 1e-7 clamp never raised an entry. |
| `PairwiseCoupling.NearlyOptimal` | src/nodes/svm_node.cpp:147-176 | Without a clamp the result explains the pairs at least as well as the uniform start, and once the stopping test holds no distribution explains them better by more than 0.04/K. |
| `PairwiseCoupling.ConsistentPairsRecovered` | src/nodes/svm_node.cpp:142-190 | Pairs that come from one distribution are explained to within 0.04/K by a converged run without a clamp. |
| `PairwiseCoupling.SurePairsClamp` | src/nodes/svm_node.cpp:187 | A concrete input of three classes on which the clamp fires and the result sums to more than 1. |
| `PairwiseCoupling.BuildQ` | src/nodes/svm_node.cpp:150-158 | The in-place construction fills the array with Q. |
| `PairwiseCoupling.UpdateCoordinate` | src/nodes/svm_node.cpp:179-187 | One pass of the loop body over the arrays performs the specified update and leaves `Qp` and `pQp` describing the new vector. |
| `PairwiseCoupling.MulticlassProbability` | src/nodes/svm_node.cpp:145-190 | The imperative routine leaves in `p` the vector of the specification, for every number of classes from two. |
| `PairwiseCoupling.FillPairs` | src/nodes/svm_node.cpp:214-239 | After the pair loop every ordered pair holds its clamped estimate or the complement of it: an estimate between 1e-7 and 1 - 1e-7 itself, any other the nearer end. |
| `PairwiseCoupling.EstimatesRecovered` | src/nodes/svm_node.cpp:214-241 | The last clause as a theorem on the estimates themselves. |
| `PairwiseCoupling.ClassProbabilities` | src/nodes/svm_node.cpp:214-241 | Whatever the pairwise estimates, one sample gets a nonnegative vector of total at least 1, exactly 1 if and only if the iteration's clamp stayed quiet; estimates in range that come from one distribution are explained to within 0.04/K by a converged run without a clamp. |
| `FactorAnalysis.UndoneInProduct` | src/operator_registry.cpp:2709-2731 | The column operation that mirrors a row swap, scaling or subtraction undoes it inside a product: m0 = L m is kept. |
| `FactorAnalysis.ProductKept` | src/operator_registry.cpp:2709-2731 | Applied to both buffers, each row operation keeps m = inv m0. |
| `FactorAnalysis.SwapStep` | src/operator_registry.cpp:2709-2715 | The pivot swap keeps both links and every column already reduced. |
| `FactorAnalysis.ScaleStep` | src/operator_registry.cpp:2716-2720 | Dividing by the pivot keeps them and makes the diagonal entry 1. |
| `FactorAnalysis.SubtractStep` | src/operator_registry.cpp:2721-2731 | Clearing one row keeps them and extends the cleared part of the column. |
| `FactorAnalysis.Finish` | src/operator_registry.cpp:2698-2734 | When every column is reduced, `inv` is the inverse of the original matrix on both sides, without using its symmetry. |
| `FactorAnalysis.SmallPivot` | src/operator_registry.cpp:2700-2708 | When no entry left in a column reaches 1e-300, the original matrix sends some vector with an entry 1 to one below 1e-300 in every entry. |
| `FactorAnalysis.PosteriorAboveIdentity` | src/operator_registry.cpp:2676-2697 | With no negative noise variance the matrix I + Wpsi C' is at least the identity as a quadratic form, zero variances included. |
| `FactorAnalysis.NonnegNeverSingular` | src/operator_registry.cpp:2684-2708 | For nonnegative noise variances the matrix is never nearly singular, so the fallback branch is never taken. |
| `FactorAnalysis.EffectiveSolves` | src/operator_registry.cpp:2734-2747 | Each projected row z solves (I + Wpsi C') z = Wpsi (x - mean). |
| `FactorAnalysis.SolutionUnique` | src/operator_registry.cpp:2660-2671 | That system has no other solution. |
| `FactorAnalysis.FindPivot` | src/operator_registry.cpp:2700-2704 | The pivot row has the largest magnitude of the rows left. |
| `FactorAnalysis.Invert` | src/operator_registry.cpp:2698-2732 | The in-place loop returns ok with a two-sided inverse, or not ok for a nearly singular matrix. |
| `FactorAnalysis.LinearProject` | src/operator_registry.cpp:2555-2571 | Every output is the centred row times the component row. |
| `FactorAnalysis.MeanProjectsToZero` | src/operator_registry.cpp:2563-2566 | A row equal to the mean is projected to zero. |
| `FactorAnalysis.MeanHasZeroPosterior` | src/operator_registry.cpp:2660-2671 | Its posterior mean is zero. |
| `FactorAnalysis.ShiftInvariant` | src/operator_registry.cpp:2563-2566 | Adding one vector to every row and to the mean changes neither the projection nor the posterior means. |
| `FactorAnalysis.NoMeanNoShift` | src/operator_registry.cpp:2563-2566 | Without a mean every output is the row times the component row. |
| `FactorAnalysis.FactorAnalysis` | src/operator_registry.cpp:2672-2753 | With noise variances the rows of the result are the posterior means unless the matrix is nearly singular, always so when no variance is negative; without them, or in the singular case, they are the plain projection. |
| `ValueStores.ValueStore.constructor` | src/runtime_tensor.h:29-31 | A new store holds no value of its own and hangs on the given constants and parent. |
| `ValueStores.ValueStore.ChildScope` | src/runtime_tensor.h:33-35 | A child scope is empty, shares the constants, and sees a parent only when given one. |
| `ValueStores.ValueStore.Put` | src/runtime_tensor.h:37 | Putting changes the local map at one name and nothing else. |
| `ValueStores.ValueStore.GetIsLookup` | src/runtime_tensor.h:39-48 | Over shared constants the lookup chain equals one two-level lookup in the merged scopes. |
| `ValueStores.ValueStore.HasIffGet` | src/runtime_tensor.h:50-54 | `has` holds exactly when `get` does not throw. |
| `Slots.ScatterOutputs` | src/runtime_tensor.h:138-163 | One name takes the whole matrix; several take a column each, as far as names and columns go. |
| `Slots.GatherSlots` | src/runtime_tensor.h:78-130 | The slot-by-slot copies build the specified matrix, and fail exactly when a slot is missing, is not numeric or does not have the rows of the batch. |
| `Slots.ScatterGather` | src/runtime_tensor.h:78-163 | What one node scatters and the next gathers under the same distinct names is the same matrix in the same width, if and only if there is one name or a name for every column. |
| `Graphs.EnterScope` | src/nodes/composite_node.cpp:15-21 | The child scope holds exactly the aliased inputs; a missing input fails. |
| `Graphs.LeaveScope` | src/nodes/composite_node.cpp:27-32 | The parent store receives exactly the aliased outputs of the child. |
| `Graphs.Execute` | src/nodes/composite_node.cpp:9-34 | Executing a node, composites recursively, changes the store as the specification says and fails exactly when it does. |
| `Flattening.BuildRename` | src/graph_loader.cpp:2122-2130 | The rename map gives every inner name its parent name, output aliases winning over input aliases, identity aliases skipped. |
| `Flattening.Flatten` | src/graph_loader.cpp:2112-2141 | The loader's loop produces the flattened node list of the specification. |
| `Flattening.BodyAgrees` | src/graph_loader.cpp:2132-2138 | From related stores, the renamed body computes in the parent what the body computes in its isolated scope, and touches nothing but renamed written names. |
| `Flattening.CompositeAgrees` | src/graph_loader.cpp:2112-2141 | Inlining one hygienic composite preserves every value the parent can see. |
| `Flattening.FlatteningPreserves` | src/graph_loader.cpp:2112-2141 | For a hygienic graph, whenever execution with isolated scopes succeeds, the flattened graph succeeds and holds the same value for every name of the original store. |
| `Flattening.FlattenedOutputsEqual` | src/graph_loader.cpp:2112-2141 | In particular every output of the graph is the same after flattening. |
| `Flattening.PassThroughBreaks` | src/graph_loader.cpp:2124-2130 | Counterexample: an output that the body only passes through is lost by the rewrite. |
| `Flattening.AttributeBreaks` | src/graph_loader.cpp:2132-2136 | Counterexample: a name read through an attribute is not renamed. |
| `Flattening.PrivateNameBreaks` | src/graph_loader.cpp:2132-2138 | Counterexample: a private inner name overwrites a parent value of the same name. |
| `Flattening.NestedBreaks` | src/graph_loader.cpp:2133-2136 | Counterexample: the aliases of a composite inside a composite are not renamed. |
| `Flattening.DoubleOutputBreaks` | src/graph_loader.cpp:2129-2130 | Counterexample: one inner name exported twice keeps only its last parent name. |
| `Flattening.HiddenConstantBreaks` | src/graph_loader.cpp:2132-2138 | Counterexample: a local of the parent that hides a constant the body reads. |
| `Flattening.SharedNameBreaks` | src/graph_loader.cpp:2124-2130 | Counterexample: an inner name that is already called like an output. |
| `Flattening.SharedInputBreaks` | src/graph_loader.cpp:2124-2127 | Counterexample: two inputs under one inner name. |
| `Flattening.UnusedInputForgotten` | src/nodes/composite_node.cpp:16-21 | The converse fails even for a hygienic composite: without an input its body does not use, the original fails and the flattened graph runs. |
| `SymbolicRuns.SurvivorsPreserved` | src/graph_loader.cpp:2112-2141 | A graph that passes this test is preserved for all values and all operators, hygienic or not. |
| `SymbolicRuns.OthersBroken` | src/graph_loader.cpp:2112-2141 | A graph that fails it is broken by flattening for operators the lemma names. |
| `SymbolicRuns.SurvivesIff` | src/graph_loader.cpp:2112-2141 | One run over terms decides: flattening preserves a graph for all operators over terms if and only if the flattened graph, allowed only the operator applications that the original makes, ends with the same terms. |
| `SymbolicRuns.HygienicSurvive` | src/graph_loader.cpp:2112-2141 | Every hygienic graph passes. |
| `Expressions.ClampMeans` | src/expression_eval.cpp:127-132 | `clamp` lands between its bounds and leaves values inside them alone; a missing value becomes the lower bound. |
| `Expressions.CoalesceMeans` | src/expression_eval.cpp:133-139 | `coalesce` gives the first value present, and is missing exactly when all are. |
| `Expressions.RunCoalesce` | src/expression_eval.cpp:133-139 | The nested loops find, in every row, the first argument that is not missing. |
| `Expressions.RunBuiltin` | src/expression_eval.cpp:121-169 | The row loops compute the specified column: row i of a built-in function is its row function at row i of the arguments, except that the leaky_relu slope is taken from row 0. |
| `Expressions.EvalEach` | src/expression_eval.cpp:105-110 | Arguments are evaluated left to right up to the first that fails. |
| `Expressions.EnterCall` | src/expression_eval.cpp:182-187 | The child scope of a call shows the arguments over everything its caller sees. |
| `Expressions.RunCall` | src/expression_eval.cpp:112-193 | Dispatch of a call: special forms, text functions, the table, then user functions with the exact arity; anything else fails. |
| `Expressions.EvalExpr` | src/expression_eval.cpp:221-243 | Evaluation over a chain of stores equals the specification over the merged scopes. |
| `BuiltinLaws.BaseMeans` | src/expression_eval.cpp:112-119 | The namespace prefix is taken off once, and only where a name follows it. |
| `BuiltinLaws.DispatchExact` | src/expression_eval.cpp:121-153 | Which names with how many arguments are special forms. |
| `BuiltinLaws.DispatchOthers` | src/expression_eval.cpp:155-171 | Any other name is a text function, an entry of the table, or not built in, in that order. |
| `BuiltinLaws.IfMeans` | src/expression_eval.cpp:121-126 | `if` gives the second argument wherever the first is missing or not 0, and the third where it is 0. |
| `BuiltinLaws.ClampCallMeans` | src/expression_eval.cpp:127-132 | `clamp` keeps values between its bounds, moves others to the bound they pass, and a missing one to the lower bound. |
| `BuiltinLaws.CoalesceCallMeans` | src/expression_eval.cpp:133-139 | `coalesce` gives the first argument present in the row, and is missing only where all are. |
| `BuiltinLaws.FillMeans` | src/expression_eval.cpp:140-146 | `fill_missing` and `replace_missing` keep a present value and replace a missing one by the second argument's. |
| `BuiltinLaws.LeakyReluMeans` | src/expression_eval.cpp:147-153 | `leaky_relu` keeps positive values and multiplies any other by 0.01 or by row 0 of the second argument. |
| `BuiltinLaws.TableMeans` | src/expression_eval.cpp:168-169 | A table function gives what the table says of the arguments of the row, in their order. |
| `BuiltinLaws.TextFunctionsAreMissing` | src/expression_eval.cpp:154-166 | Text functions are missing in every row. |
| `BuiltinLaws.LeavesMean` | src/expression_eval.cpp:226-237 | A literal is the same in every row, a column its cell of the row, missing for text. |
| `Inlining.EvalFramed` | src/expression_eval.cpp:182-188 | Two scopes that agree on the names an evaluation may read, callees included, give it the same result. |
| `Inlining.SubstSound` | src/expression_eval.cpp:182-188 | If no callee reads a parameter from the scope it is called in, the body in the call's scope equals the substituted body in the caller's scope. |
| `Inlining.InlineExact` | src/expression_eval.cpp:171-189 | If no function that the body calls reads a parameter from it, a user-function call equals its inlined body once its arguments evaluate, and fails otherwise. |
| `Inlining.ReadsFound` | src/expression_eval.cpp:105-110 | Arguments being eager, an evaluation that succeeds has found every name it may read, callees included. |
| `Inlining.InlinedFails` | src/expression_eval.cpp:182-188 | Without such a name in the caller the inlined body fails, whatever the call gives. |
| `Inlining.InlineIff` | src/expression_eval.cpp:171-189 | A call that succeeds equals its inlined body if and only if no function that the body calls reads a parameter from it, provided the caller has no name of its own that such a function would find instead. |
| `Inlining.ExpandSound` | src/expression_eval.cpp:171-189 | Every expression that evaluates equals its innermost-first expansion, which calls no user function, with no condition on the bodies: this order of inlining follows the dynamic scope. |
| `Inlining.OpenCalleeBreaks` | src/expression_eval.cpp:182-188 | A concrete callee that reads its caller's parameter: called it gives 5, inlined it fails. |
| `Inlining.UnusedArgumentFails` | src/expression_eval.cpp:105-110 | Counterexample in the other direction: an unused argument that fails makes the call fail, the inlined body succeeds. |
| `Inlining.EvalRowLocal` | src/expression_eval.cpp:102-243 | On a slice of the rows evaluation gives that slice of the result and fails exactly where it fails on all rows, provided nothing met in it depends on where the slice starts: every leaky_relu slope column and every constant of several rows that is read agrees with itself on these rows. |
| `Inlining.BuiltinRowLocalIff` | src/expression_eval.cpp:121-169 | A built-in function is row-local on any slice, leaky_relu with a slope column if and only if on every row of the slice the slopes of row 0 and of the first row of the slice are equal or the input makes them irrelevant. |
| `Inlining.ConstantRowLocalIff` | src/expression_eval.cpp:230-237 | Reading a constant is row-local on a slice if and only if its cells at i and at i minus the start of the slice are equal there. |
| `Inlining.VaryingSlopeBreaks` | src/expression_eval.cpp:147-152 | A concrete slope column that differs between rows. |
| `Inlining.LongConstantBreaks` | src/expression_eval.cpp:230-237 | A constant of two rows: evaluated alone, row 1 reads the first. |
| `GraphExecutor.ChunkIsSlice` | src/graph_executor.cpp:93-204 | For row-local nodes, running the graph over rows lo to hi gives those rows of every output that the store serves, and every constant of the model whole. |
| `GraphExecutor.WideIsNamed` | src/graph_executor.cpp:102-188 | The two ways of supplying inputs agree: a run over one wide numeric tensor equals a run over its columns under the names of the slots. |
| `GraphExecutor.SlotsHoldRows` | src/graph_executor.cpp:136-187 | A float or text input supplied by name arrives in its slot as its rows lo to hi. |
| `GraphExecutor.ConvertMeans` | src/graph_executor.cpp:108-119 | Dense floats are fed as they are, everything else numeric cell by cell as dense floats. |
| `GraphExecutor.OutputsReturned` | src/graph_executor.cpp:190-204 | The results are the requested outputs and no others, each as the store holds it or, failing that, the constants. |
| `GraphExecutor.RowHasOneTask` | src/graph_executor.cpp:244-251 | For every batch and thread count each row belongs to exactly one task. |
| `GraphExecutor.ChunkIsCeil` | src/graph_executor.cpp:244 | The chunk size is the least with which the threads cover the batch. |
| `GraphExecutor.RawRoundTrip` | src/graph_executor.cpp:207-225 | A dense tensor is determined by its type, shape and bytes. |
| `GraphExecutor.VcatStacks` | src/graph_executor.cpp:207-225 | Copying parts of one type and width fills the result without gap or overlap and stacks their rows, when the copy width is the element size. |
| `GraphExecutor.VcatExactIff` | src/graph_executor.cpp:216-221 | Joining is exact for every input of an element type if and only if the copy width is its size: floats and 4-byte integers, not 8-byte integers, bytes or text. |
| `GraphExecutor.CopiedWhole` | src/graph_executor.cpp:216-221 | Those element types are exactly Float32, Float64, Int32 and UInt32. |
| `GraphExecutor.WideCellsTorn` | src/graph_executor.cpp:219-221 | For 8-byte integers two joined cells come out different from what went in. |
| `GraphExecutor.NarrowCellsOverrun` | src/graph_executor.cpp:219-221 | For elements under 4 bytes the copy leaves the buffer it reads. |
| `GraphExecutor.PartsAssemble` | src/graph_executor.cpp:244-259 | After k tasks the nonempty slots, one for each task with rows, hold in order a prefix of every output that the store serves, and each constant once a slot. |
| `GraphExecutor.ParallelRepeats` | src/graph_executor.cpp:227-274 | The exact result in every case: the serial one, except that a cut batch returns every constant once per task that has rows. |
| `GraphExecutor.ParallelIsSerial` | src/graph_executor.cpp:227-274 | For row-local nodes and outputs that the join copies whole, every thread count and threshold: the result equals one serial run if and only if the batch is not cut, has one row, or no requested constant of the model has rows. |
| `GraphExecutor.ConstantOutputRepeats` | src/graph_executor.cpp:194-203 | A concrete graph, for any narrowing: two threads return the constant twice. |
| `GraphExecutor.VcatTensors` | src/graph_executor.cpp:207-225 | The copy loops over a zeroed byte buffer compute the specified tensor, and fail exactly when a copy would leave a buffer. |
| `GraphExecutor.Execute` | src/graph_executor.cpp:93-204 | The routine over a store binds, runs and collects as specified, for both ways of supplying inputs, and fails exactly when the specification does. |
| `GraphExecutor.RunTasks` | src/graph_executor.cpp:248-253 | In whatever order the tasks run, each slot ends with its own part. |
| `GraphExecutor.PredictNamed` | src/graph_executor.cpp:227-274 | The whole routine returns what the specification says, for every order of tasks in which each runs once. |
| `FlatPredict.ChunkRowIsRow` | src/graph_executor.cpp:14-33 | Over row-local nodes, row i of a chunk of the float path is that row of the whole batch if and only if every output that is a constant of the model reads alike in rows i and lo + i. |
| `FlatPredict.FlatRunsAsWide` | src/graph_executor.cpp:14-31 | The float entry point runs the graph on the store that the named entry point builds from the same matrix. |
| `FlatPredict.WriteOutput` | src/graph_executor.cpp:46-62 | The first rows of one output land in their rows and columns of the shared buffer, dense floats as they are and everything else converted, and no other cell changes. |
| `FlatPredict.WriteOutputs` | src/graph_executor.cpp:33-64 | The outputs fill each row from the left, side by side, and leave the rows of other chunks alone. |
| `FlatPredict.PredictChunk` | src/graph_executor.cpp:14-65 | A chunk writes its rows, and only those, exactly when the graph runs and its outputs fit a row. |
| `FlatPredict.RunTask` | src/graph_executor.cpp:78-84 | A task leaves in its rows what its chunk computes, and touches no row of another task. |
| `FlatPredict.Predict` | src/graph_executor.cpp:72-88 | For every thread count, threshold and order of the tasks, every row of the shared buffer ends as its own chunk computes it. |
| `FlatPredict.ParallelIsSerial` | src/graph_executor.cpp:72-88 | What the call leaves in the buffer is what one thread would have, if and only if the batch is not cut or the constants of the model among the outputs read alike from the start of every chunk. |
| `BSplines.BsplineBasis` | src/operator_registry.cpp:1399-1423 | The loop that overwrites one buffer level by level computes the recursive definition. |
| `BSplines.ZeroOutside` | src/operator_registry.cpp:1405-1419 | A basis function is zero outside its knots. |
| `BSplines.NeverNegative` | src/operator_registry.cpp:1405-1419 | A basis function is never negative. |
| `BSplines.PositiveInside` | src/operator_registry.cpp:1410-1419 | Strictly between its first and last knot a function of degree above 0 is positive if and only if the knot interval that holds x is wider than 1e-10. |
| `BSplines.PartitionOfUnity` | src/operator_registry.cpp:1405-1423 | On [t[degree], t[n - degree - 1]), above degree 0, the basis sums to exactly 1 where the knot interval that holds x is wider than 1e-10, and to 0 where it is not, whatever the other gaps. |
| `BSplines.PartitionEverywhereIff` | src/operator_registry.cpp:1405-1423 | The basis sums to 1 all over the interior if and only if every neighbouring pair of interior knots coincides or is more than 1e-10 apart. |
| `BSplines.IsCoxDeBoor` | src/operator_registry.cpp:1397-1423 | Above degree 0 the values are those of the textbook recurrence with 0/0 read as 0 at every x whose knot interval, if it has one, is wider than 1e-10; between the knots of a function, only there. |
| `BSplines.LastKnotVanishes` | src/operator_registry.cpp:1404-1408 | At the last knot every function of degree above 0 is zero, repeated knot or not: the special case for the last knot only acts at degree 0. |
| `BSplines.TinyGapLosesMass` | src/operator_registry.cpp:1412-1417 | A concrete knot vector with a gap of 5e-11 on which the basis sums to 0. |
| `Exponents.Generator.Gen` | src/operator_registry.cpp:1540-1553 | The recursive closure appends to `combos` every completion of `cur`, in order, and leaves `cur` as it was. |
| `Exponents.Enumerate` | src/operator_registry.cpp:1534-1557 | The operator's list is the zero vector, when bias is asked for, followed by those. |
| `Exponents.EnumerationExact` | src/operator_registry.cpp:1540-1557 | Without bias: exactly the vectors of that length with total degree in range (entries at most 1 for interactions), each once, in lexicographic order. |
| `Exponents.BiasDuplicatesIff` | src/operator_registry.cpp:1555-1557 | With bias there is no duplicate if and only if degree 0 is outside the requested range. |
| `Exponents.BiasFirst` | src/operator_registry.cpp:1555-1557 | The bias vector stands first, before the same list as without it. |
| `Exponents.NoFeatures` | src/operator_registry.cpp:1542-1546 | Without features the maximum degree is never looked at. |
| `Csr.Get` | include/omle/tensor.h:573-586 | For any row the loop computes the binary search, and for a well-formed store the element the store stands for. |
| `Csr.SearchIsAt` | include/omle/tensor.h:573-586 | With increasing columns the binary search agrees with the last stored entry of the column, or the fill. |
| `Csr.AllReachedIff` | include/omle/tensor.h:573-586 | For a row with distinct columns the search reaches every stored entry if and only if the columns increase. |
| `Csr.Expand` | include/omle/tensor.h:603-618 | Expansion writes, for every element, the converted value the store stands for. |
| `Csr.SparseCsr` | include/omle/tensor.h:306-331 | Float32 data more than half full becomes dense, everything else stays; the matrix is the same either way. |
| `Csr.ToSparse` | include/omle/tensor.h:344-376 | Compression builds a well-formed store that stands for the matrix with the elements not above the threshold replaced by 0. |
| `Csr.RoundTripIff` | include/omle/tensor.h:356-362 | Compressing and expanding returns the matrix if and only if every element is kept or is 0; at threshold 0, if and only if no element is NaN. |
| `Csr.UnsortedRowDiffers` | include/omle/tensor.h:575-584 | A store with columns out of order on which search and expansion disagree. |
| `Schema.ClampToExtreme` | src/model_schema.cpp:22-34 | The loop keeps the first of the nearest clamped values. |
| `Schema.NearestIsClosest` | src/model_schema.cpp:22-34 | For closed intervals that value lies in one of them and no point of any of them is nearer. |
| `Schema.OpenEnds` | src/model_schema.cpp:22-34 | An open end stands for the float next to it, and ends that cross for the middle between them. |
| `Schema.ExtremeIsAllowed` | src/model_schema.cpp:79-92 | Under "as extreme value" and closed intervals a number leaves the schema inside an interval, unchanged if it was inside. |
| `Schema.ApplyMeans` | src/model_schema.cpp:52-95 | Every way through the schema: which policy decides, and what each gives. |
| `Schema.AdjustedMeans` | src/model_schema.cpp:99-168 | The schema decides on the float; a double whose float passes unchanged is kept. |
| `Schema.BuildSchemaNode` | src/graph_loader.cpp:1692-1710 | Batch mode is chosen exactly for one shared source, columns in order and no feature declared as text. |
| `Schema.PatchNode` | src/graph_loader.cpp:2079-2105 | A consumer is rewired to the batch tensor exactly when its inputs are the features in order. |
| `Schema.PatchedMeans` | src/graph_loader.cpp:2093-2105 | A rewired consumer reads the source's name with `__batch__` behind it. |
| `Schema.InOrderMeansDistinct` | src/graph_loader.cpp:2093-2103 | That check also makes sure that no two features share a name. |
| `Schema.Execute` | src/model_schema.cpp:99-168 | The schema node, in both modes and widths, changes the store as specified. |
| `Schema.BatchMeansFeatures` | src/graph_loader.cpp:2086-2105 | A rewired consumer that concatenates sees the same matrix in the same width as from the single features, whatever width it asks for, if and only if no feature before the last is named after the source. |
| `Schema.OneTensorGathered` | src/runtime_tensor.h:78-130 | A consumer of one tensor sees its elements, rounded exactly where it asks for floats and gets doubles. |
| `Schema.WidthGathered` | src/runtime_tensor.h:78-130 | The width of what is gathered is the first slot's or the widest, as the consumer asks. |
| `Schema.OtherConsumersFail` | src/model_schema.cpp:100-138 | In batch mode a consumer that names a feature, but not all of them in order, fails. |
| `Schema.OtherConsumersIff` | src/model_schema.cpp:100-138 | For every consumer that is not rewired: with no feature among its inputs it sees in batch mode what it sees in per-feature mode, with any it fails; so batch mode is invisible to it if and only if it names no feature or would have failed before. |
| `Schema.TextSourceFails` | src/graph_loader.cpp:1702-1709 | A text source under any features not declared as text: the consumer's own inputs are there, the batch it was rewired to is not. |
| `OneHot.ReadingsAgree` | src/graph_loader.cpp:1510-1519 | For offsets that cover all features, in bounds and nondecreasing, the loader's blocks are those of the generic operator. |
| `OneHot.BuildMap` | src/graph_loader.cpp:1523-1524 | The map built with `emplace` sends every category to its first position and knows no other. |
| `OneHot.BuildNode` | src/graph_loader.cpp:1501-1525 | For text categories and offsets that both readings take alike, the accelerated node serves the blocks the generic operator reads. |
| `OneHot.EncodeByScan` | src/operator_registry.cpp:1896-1937 | The generic operator's scans compute the specified row, for text and number cells against text or numeric categories. |
| `OneHot.EncodeByMap` | src/nodes/ohe_node.cpp:43-63 | The node's lookup computes the same specified row, for text and number cells. |
| `OneHot.OneHotBlocks` | src/operator_registry.cpp:1896-1937 | Every feature block holds zeros and at most one 1. |
| `OneHot.EncodedMeans` | src/operator_registry.cpp:1896-1937 | Every element of the row: 1 at the first place of the cell's own category in its block, or where a number counts to against text categories, else 0. |
| `OneHot.SplitLosesNothing` | src/nodes/ohe_node.cpp:65-77 | One output per feature carries, side by side, the columns of the single output. |
| `OneHot.NoOffsetsAgreeIff` | src/graph_loader.cpp:1510-1518 | Without offsets the loader's blocks are the generic operator's if and only if there is at most one feature or no category. |
| `OneHot.OffsetsAgreeIff` | src/graph_loader.cpp:1510-1518 | With offsets they are if and only if no offset read exceeds the categories and every feature after the first without an end begins where the categories end. |
| `Interpolation.QuantileTransform` | src/operator_registry.cpp:1373-1387 | The binary search ends in the only bracket with refs[lo] <= x < refs[hi], and the element is the specified interpolation. |
| `Interpolation.NormContinuous` | src/operator_registry.cpp:2392-2429 | The same for NormContinuous, over a slice of shared points, with its cases for no point and one point. |
| `Interpolation.BracketUnique` | src/operator_registry.cpp:1379-1383 | For sorted references there is at most one bracket. |
| `Interpolation.QuantileMonotone` | src/operator_registry.cpp:1373-1387 | For sorted references and levels the map is nondecreasing over the whole line and stays between the clamped end levels. |
| `Interpolation.NormMonotone` | src/operator_registry.cpp:2399-2430 | Likewise for NormContinuous with outliers as extreme values. |
| `Interpolation.NormHitsKnots` | src/operator_registry.cpp:2407-2426 | Strictly increasing points are mapped exactly to their partners, the end points included. |
| `Interpolation.EndPointsAreOutliers` | src/operator_registry.cpp:2409-2412 | Under any other outlier treatment the first and the last point themselves become NaN, and no other point does. |
| `Interpolation.NormRoundTrip` | src/operator_registry.cpp:2407-2426 | With strictly increasing points the map with the two rows swapped is its inverse. |
| `RegisteredColumns.BindColumns` | src/c_api.cpp:772-799 | Fresh binding builds the specified map, later columns of a name winning. |
| `RegisteredColumns.BoundMeans` | src/c_api.cpp:772-799 | For distinct columns each name holds its caller's buffer row by row, with empty text for an absent string and zeros for an absent buffer. |
| `RegisteredColumns.Session.constructor` | src/c_api.cpp:866-904 | Registration links every column to the cell of its name, sized for one row. |
| `RegisteredColumns.Session.Fill` | src/c_api.cpp:922-980 | One call, through the pointers, on the same or another number of rows, moves the cache as the specification says. |
| `RegisteredColumns.CacheTyped` | src/c_api.cpp:911-980 | After any sequence of calls every name has one tensor of its declared type, sized for the last call. |
| `RegisteredColumns.CacheCoherent` | src/c_api.cpp:911-980 | After any sequence of calls, a call that supplies its number columns runs on exactly the inputs fresh binding would build, also when columns share a name. |
| `RegisteredColumns.CoherentIff` | src/c_api.cpp:911-980 | For distinct columns and any calls, a call runs on exactly the inputs fresh binding would build if and only if it changes the number of rows or every number column without a buffer holds zeros from before. |
| `RegisteredColumns.AbsentBufferIsStale` | src/c_api.cpp:938-950 | A concrete call whose absent number buffer keeps the values of the call before, where fresh binding gives zeros. |
| `RegisteredColumns.StoreResults` | src/c_api.cpp:367-380 | The search-and-assign loop stores the results as specified. |
| `RegisteredColumns.OutputsStayPut` | src/c_api.cpp:364-380 | Over any sequence of results an output keeps the slot it got first and holds the latest result of its name. |
| `RegisteredColumns.NeverOutgrows` | src/c_api.cpp:98-102 | The vector of outputs never outgrows the room reserved for the declared outputs. |
| `NeuralNetwork.ForwardLayer` | src/nodes/neural_network_node.cpp:81-95 | From distinct buffers a layer writes the activated affine image of its input. |
| `NeuralNetwork.RunSample` | src/nodes/neural_network_node.cpp:124-138 | However often the buffers have been swapped, they never coincide, and the last one written holds the composition of all layers. |
| `NeuralNetwork.Compute` | src/nodes/neural_network_node.cpp:111-140 | Every sample gets the composition of all layers, with two buffers shared by all samples and never cleared. |
| `NeuralNetwork.WeightedIsSum` | src/nodes/neural_network_node.cpp:89-93 | The accumulated output is bias plus the weighted sum. |
| `NeuralNetwork.LayerMeans` | src/nodes/neural_network_node.cpp:88-95 | Before activation an output is its bias, or 0 where the layer has none, plus its weights times the input. |
| `LinearKernels.FmaAdvances` | src/nodes/linear_node.cpp:55-66 | One vector step of any lane width takes exactly the next products into the horizontal sum. |
| `LinearKernels.DotFour` | src/nodes/linear_node.cpp:50-68 | Four accumulators, a vector tail and a scalar tail give the plain sum, for every length and lane width. |
| `LinearKernels.DotTwo` | src/nodes/linear_node.cpp:70-80 | So do two accumulators and a scalar tail. |
| `LinearKernels.Dot` | src/nodes/linear_node.cpp:45-87 | Whatever the target, the dot product is the plain sum. |
| `LinearKernels.PredictSingleOutput` | src/nodes/linear_node.cpp:89-178 | For each of the three targets every sample, interleaved by four or left over, gets the plain sum plus the intercept. |

## Left out

- Protobuf decoding, file loading, warm-up and status codes: I/O and plumbing; an error or exception is `None` or `false`.
- IEEE rounding, infinities, signed zeros and integer overflow (the pool's `generation_`, row counts, 32-bit offsets): values are reals and unbounded integers.
- The memory model below sequential consistency: the unlocked read of `generation_` at src/thread_pool.cpp:24 and of `fn_` at line 39 are atomic steps of their own.
- Callables that throw, or that call `parallel_for` on their own pool.
- Raw row-major buffers: matrices in place are two-dimensional arrays or sequences of rows; only the pairwise table of the SVM and the joined tensors are flat.
- Nodes of a graph are values: the loader's renaming in place and its moves of owned nodes become new values, so sharing of a node object is not captured.
- Flattening.FlatteningPreserves: says nothing about graphs whose original execution fails (`Flattening.UnusedInputForgotten` shows why); its conditions are sufficient, the exact test is `SymbolicRuns.SurvivesIff`.
- The registered operators themselves: in `Graphs` an operator is a parameter that maps input values to output values, in `GraphExecutor` a node is a parameter on stores.
- ThreadPool.OverlapLosesUnclaimed: the continuations are those of the workers and the first dispatcher; a second call with the same callable is left out, since a task of the same number may then run for it.
- Inlining.InlineIff: where the caller has a name of its own that a called function would read instead of the parameter, the two may or may not differ, depending on the values.
- Inlining.EvalRowLocal: its condition is exact at every read and call (`Inlining.ConstantRowLocalIff`, `Inlining.BuiltinRowLocalIff`), not for a whole expression, where a later function may hide a difference.
- Schema.OtherConsumersIff: requires that no feature before the last is named after the source, and that the feature names the consumer asks for are not in the store before.
- GraphExecutor.ParallelIsSerial: requires the serial run to succeed and all inputs to have the same number of rows, which the code does not check, and outputs that `GraphExecutor.VcatExactIff` admits; an exception inside a worker ends the process and is outside the theorem.
- GraphExecutor.VcatTensors: a copy that leaves its buffer, undefined in the code, is `None` here.
- Expressions.RunBuiltin: the arithmetic of the table functions is a parameter; dispatch, arity, rows and missing values are modelled.
- FlatPredict.Predict: requires the declared outputs to fit a row of the buffer, which has two dimensions here; in the code a wider row runs on into the next one.
- FlatPredict.WriteOutputs: the same, for one chunk.
- FlatPredict.RunTask: the same, for one task.
- Expressions.EvalExpr: user functions that call themselves are outside the model (the code does not terminate on them), and so are reads behind the last row of a column or calls of table functions with too few arguments, which are undefined in the code and stand for NaN or failure here.
- Predicates (`eval_pred`) and the nesting of thread-local function contexts; the active function map is a parameter.
- BSplines.PartitionOfUnity: the loop of `op_spline_transformer` around the basis, and the write-back at the tensor's width.
- Evaluation of the polynomial terms: only the enumeration of exponents is modelled.
- FactorAnalysis.NonnegNeverSingular: says nothing about negative noise variances, which no fitted model has; for them `FactorAnalysis.FactorAnalysis` leaves both outcomes open.
- PairwiseCoupling.NearlyOptimal: says nothing about runs that end at the iteration limit or clamp an entry.
- The kernel rows, decision values and Platt sigmoids that feed the pairwise estimates.
- Schema.NearestIsClosest: closed intervals only; for open ones the neighbouring floats are parameters and the nearest point need not exist.
- Operators that are not concatenations: the loader rewires them too, although a sum or maximum over n inputs is another thing over one wide input.
- Csr.Get: the element bytes and their decoding by type are not modelled; a stored element is a number.
- RegisteredColumns.CacheCoherent: requires columns of one name to have one type; the code does not check it and would write one type's bytes into another type's buffer.
- RegisteredColumns.CoherentIff: distinct column names; with a repeated name an absent buffer may follow a supplied one of the same name within one call.
- RegisteredColumns.Session.constructor: a registered one-row cell has kind scalar in the code and becomes a dense tensor at the first rebuild; the model has one kind, so "exactly the inputs" means values, type and shape.
- OneHot.EncodeByMap: one row of cells, so that one wide input and one input per feature are the same thing; the thread-local scratch buffer that is reused and zeroed on each call is a fresh row here.
- OneHot.EncodeByScan: one row of cells, likewise.
- The probit output of the quantile transformer, softmax and the other activations: a monotone or vector function applied afterwards, a parameter of the layer.
- LinearKernels.PredictSingleOutput: the interleaved loops of the two instruction sets, which differ only in the names of their loads, are modelled once; rounding differences between the kernels are not.
- Tree ensembles, naive Bayes, Gaussian mixtures, regular expressions, hashing, scalers and the other element-wise operators: library-bound, or only easy properties.
- Python, Java and command-line front ends.
