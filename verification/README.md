# SensorBee in Dafny

This project models the stream processing core of SensorBee and proves what it is relied on for. Each
module stands for one part of the system.

* `Values`, `Hash`, `Streaming`: the dynamically typed data, its equality, the byte stream that is hashed,
  and what can be read back from it.
* `Streams`, `Buffers`, `Rows`, `Product`, `Engine`: windows, the join that only looks at combinations
  with the new tuple, and the rows kept between calls. `Streams` is purely declarative: windows and the
  joined, filtered view are functions of the arrival history.
* `Emission`, `SelectPlan`, `Runs`: RSTREAM, ISTREAM and DSTREAM by counters in hash buckets, the SELECT
  plan with its cached projections and two result slices, and the laws of whole runs.
* `FilterPlan`: the fast plan.
* `GroupBy`, `Flatten`, `Evaluation`, `GroupPlan`: grouping, the separation of aggregates from an
  expression, the laws of the evaluators, and the grouping plan end to end.
* `Limit`: LIMIT and sampling, with and without a timer thread.
* `Lifecycle`, `Pipe`, `Pouring`, `Rewind`: the concurrent protocols, as steps of any number of threads.
  A step is what happens between taking and releasing a lock, or between two waits.
* `JsonPath`: setting entries of nested maps and arrays.

Filters, projections, functions, the clock, random choices, map iteration orders, the scheduler and the
64-bit hash function are parameters, so the results hold for all of them. Object addresses are modelled by
positions and ids. The engine assumes what the analyzer ensures: at least one relation, positive ranges.

## What the code does not do

Some expected properties turned out to hold only under a condition. The condition is proved exact.

* A step whose filter fails keeps its tuple in the windows but never retries the other combinations of
  that step, until its tuple has left all windows (`Runs.FailedStepLosesRow`, `Runs.RowsCompleteIff`,
  `Runs.RowsHeal`).
* A result row whose hash is 0 makes ISTREAM and DSTREAM fail (`Emission.EmitSurplus`).
* Equality through doubles is not transitive, and equal integers and doubles are hashed differently, exactly
  for the integers named in `Hash.TransitiveThroughDoublesIff` and `Hash.IntFloatStreamIff`; NaN is not equal
  to itself (`Hash.ReflexiveIffNaNFree`).
* Several callers are told to stop a component that is kept initialized (`Lifecycle.TwoKeepers`,
  `Lifecycle.SingleStopWinnerIff`).
* A Stop that returns without error does not exclude a last write if another Stop was forced before it
  (`Rewind.LateWrite`, `Rewind.StopIsFenceIff`).
* Times that differ by less than a microsecond are not equal but hashed from the same bytes
  (`Streaming.SameStreamIff`).
* A failing set changes the map if it had to create something in front of a slice, a recursive component or
  a negative index (`JsonPath.ObstructedSet`). The comment of the set method does not mention it.
* Two aggregate inputs whose truncated hashes collide are confused (`Flatten.CollisionComputesOther`,
  `Flatten.SuppliedIff`).
* A selector on an aggregate with ORDER BY or on now() cannot be evaluated (`Flatten.BuildableIffPlain`,
  `Flatten.SelectorIffPlain`). The model lets the evaluation fail where the system panics while it builds
  the plan.

## Model

| member | source | states |
|---|---|---|
| `Streams.WindowStep` | bql/execution/stream_relation_stream_execution_plan.go:219-268 | the declared window after one more arrival is exactly what eviction retains of the window before, plus the new tuple, for both window kinds and any timestamps |
| `Streams.WindowFacts` | bql/execution/stream_relation_stream_execution_plan.go:172-214 | a window lists tuples of its own input only, oldest first, each once |
| `Streams.TupleWindowIff` | bql/execution/stream_relation_stream_execution_plan.go:224-243 | a tuple window holds a tuple of its input if and only if fewer than its count of later tuples of that input have arrived |
| `Streams.TupleWindowSize` | bql/execution/stream_relation_stream_execution_plan.go:224-243 | a tuple window holds as many tuples as its count, or all that were received if they are fewer |
| `Streams.TimeWindowIff` | bql/execution/stream_relation_stream_execution_plan.go:244-264 | a time window holds a tuple of its input if and only if no arrival of any input since was more than the range later than it |
| `Streams.NewestIsLast` | bql/execution/stream_relation_stream_execution_plan.go:172-214 | the tuple just received is the last element of every window of its input and in no other |
| `Streams.TimeWindowIsAge` | bql/execution/stream_relation_stream_execution_plan.go:219-268 | with nondecreasing timestamps a time window holds a tuple if and only if its age is at most the range |
| `Streams.WindowShrinks` | bql/execution/stream_relation_stream_execution_plan.go:219-268 | a window never takes an old tuple back |
| `Streams.ViewStep` | bql/execution/stream_relation_stream_execution_plan.go:437-525 | how one arrival changes the declared view: old combinations stay exactly while they stay in the windows, new ones enter exactly if they pass and the step does not fail |
| `Streams.StepFailsStable` | bql/execution/stream_relation_stream_execution_plan.go:516-523 | whether a step failed never changes afterwards |
| `Buffers.KeptIsWindow` | bql/execution/stream_relation_stream_execution_plan.go:219-268 | appending the tuple and evicting leaves exactly the declared window in a buffer |
| `Rows.CondemnedIffGone` | bql/execution/stream_relation_stream_execution_plan.go:219-268 | back-pointers of expired tuples reach a row if and only if the row uses an expired tuple |
| `Rows.DropExpired` | bql/execution/stream_relation_stream_execution_plan.go:269-279 | the rows that are left are those that are not expired, in order |
| `Product.PreprocLeaf` | bql/execution/stream_relation_stream_execution_plan.go:563-611 | one combination: the filter is evaluated once, a passing row is collected and linked to all its tuples, a failing filter ends the run |
| `Product.PreprocCartProdInt` | bql/execution/stream_relation_stream_execution_plan.go:535-611 | for any number of relations in any order, the recursion evaluates each combination of the remaining ranges exactly once, collects exactly the passing ones, and fails if and only if the filter fails on one of them |
| `Engine.RunDomainIsBox` | bql/execution/stream_relation_stream_execution_plan.go:437-515 | the ranges of run i describe exactly the combinations in which relation i is the first of the new tuple's relations to use the new tuple |
| `Engine.DeltaStep` | bql/execution/stream_relation_stream_execution_plan.go:437-515 | the runs of a self-join are pairwise disjoint |
| `Engine.DeltaComplete` | bql/execution/stream_relation_stream_execution_plan.go:437-515 | together the runs cover exactly the new product minus the old product |
| `Engine.DeltaProduct` | bql/execution/stream_relation_stream_execution_plan.go:466-515 | all runs together evaluate exactly the combinations that use the new tuple, each once |
| `Engine.AcceptedIffJoined` | bql/execution/stream_relation_stream_execution_plan.go:172-214 | a tuple is accepted if and only if some buffer receives it |
| `Engine.EvictionKeepsView` | bql/execution/stream_relation_stream_execution_plan.go:219-280 | deleting the expired rows leaves exactly the part of the new view that does not use the new tuple |
| `Engine.Engine.EvictBuffer` | bql/execution/stream_relation_stream_execution_plan.go:219-268 | keeps the window of a buffer and collects exactly the rows derived from the tuples that leave |
| `Engine.Engine.EvictByCount` | bql/execution/stream_relation_stream_execution_plan.go:224-243 | leaves the newest tuples of a buffer, as many as the count or all, and collects exactly the rows derived from the others |
| `Engine.Engine.AddTupleToBuffer` | bql/execution/stream_relation_stream_execution_plan.go:172-214 | appends the tuple to every buffer of its input, or fails without effect if there is none |
| `Engine.Engine.RemoveOutdatedTuplesFromBuffer` | bql/execution/stream_relation_stream_execution_plan.go:219-280 | afterwards a row is present if and only if it was before and all its tuples are still buffered |
| `Engine.Engine.FilterInputTuples` | bql/execution/stream_relation_stream_execution_plan.go:437-525 | fails if and only if the filter fails on a combination with the new tuple, publishes nothing then, and always leaves exactly the declared view |
| `Engine.Engine.Ingest` | bql/execution/stream_relation_stream_execution_plan.go:410-425 | in every reachable state, failing steps included, the buffers are the declared windows and the rows are the declared view, once each |
| `Emission.SurplusIsDifference` | bql/execution/stream_relation_stream_execution_plan.go:337-404 | the emitted rows are the exact multiset difference for every class of equal rows |
| `Emission.CountIsNumber` | bql/execution/stream_relation_stream_execution_plan.go:284-306 | the count of a row among rows is the number of places that hold an equal row |
| `Emission.CurrentMultiplicity` | bql/execution/stream_relation_stream_execution_plan.go:284-306 | looks up the count of a row in its hash bucket |
| `Emission.IncrAndGetMultiplicity` | bql/execution/stream_relation_stream_execution_plan.go:312-331 | keeps the counters an exact tally under arbitrary hash collisions and returns the new count |
| `Emission.EmitSurplus` | bql/execution/stream_relation_stream_execution_plan.go:337-404 | emits exactly the surplus over the base counters and fails if and only if a row carries the hash 0 |
| `Emission.CountRows` | bql/execution/stream_relation_stream_execution_plan.go:337-404 | tallies all rows, and fails if and only if a row carries the hash 0 |
| `Emission.RowEmitter.ComputeResultTuples` | bql/execution/stream_relation_stream_execution_plan.go:337-404 | RSTREAM all rows, ISTREAM and DSTREAM the two differences; nothing changes on failure |
| `SelectPlan.Append` | bql/execution/default_select_execution_plan.go:58-122 | appending to a slice reuses its storage while there is room |
| `SelectPlan.Plan.PerformQueryOnBuffer` | bql/execution/default_select_execution_plan.go:58-122 | the two result slices never share storage; on success the older one is the last successful result, on failure the current result is untouched |
| `SelectPlan.Plan.Process` | bql/execution/stream_relation_stream_execution_plan.go:410-435 | every call is one step of the declarative semantics: window, SELECT, difference with the previous run; only the rows projected by the call must lie in the domain of the equality |
| `Runs.ResultUnique` | bql/execution/stream_relation_stream_execution_plan.go:62-72 | the result after a history is determined up to order by the history alone |
| `Runs.RunPlan` | bql/execution/default_select_execution_plan.go:43-52 | any sequence of calls whose projected rows lie in the domain is a run of the declarative semantics |
| `Runs.EveryCallIsExact` | bql/execution/stream_relation_stream_execution_plan.go:62-72 | end to end, for every run in which no combination of the windows causes an error: each accepted input emits exactly the RSTREAM, ISTREAM or DSTREAM of the SELECT over the windows of the input history; an input that no relation reads is refused and forgotten |
| `Runs.RunHistory` | bql/execution/stream_relation_stream_execution_plan.go:172-214 | in every run, failing calls included, a plan remembers exactly the accepted inputs |
| `Runs.EqualIsLawful` | data/hash.go:20-124 | any function that agrees with Hash on values without NaN and inexact integers may serve as the hash of a plan over Equal |
| `Runs.EveryCallIsExactForEqual` | bql/execution/stream_relation_stream_execution_plan.go:62-72 | the end-to-end result instantiated with Equal and Hash, for every run whose projected rows hold neither NaN nor inexact integers |
| `Runs.PassThroughIsCovered` | bql/execution/stream_relation_stream_execution_plan.go:410-435 | the hypotheses of the end-to-end result hold for a statement that passes a column on, as soon as the data received are comparable and have nonzero hashes |
| `Runs.InsertionsMinusDeletions` | bql/execution/stream_relation_stream_execution_plan.go:337-404 | over every run, failing calls included, whose results lie in the domain and have nonzero hashes, the current result is all insertions minus all deletions |
| `Runs.TotalFilterView` | bql/execution/stream_relation_stream_execution_plan.go:437-525 | if the filter failed on no combination of the history, the view is the whole filtered product |
| `Runs.RowsCompleteIff` | bql/execution/stream_relation_stream_execution_plan.go:516-523 | in every reachable state of the engine the kept rows are passing combinations of the windows, and all of them if and only if no failed step has a passing combination in the current windows |
| `Runs.StepFailsIff` | bql/execution/stream_relation_stream_execution_plan.go:566-592 | a step fails if and only if WHERE yields an error, or a value that is neither NULL nor a boolean, on a combination first seen in it |
| `Runs.RowsAreTrue` | bql/execution/stream_relation_stream_execution_plan.go:563-611 | in every reachable state of the engine the kept rows are exactly the combinations of the windows on which WHERE is absent or yields true, except those first seen in a step that failed |
| `Runs.RowsHeal` | bql/execution/stream_relation_stream_execution_plan.go:516-523 | once the tuples of all failed steps have left the windows, the kept rows are the whole filtered product again |
| `Runs.FailedStepLosesRow` | bql/execution/stream_relation_stream_execution_plan.go:516-523 | a history in which a failing step loses a passing combination |
| `FilterPlan.FilterPlanRefinesDefault` | bql/execution/filter_plan.go:18-94 | whenever the fast plan may be built, every step of the default plan returns the same rows or fails too, after any earlier errors |
| `Hash.ReflexiveIffNaNFree` | data/hash.go:33-124 | a value equals itself if and only if it holds no NaN at any depth |
| `Hash.EqualSymmetric` | data/hash.go:33-124 | equality is symmetric on all values |
| `Hash.EqualTransitive` | data/hash.go:33-124 | equality is transitive where integers are exactly representable as doubles |
| `Hash.InexactIntegers` | data/hash.go:57-74 | 2^53 + 1, its double and 2^53 are equal in turn but the first and the last are not, and the first two are hashed from different bytes |
| `Hash.LonelyIff` | data/hash.go:57-74 | an integer shares its double with no other 64-bit integer if and only if it is below 2^53, or below 2^54 and 2 modulo 4, in magnitude |
| `Hash.TransitiveThroughDoublesIff` | data/hash.go:57-74 | equality from an integer through a double always leads back to the same integer if and only if the integer satisfies that condition |
| `Hash.EqualSameStream` | data/hash.go:248-354 | equal nested values feed the same bytes to the hasher |
| `Hash.EqualAndHashAreLawful` | data/hash.go:20-124 | on NaN-free values with exact integers Equal is an equivalence that Hash respects: the hypothesis of every hash-bucketed structure here |
| `Hash.IntFloatStreamIff` | data/hash.go:264-285 | an integer and an equal double are hashed alike if and only if the integer is exactly representable |
| `Hash.PrimeProductInjective` | data/hash.go:228-242 | the multiplication in the integer encoding loses no information modulo 2^64 |
| `Hash.AppendInt64Injective` | data/hash.go:228-242 | different 64-bit integers are encoded differently |
| `Streaming.Cut32` | data/hash.go:218-226 | a 32-bit part of a stream can be read back: equal bytes mean the same type and the same number below 2^32 |
| `Streaming.StreamDetermines` | data/hash.go:248-310 | nested to any depth without maps: whatever follows them, equal bytes mean values that are equal up to the microsecond of times, and no stream is the beginning of another |
| `Streaming.SameStreamIff` | data/hash.go:248-310 | values without maps, NaN and inexact integers are hashed from the same bytes if and only if they are equal, times by the microsecond |
| `Streaming.ZerosEqual` | data/hash.go:57-74 | both zeros and the integer 0 are equal |
| `Hash.CarryTest` | data/hash.go:329-351 | the comparison of sum and bitwise or holds if and only if the 64-bit addition carries |
| `Hash.AccumulateStep` | data/hash.go:329-351 | one pass of the accumulation keeps (upper, lower) the sum modulo 2^96 |
| `Hash.MapDigest` | data/hash.go:312-351 | for every enumeration order (upper, lower) of a NaN-free map is the sum of the entry hashes modulo 2^96 |
| `Hash.UpdateHash` | data/hash.go:248-354 | the bytes of a NaN-free value are a function of the value alone, whatever the order of map entries; every NaN draws a new number, and only NaN does |
| `GroupBy.FindGroup` | bql/execution/groupby_execution_plan.go:114-161 | finds the first group of a bucket whose key equals the given one |
| `GroupBy.CollectAggs` | bql/execution/groupby_execution_plan.go:165-206 | appends the value of each aggregate input, in any order of the inputs, or fails if and only if one fails |
| `GroupBy.EvalItem` | bql/execution/groupby_execution_plan.go:114-206 | keeps the group table exact under hash collisions when one more row is added |
| `GroupBy.CollectGroups` | bql/execution/groupby_execution_plan.go:293-300 | fails if and only if some expression fails on some row; otherwise every row is in the table; only the keys of the given rows must lie in the domain |
| `GroupBy.TableIsPartition` | bql/execution/groupby_execution_plan.go:103-161 | the buckets in order of first use form a partition: different keys, each aggregate array the values of the members in row order |
| `GroupBy.RowInExactlyOneGroup` | bql/execution/groupby_execution_plan.go:103-161 | every row is a member of exactly one group |
| `GroupBy.PartitionUnique` | bql/execution/groupby_execution_plan.go:103-161 | the groups are determined by the rows |
| `GroupBy.EvalGroups` | bql/execution/groupby_execution_plan.go:208-256 | exactly the groups whose HAVING is true yield one row; fails if and only if HAVING or a projection fails on a group |
| `GroupBy.PerformQueryOnBuffer` | bql/execution/groupby_execution_plan.go:73-323 | the result is the output of the partition of the rows, with the case of an empty window without GROUP BY |
| `GroupPlan.GroupYieldsOriginal` | bql/execution/groupby_execution_plan.go:208-256 | every group yields, for each of its expressions, the value of the original, unflattened expression over the rows of the group |
| `GroupPlan.OutputIsOriginal` | bql/execution/groupby_execution_plan.go:208-256 | the output of the groups is the output of the original statement: one row per group on which the original HAVING is true |
| `GroupPlan.Plan.Process` | bql/execution/groupby_execution_plan.go:58-323 | every call of the grouping plan is one step of its declarative semantics over the view of the engine |
| `GroupPlan.RunGroupPlan` | bql/execution/groupby_execution_plan.go:58-72 | any sequence of calls of the grouping plan is a run of these steps |
| `GroupPlan.GroupCallIsExact` | bql/execution/groupby_execution_plan.go:73-323 | GROUP BY end to end: in every run a succeeding call has computed the original statement over the groups of the current view and emits exactly this result, its insertions or its deletions with respect to the call before |
| `GroupPlan.GroupFailsIff` | bql/execution/groupby_execution_plan.go:219-256 | a group fails if and only if the original HAVING on its rows is an error or neither NULL nor a boolean, or is true and the original projection has no value |
| `GroupPlan.YieldsOkIff` | bql/execution/groupby_execution_plan.go:208-300 | if no row fails, the query succeeds if and only if no group fails in terms of the original expressions, or for no rows without GROUP BY if the projection over no input has a value |
| `GroupPlan.GroupCallSucceedsIff` | bql/execution/groupby_execution_plan.go:58-323 | a call of the grouping plan succeeds if and only if its tuple is accepted, its step does not fail in WHERE, the original statement has a result over the groups of the view, and no row to be compared carries the hash 0 |
| `Flatten.FlatPreserves` | bql/execution/expressions.go:87-253 | conversion without aggregates preserves the value on every row |
| `Flatten.ArgsPreserve` | bql/execution/expressions.go:340-389 | references inserted for aggregation parameters evaluate to the values of the group, sorted if asked for |
| `Flatten.OrderingPreserves` | bql/execution/expressions.go:391-440 | the sort keys of an aggregate evaluate to the values of their expressions over the group |
| `Flatten.SplitPreserves` | bql/execution/expressions.go:258-574 | for every expression and every index the flat part has the value of the whole expression over the group |
| `Flatten.FlatteningPreservesMeaning` | bql/execution/expressions.go:258-574 | if the inputs asked for by the expression evaluate on the group and those that share an id have the same values, evaluating the flat part on the first row extended by the collected arrays equals evaluating the original expression with each aggregate applied directly to the group |
| `Flatten.SuppliedIff` | bql/execution/expressions.go:360-440 | every reference finds the values of its own input if and only if inputs that share an id have the same values on the group |
| `Flatten.DistinctIdsSuffice` | bql/execution/expressions.go:258-574 | distinct ids for the distinct inputs of the one expression suffice for its meaning |
| `Flatten.CollisionComputesOther` | bql/execution/expressions.go:360-389 | if the inputs of f(a) and f(b) share an id, f(a) op f(b) is flattened to something that computes f(b) op f(b) |
| `Flatten.BuildableIffPlain` | bql/execution/evaluators.go:209-216 | nested to any depth: evaluators can be built for the flat part and all its inputs if and only if every selector applies to an ordinary call or to an aggregate without ORDER BY |
| `Flatten.GroupRowProvides` | bql/execution/groupby_execution_plan.go:165-256 | the extended row keeps the columns of the representative and holds the collected values under every id |
| `Flatten.SelectorIffPlain` | bql/execution/evaluators.go:209-216 | where the original selector has a value, the converted one has the same value if and only if it applies neither to now() nor to an aggregate with ORDER BY |
| `Evaluation.LeafLaw` | bql/execution/evaluators.go:301-381 | the value of columns, timestamps, now(), collected arrays, literals and IS [NOT] MISSING on a row, and when there is none |
| `Evaluation.OrLaw` | bql/execution/evaluators.go:507-561 | OR is the maximum in the order false, NULL, true; a true left side decides alone, otherwise an error or any other value on either side is an error |
| `Evaluation.AndLaw` | bql/execution/evaluators.go:569-627 | AND is the minimum; a false left side decides alone |
| `Evaluation.OperatorLaw` | bql/execution/evaluators.go:396-406 | a cast passes NULL on; other operators see the values of their sides in order; errors pass through |
| `Evaluation.CaseLaw` | bql/execution/evaluators.go:1216-1233 | CASE: the first WHEN equal to the reference decides, without one the default does, and a WHEN that is reached and fails is an error |
| `Evaluation.GroupCaseLaw` | bql/execution/expressions.go:500-570 | the same over a group for the original; without a reference WHENs are compared with true, without a default the value is NULL |
| `Evaluation.CallLaw` | bql/execution/evaluators.go:929-981 | functions and arrays get the values of their arguments in order |
| `Evaluation.ArgumentFails` | bql/execution/evaluators.go:929-981 | an error in any argument, element or entry is an error of the whole |
| `Evaluation.MapLaw` | bql/execution/evaluators.go:1188-1199 | a map has exactly the given names, and the last entry given for a name counts |
| `Evaluation.GroupOperatorLaw` | bql/execution/expressions.go:258-574 | operators over a group see the values of their sides over the group, in order |
| `Evaluation.GroupLogicLaw` | bql/execution/expressions.go:258-574 | OR and AND over a group are the maximum and the minimum of the truth values |
| `Evaluation.GroupListLaw` | bql/execution/expressions.go:258-574 | arrays and maps over a group have the elements and entries of their parts |
| `Evaluation.GroupLeafLaw` | bql/execution/groupby_execution_plan.go:117-161 | what is not an aggregate takes its columns from the first row of the group |
| `Evaluation.ScalarSeesFirst` | bql/execution/groupby_execution_plan.go:117-161 | the value of an expression without aggregates over a group is its value on the first row |
| `Evaluation.AggregateLaw` | bql/execution/groupby_execution_plan.go:165-256 | an aggregate is called with the values of all rows in row order for its aggregation parameters, and with the value on the first row for the others |
| `Evaluation.CountStarLaw` | bql/execution/expressions.go:337-350 | count(*) is called with one non-NULL value per row |
| `Evaluation.OrdinaryCallLaw` | bql/execution/expressions.go:444-459 | any other function is called with the values of its arguments over the group |
| `Evaluation.PrecedesIff` | bql/execution/sort.go:39-51 | a row sorts before another if and only if the first key on which they are not equal says so, in its direction |
| `Evaluation.OrderedAggregateLaw` | bql/execution/evaluators.go:1022-1083 | with ORDER BY position j of an aggregation parameter holds the value of the row that the sort by the keys puts at j |
| `Evaluation.AggregateSeesOrder` | bql/execution/evaluators.go:1022-1083 | if the sorting routine sorts, an aggregate with ORDER BY gets the values of all rows, each once, none before one that sorts before it |
| `Evaluation.SortedCallLaw` | bql/execution/evaluators.go:1022-1083 | the flat form rearranges the collected array in the same way, and an array of another length than the keys is an error |
| `Lifecycle.StateHolder.SetWithoutLock` | core/topology_state.go:101-112 | refuses backward moves except from paused to running; every change wakes the waiting threads |
| `Lifecycle.StepKeepsInv` | core/topology_state.go:101-229 | every step of any thread keeps: nobody sleeps through the state waited for, one start winner, one mover to stopping |
| `Lifecycle.RunInv` | core/topology_state.go:101-229 | the invariant in every reachable state of every interleaving |
| `Lifecycle.RunForward` | core/topology_state.go:101-112 | over a whole run the phase never decreases and stopped is final |
| `Lifecycle.WaitReturnsSuccessor` | core/topology_state.go:114-132 | Wait returns only a successor of its target, and the phase seen is never undone |
| `Lifecycle.AlreadyStoppedMeansStopped` | core/topology_state.go:196-229 | a caller told that the component is already stopped sees it stopped from then on |
| `Lifecycle.CallerLearns` | core/topology_state.go:134-229 | in every run: a runner that wins is the only one ever told to start, one that loses finds the component running or beyond; a stopper told to stop is the only mover to stopping or was told so to keep an initialized component; one told it is too late finds it stopped |
| `Lifecycle.OrderIsPhase` | core/topology_state.go:101-132 | setting is allowed if and only if the phase does not decrease, and waiting ends if and only if the state itself or a later phase is reached |
| `Lifecycle.MoversIff` | core/topology_state.go:150-229 | in every run the threads told to start are exactly those whose Run found the component initialized, and those that moved it to stopping exactly those whose Stop found it running or paused or was woken when it ran |
| `Lifecycle.SleepsIff` | core/topology_state.go:114-229 | a call sleeps if and only if the component is starting or stopping, or the state waited for is not reached |
| `Lifecycle.StopInitialized` | core/topology_state.go:199-204 | a Stop of an initialized component stops it at once, or leaves it as it is if it is to be kept |
| `Lifecycle.MoverIsLast` | core/topology_state.go:209-213 | of two callers that are told to stop, the first one was told so only to keep an initialized component |
| `Lifecycle.SingleStopWinner` | core/topology_state.go:179-229 | in every run without keepInitialized at most one caller is ever told to stop |
| `Lifecycle.SingleStopWinnerIff` | core/topology_state.go:179-229 | for every run: no two callers are told to stop if and only if nobody is told to stop after a call that kept the component initialized |
| `Lifecycle.TwoKeepers` | core/topology_state.go:199-202 | a run in which two threads are both told to stop an initialized component |
| `Lifecycle.NodeRunInv` | core/default_box_node.go:57-129 | the invariant of a node in every interleaving of run, stop, pause and resume |
| `Lifecycle.NodeAtMostOnce` | core/default_source_node.go:27-107 | the work, Terminate and Source.Stop happen at most once; a stopped node has been cleaned up exactly if it was started |
| `Lifecycle.WinnersFinish` | core/default_source_node.go:27-107 | when a thread told to start is done, the node is cleaned up and stopped; when one told to stop is done, the work has been halted |
| `Lifecycle.NodeGoesOn` | core/default_source_node.go:27-107 | in every interleaving a thread that is not done can take a step, or it sleeps for running or stopped and this has not been reached |
| `Pipe.StepKeepsLock` | core/pipe.go:106-177 | every step keeps the lock discipline: no sender is at work once the channel may be closed |
| `Pipe.RunInv` | core/pipe.go:106-177 | the pipe invariant in every reachable state, for any number of writers and closers |
| `Pipe.NeverPanics` | core/pipe.go:106-177 | no send on a closed channel, and the channel is closed at most once |
| `Pipe.Conserves` | core/pipe.go:106-146 | the enqueue history is the dequeue history followed by the queue, within the capacity; tuples are dropped only as the mode says, and refused only if the pipe is closed |
| `Pipe.FateIsExplained` | core/pipe.go:106-146 | over every run: a tuple is refused only by a write that found the pipe closed, dropped unsent only by a send that found the queue of an open pipe full, and enqueued only by a send that found room, at the end of the queue |
| `Pipe.CheckDecides` | core/pipe.go:107-112 | a write on an open pipe goes on to send, one on a closed pipe is refused |
| `Pipe.SendDecides` | core/pipe.go:120-146 | with room a send enqueues and is never blocked; a full queue blocks it, drops its tuple or makes it take out the oldest, as the mode says |
| `Pipe.TakeDropsOldest` | core/pipe.go:134-143 | only the oldest queued tuple is taken out, and the send is tried again |
| `Pipe.TakerFoundFull` | core/pipe.go:126-143 | over every run: a queued tuple is dropped only by a writer whose send had found the queue full |
| `Pipe.CloseCloses` | core/pipe.go:157-165 | over every run: when a Close is about to return the channel is closed, whoever closed it |
| `Pipe.NeverStuck` | core/pipe.go:106-177 | in every reachable state a thread that is not idle can take a step, or its queue is full in the mode that drops nothing and can be received from |
| `Pipe.EnqueuedOnce` | core/pipe.go:106-146 | every tuple enters the queue at most once, exactly where its fate says |
| `Pipe.WriterOrder` | core/pipe.go:106-146 | the tuples of one writer enter in the order in which it wrote them |
| `Pipe.ClosedAcceptsNothing` | core/pipe.go:157-177 | a closed channel takes nothing in and only receivers take anything out |
| `Pouring.PouringThread` | core/pipe.go:515-616 | the loop is the iteration of its step over what the selects return |
| `Pouring.SwapRemoveOk` | core/pipe.go:538-541 | removal by swapping takes away exactly one input and leaves the two control cases in place |
| `Pouring.StepKeepsInv` | core/pipe.go:515-616 | every step of the loop or of a sender keeps polled inputs and tuple accounts exact |
| `Pouring.PolledExactly` | core/pipe.go:515-616 | in every reachable state exactly the added inputs that no select has found closed and drained are polled, once each, behind the two control cases; what was sent on an input is what was written from it, in order, followed by what waits in it |
| `Pouring.ExitMeans` | core/pipe.go:515-616 | a graceful stop and a disconnect exit only when every tuple sent on any input has been written; otherwise the loop was told to stop or failed |
| `Pouring.LeavesIff` | core/pipe.go:522-616 | in every reachable state the loop leaves if and only if it is stopped without graceful mode, drained, disconnected, or meets a fatal error; a stop in graceful mode activates the default case |
| `Pouring.FlagsIff` | core/pipe.go:572-576 | graceful mode and stopping on disconnect are on if and only if their messages have been received |
| `Pouring.GracefulStopGoesOn` | core/pipe.go:566-581 | a gracefully stopped loop is never held up: it takes a tuple, notices a closed input or leaves |
| `Rewind.RunInv` | core/source.go:125-274 | the invariant of the rewindable source in every interleaving |
| `Rewind.RewindFence` | core/source.go:260-274 | once Rewind has returned, only tuples of later generations are written |
| `Rewind.PausedRewindWritesNothing` | core/source.go:128-163 | a source rewound while paused writes nothing until its state changes, however often it is paused again |
| `Rewind.CheckDecides` | core/source.go:128-163 | a check waits only while the source is paused and no rewind is requested; it lets the write through if and only if no rewind is requested and the source is not stopping |
| `Rewind.WriteWasChecked` | core/source.go:128-167 | over every run: a write under way has passed such a check in the same generation |
| `Rewind.AwaitDecides` | core/source.go:188-215 | at its end a source starts over, with the next generation and the request taken back, if and only if it can be rewound and is not stopping |
| `Rewind.RewindUnblocks` | core/source.go:128-215 | a requested rewind always lets the generator go on |
| `Rewind.StopFence` | core/source.go:237-250 | after any Stop at most one write happens, and none unless the original source failed to stop |
| `Rewind.StopIsFenceIff` | core/source.go:237-250 | for every run and every Stop that has returned: all later writes are excluded if and only if no write that passed its check before a forced leave is under way |
| `Rewind.ForcedOnlyAfterFailure` | core/source.go:243-249 | the main goroutine leaves by force only if a stop of the original source has failed before |
| `Rewind.ForcedStopGoesOn` | core/source.go:221-250 | over every run: a Stop whose halt failed can return, or the main goroutine can take its next step towards stopped, even if the source never ends |
| `Rewind.LateWrite` | core/source.go:216-250 | a run with a write after a Stop that returned without error |
| `Limit.Box.Process` | bql/bql_box.go:82-164 | emits the first rows among the picked ones up to the limit, across calls; says what a failing write leaves emitted; removes the box at most once |
| `Limit.Box.EmitRows` | bql/bql_box.go:103-148 | writes the picked ones among the first n rows, all successfully, and ends at the first failing write, at the limit or after the last row |
| `Limit.KthPicked` | bql/bql_box.go:114-119 | picking by the counter picks exactly the rows number 0, k, 2k, and so on |
| `Limit.HitIsFinal` | bql/bql_box.go:88-94 | once the limit is hit further rows change nothing |
| `Limit.EmitsEveryKth` | bql/bql_box.go:82-164 | across all calls the j-th emitted row is the generated row number j * k, up to the limit |
| `Limit.EmitsFirst` | bql/bql_box.go:82-164 | without sampling the emitted rows are the first generated ones |
| `Limit.TimedWithinLimit` | bql/bql_box.go:166-221 | in every interleaving with the timer at most the limit is written, no row twice, in order, and the box is removed at most once, only at the limit |
| `Limit.TickWritesIff` | bql/bql_box.go:172-220 | over every run: a tick writes if and only if the box is not stopped and a row was generated that has not been written; it writes the newest one, and the write that reaches the limit stops and removes the box |
| `Limit.FedIsStored` | bql/bql_box.go:103-129 | over every run all rows given to Process before the limit was reached are stored one after the other |
| `Limit.RandomPicks` | bql/bql_box.go:118-120 | randomized sampling writes the rows that were drawn |
| `Limit.StoppedWritesNothing` | bql/bql_box.go:166-229 | nothing is written after the stopped flag is set |
| `JsonPath.Set` | data/jsonpath.go:139-166 | the loop with its parent setter has exactly the recursive effect, on success, failure and panic |
| `JsonPath.SetIffSettable` | data/jsonpath.go:200-223 | a path of keys and non-negative indices is set if and only if the walk meets only fitting containers, NULL or nothing; otherwise nothing changes |
| `JsonPath.GetAfterSet` | data/jsonpath.go:139-166 | a get at or below the path finds what was set |
| `JsonPath.DivergingPathKept` | data/jsonpath.go:200-223 | a diverging path finds what it found before; where it found nothing it finds nothing or a padding NULL |
| `JsonPath.SetShape` | data/jsonpath.go:200-223 | at every place on its way a set adds no key but that of the path, and lets an array grow just enough for the index of the path |
| `JsonPath.NegativeIndex` | data/jsonpath.go:331-345 | when reading, a negative index counts from the end |
| `JsonPath.SetWhatIsThere` | data/jsonpath.go:139-166 | setting what is there already changes nothing |
| `JsonPath.SetTwice` | data/jsonpath.go:139-166 | the last of two sets on a path wins |
| `JsonPath.ObstructedSet` | data/jsonpath.go:347-379 | slices, recursive components and negative indices never succeed, and leave the value unchanged if and only if nothing had to be created in front of them |
| `JsonPath.ObstructedStatus` | data/jsonpath.go:347-379 | such a set panics if and only if it reaches a negative index with NULL, something missing or an array in hand |
| `JsonPath.FailedSetChangesMap` | data/jsonpath.go:520-522 | a failing set that changes the map |

## Left out

- GroupPlan.Plan.Process: keeps the results as values; the two result slices that share storage are those of `SelectPlan.Plan` and are not modelled a second time.
- GroupBy: HAVING on an empty window without GROUP BY, and the check that selected columns appear in GROUP BY.
- Flatten: conversion is modelled by functions, so that ParserExprToMaybeAggregate rewriting its argument in place is not captured; keys of an input row are a datatype, so an alias never collides with an aggregate id; wildcards in the flat part and volatile functions are excluded.
- Runs.InsertionsMinusDeletions: excludes results with the hash 0, for which an ISTREAM or DSTREAM call emits nothing although the result changes, and rows outside the domain of the equality.
- Runs.EveryCallIsExactForEqual: excludes rows with NaN or inexact integers, for which Equal and Hash are not lawful.
- Sorted aggregates adding the sorted arrays to the input map in place: the sorted arrays are passed on as values.
- Hash: FNV-1a itself, the UTF-8 encoding of strings, and the wrap-around of the counter from which each NaN draws a number.
- Product and Engine: linked lists are sequences, the shared data holder that the recursion fills in place is a value that is passed along.
- Lifecycle: the lock and the condition variable themselves; sections under the lock are atomic steps.
- Pipe: registration with destinations, tuple flags and copies, status counters, and capacity 0, which the input configuration replaces by 1024.
- Pouring: the parallelism of pour, draining of inputs after the loop has ended, and dropped tuple reports.
- Rewind: termination of Stop and Rewind, which depends on the original source, and the flag reported as waiting_for_rewind.
- Limit: ticks come at arbitrary times; the counters do not overflow; a plan is not fed any more once the limit is hit, so later results are those it would have returned.
- JsonPath: parsing of paths, evaluation of slices and recursive components, a nil map, and maps that share parts: values are trees.
- Less and the ordering of values, builtin functions, type conversions and arithmetic operators: parameters of the evaluators.
- BQL parsing, registries, servers, clients, storage, logging and configuration: plumbing without state worth a law.
