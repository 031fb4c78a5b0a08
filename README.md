# Daft: distributed stage planning and column null filling

This project models two parts of Daft, a distributed query engine, and proves
properties of them in Dafny.

**Stage planner.** `StagePlanBuilder` turns an optimised logical plan into a
graph of stages for the distributed runner.

- It first checks that every node of the plan is a kind it can place into a
  stage (`can_translate_logical_plan`).
- It then builds stages bottom-up:
  - a join becomes a hash-join stage over two input stages;
  - anything else is fused into one map-pipeline stage, with a nested join
    cut out at a placeholder scan by the `MapPipelineBuilder` tree rewriter.
- Each stage is stored in an id-keyed map. Ids come from a counter.
- Stages are wired by input channels that copy the producer's output
  description.

The model is a `StagePlanBuilder` class with the map and the counter as
fields, and a `MapPipelineBuilder` class whose `remaining` field the rewrite
sets. The rewrite traversal is a method proved against a reference function
(`RewritePlan`). The translatability check is a recursive function over the
plan tree.

**Null filling.** A column (`Series`) is modelled as a sequence of optional
values, where `None` is a null. The model covers:

- `fill_null`, which fills by value;
- `fill_null_with_strategy`, which fills forward or backward from the nearest
  non-null row;
- the two scan loops behind it;
- `create_mask_for_index`.

The column kernels these operations call (`is_null`, `not_null`, `if_else`)
are modelled as functions on that abstraction.

Modules:

- `Wrappers`: `Option` and `Result`.
- `LogicalPlans`: the plan tree.
- `TranslateCheck`: the check.
- `Stages`: the stage graph and its wiring invariant.
- `PipelineRewrite`: the rewriter and the traversal.
- `StageBuilder`: the builder.
- `SeriesKernels`: the column kernels.
- `SeriesNull`: null filling.

The plan datatype groups Daft's `LogicalPlan` variants by arity:

- `Source` and `Join` are their own constructors, because the planner treats
  them specially.
- Every other variant is the operator of a `Unary` node (`UnaryOp`) or a
  `Binary` node (`BinaryOp`).

Each variant of the Rust enum corresponds to exactly one constructor or
operator here. Every node carries its output schema.

The central fact about the planner is a quirk of the code. The check rejects
`Join` (like `Sort`), and `build_stages_from_plan` runs the check on the very
node it then matches on. So the join branch and the join-cutting rewrite are
never reached. `TranslateCheck.JoinBranchUnreachable` proves this. Because of
it, the model gives `BuildStagesFromPlan` the check as a parameter. The join
branch, with its own contracts, is then verified under any check.
`BuildStagePlan` and `PlanStages` pass the real one.

## Model

| member | source | states |
|---|---|---|
| StageBuilder.StagePlanBuilder.constructor | src/daft-distributed/src/stage/stage_builder.rs:24-29 | a new builder has no stages and its counter at 0, and satisfies the wiring invariant |
| StageBuilder.StagePlanBuilder.NextStageId | src/daft-distributed/src/stage/stage_builder.rs:31-35 | returns the current counter and advances it by one, so ids are handed out 0, 1, 2, ... and never twice |
| TranslateCheck.VisitNode | src/daft-distributed/src/stage/stage_builder.rs:39-87 | the per-node closure continues exactly on allowed kinds (the always-fusable ones, a hash repartition, a grouped aggregate, a partitioned window), panics exactly on Intersect/Union/SubqueryAlias/Shard, and stops on everything else, as stated against the node-kind policy predicates |
| TranslateCheck.ApplyCharacterized | src/daft-distributed/src/stage/stage_builder.rs:39-87 | the pre-order walk continues through the tree iff every node is allowed; a stop implies a rejected node, a panic implies a node that should have been optimised away |
| TranslateCheck.ApplyChildrenCharacterized | src/daft-distributed/src/stage/stage_builder.rs:39-87 | the same for the walk over a node's children from a given index on, left to right |
| TranslateCheck.NotAllowedSomewhere | src/daft-distributed/src/stage/stage_builder.rs:37-89 | a tree fails "every node allowed" iff some node is rejected or must have been optimised away |
| TranslateCheck.CanTranslateLogicalPlan | src/daft-distributed/src/stage/stage_builder.rs:37-89 | the check returns true iff every node is allowed; otherwise the first not-allowed node in pre-order decides: a panic iff it is an Intersect/Union/SubqueryAlias/Shard, false iff it is rejected; false implies some rejected node, a panic some optimised-away node; with no rejected node it panics iff such a node exists, with no optimised-away node it is false iff some node is rejected |
| TranslateCheck.PreOrder | src/daft-distributed/src/stage/stage_builder.rs:37-89 | the listing of the nodes the walk visits starts at the root |
| TranslateCheck.FirstNotAllowed | src/daft-distributed/src/stage/stage_builder.rs:37-89 | the position of the first node of a listing that is not allowed: every earlier node is allowed, and the one there is not (or the listing is exhausted) |
| TranslateCheck.WalkVerdictAppend | src/daft-distributed/src/stage/stage_builder.rs:37-89 | searching a concatenation searches the second part only when the first lets the walk continue |
| TranslateCheck.ApplyIsFirstVisit | src/daft-distributed/src/stage/stage_builder.rs:37-89 | the recursive walk reports continue when no node is not-allowed, and otherwise the visit of the first not-allowed node of the pre-order listing |
| TranslateCheck.ApplyChildrenIsFirstVisit | src/daft-distributed/src/stage/stage_builder.rs:37-89 | the same for the walk over a node's children from a given index on |
| TranslateCheck.WalkOrderExamples | src/daft-distributed/src/stage/stage_builder.rs:37-89 | a Union under a projection panics, but under a Sort or a join root the walk stops first and the verdict is false |
| TranslateCheck.JoinIsNeverAllowed | src/daft-distributed/src/stage/stage_builder.rs:79 | a join anywhere in the tree makes "every node allowed" false |
| TranslateCheck.JoinBranchUnreachable | src/daft-distributed/src/stage/stage_builder.rs:92-102 | a plan that passes the check is not a join and contains no join, so the join branch and the rewrite's join case are dead |
| TranslateCheck.JoinRootRejected | src/daft-distributed/src/stage/stage_builder.rs:79 | a plan whose root is a join gets a false verdict, not a panic |
| TranslateCheck.ContainsJoinNotTranslatable | src/daft-distributed/src/stage/stage_builder.rs:79-97 | a plan containing a join never passes; without optimised-away kinds its verdict is false |
| LogicalPlans.WithNewChildren | src/daft-distributed/src/stage/stage_builder.rs:134 | the rebuilt node has exactly the given children, the same schema, the same constructor and operator, and for a join the same condition and join type; rebuilding with the old children gives the same node |
| LogicalPlans.PlaceholderSource | src/daft-distributed/src/stage/stage_builder.rs:175-182 | a scan node with no children carrying the given schema, whose source is a placeholder with that schema and an unknown clustering |
| LogicalPlans.SplitEqPreds | src/daft-distributed/src/stage/stage_builder.rs:136 | as many key pairs and flags as equality conjuncts; the residue is the non-equality conjuncts in order, and is empty iff there is none |
| LogicalPlans.SplitEqPredsKeys | src/daft-distributed/src/stage/stage_builder.rs:136 | the k-th key pair is the k-th equality conjunct in order, its flag true exactly for a null-safe equality |
| Stages.InsertStage | src/daft-distributed/src/stage/stage_builder.rs:157 | inserting a stage with a fresh larger id, one planned output and inputs that resolve keeps the graph well wired and keeps every earlier stage |
| Stages.InputPathsDescend | src/daft-distributed/src/stage/stage_builder.rs:104-108 | along any chain of input channels stage ids strictly decrease, so the graph is acyclic |
| StageBuilder.StagePlanBuilder.AddStage | src/daft-distributed/src/stage/stage_builder.rs:157 | stores the stage under its own id, changes no other entry, and keeps the builder's invariant |
| StageBuilder.StagePlanBuilder.BuildStagesFromPlan | src/daft-distributed/src/stage/stage_builder.rs:91-226 | a failed check returns a ValueError (or the panic) with no id allocated and no stage stored; success returns the newest stage, which outputs the plan's schema; a join with a non-equality residue fails; no InternalError is ever returned; a join-free plan that passes becomes exactly one source pipeline stage with the next id; the graph stays well wired and old stages are kept |
| StageBuilder.StagePlanBuilder.BuildJoinStage | src/daft-distributed/src/stage/stage_builder.rs:102-159 | builds left then right inputs first; on success the new stage is a hash join over the join with both children replaced by placeholder scans, the equality keys, `Some` null-equality flags and the join type, with exactly two inputs at channel 0: the left one from a stage built in this call, the right one from the stage allocated just before the join, and left before right |
| StageBuilder.StagePlanBuilder.FinishJoinStage | src/daft-distributed/src/stage/stage_builder.rs:108-158 | allocates one id; fails with NotImplemented and stores nothing iff the join condition has a non-equality residue; otherwise stores the hash-join stage under the new id, its first input reading the given left stage and its second the given right stage |
| PipelineRewrite.RewriteCutsJoins | src/daft-distributed/src/stage/stage_builder.rs:162-200 | the rewrite transforms the plan iff it contains a join, leaves no join in the rewritten plan, and what it captures is a join |
| PipelineRewrite.RewriteChildrenCutJoins | src/daft-distributed/src/stage/stage_builder.rs:162-200 | the same for the rewrite of a node's first children, left to right |
| PipelineRewrite.MapPipelineBuilder.constructor | src/daft-distributed/src/stage/stage_builder.rs:198 | the rewriter starts with nothing captured |
| PipelineRewrite.MapPipelineBuilder.FDown | src/daft-distributed/src/stage/stage_builder.rs:168-188 | a join is replaced by a placeholder scan with its schema, flagged as transformed, and recorded in `remaining`; any other node is returned untouched and `remaining` kept |
| PipelineRewrite.MapPipelineBuilder.FUp | src/daft-distributed/src/stage/stage_builder.rs:190-195 | leaves every node untransformed |
| PipelineRewrite.Rewrite | src/daft-distributed/src/stage/stage_builder.rs:200 | the traversal's result, transformed flag and final `remaining` are those of the reference rewrite `RewritePlan` |
| PipelineRewrite.RewriteEachChild | src/daft-distributed/src/stage/stage_builder.rs:200 | rewriting a node's children in order gives the reference rewrite of each, and `remaining` holds the last join captured |
| PipelineRewrite.CutPipeline | src/daft-distributed/src/stage/stage_builder.rs:198-205 | a fresh rewriter driven over the plan returns the reference rewrite and the join it captured |
| StageBuilder.StagePlanBuilder.BuildPipelineStage | src/daft-distributed/src/stage/stage_builder.rs:161-224 | the new stage runs the rewritten plan; when the rewrite fired it has one input, reading channel 0 of the stage allocated just before it (the root of the stages built for the cut-out join in this call), and none otherwise; an untransformed plan becomes exactly one source pipeline stage with the next id |
| StageBuilder.StagePlanBuilder.BuildInputStages | src/daft-distributed/src/stage/stage_builder.rs:203-207 | builds the captured sub-plan's stages and returns an input channel reading channel 0 of their root, which is the newest stage, new in this call; the channel resolves into the graph and carries the sub-plan's schema |
| StageBuilder.StagePlanBuilder.FinishPipelineStage | src/daft-distributed/src/stage/stage_builder.rs:211-223 | allocates the next id and stores the map-pipeline stage under it with one output carrying the plan's schema |
| StageBuilder.StagePlanBuilder.BuildStagePlan | src/daft-distributed/src/stage/stage_builder.rs:228-239 | succeeds iff the check passes, and then returns the builder's stages with the new pipeline stage as root; the result is a valid stage plan (well wired, root present and largest); a false verdict is a ValueError, a panic a panic, and any plan with a join fails |
| StageBuilder.PlanStages | src/daft-distributed/src/stage/stage_builder.rs:198-223 | on a fresh builder a translatable plan yields exactly one stage, id 0, running the unchanged plan with no inputs and one output of the plan's schema, recorded as root; a plan rooted at a join is a ValueError |
| StageBuilder.StagePlanBuilder.CreateInputChannel | src/daft-distributed/src/stage/stage_builder.rs:241-256 | InternalError iff the producer stage is absent; otherwise records the producer and channel index and copies that output's data description |
| StageBuilder.StagePlanBuilder.CreateOutputChannel | src/daft-distributed/src/stage/stage_builder.rs:258-271 | always succeeds, with no consumers, no statistics, and the given schema and clustering |
| SeriesNull.FillNull | src/daft-core/src/series/ops/null.rs:20-23 | succeeds iff the lengths agree or one side has one row; the result keeps every non-null row and takes the fill value's row at null rows, broadcasting a one-row operand |
| SeriesNull.FillNullTotal | src/daft-core/src/series/ops/null.rs:20-23 | a same-length fill always succeeds, a null-free fill value leaves no null, and filling twice equals filling once |
| SeriesNull.FillNullWithoutNulls | src/daft-core/src/series/ops/null.rs:20-23 | a column without nulls comes back unchanged |
| SeriesNull.FillNullExamples | tests/series/test_fill_null.py:9-20 | the value-fill test table, including both broadcasts and the empty column |
| SeriesNull.FillNullWithStrategy | src/daft-core/src/series/ops/null.rs:25-30 | Forward gives the forward fill of the column and Backward the backward fill |
| SeriesNull.FillNullForward | src/daft-core/src/series/ops/null.rs:32-59 | the scan returns the forward fill of the column: same length, empty for empty |
| SeriesNull.FillNullBackward | src/daft-core/src/series/ops/null.rs:61-89 | the reverse scan returns the backward fill of the column: same length, empty for empty |
| SeriesNull.LastValidIsGreatest | src/daft-core/src/series/ops/null.rs:39-55 | the carried value is that of the greatest earlier non-null row, and absent iff all earlier rows are null |
| SeriesNull.NextValidIsLeast | src/daft-core/src/series/ops/null.rs:68-85 | the carried value is that of the least later non-null row, and absent iff all later rows are null |
| SeriesNull.ForwardFillRow | src/daft-core/src/series/ops/null.rs:41-56 | forward fill keeps non-null rows; a null row stays null iff no earlier row is non-null, else takes the value of the greatest earlier non-null row |
| SeriesNull.BackwardFillRow | src/daft-core/src/series/ops/null.rs:71-86 | backward fill keeps non-null rows; a null row stays null iff no later row is non-null, else takes the value of the least later non-null row |
| SeriesNull.ForwardFillUnchanged | src/daft-core/src/series/ops/null.rs:41-56 | forward fill changes nothing iff no null row follows a non-null row |
| SeriesNull.BackwardFillUnchanged | src/daft-core/src/series/ops/null.rs:71-86 | backward fill changes nothing iff no null row precedes a non-null row |
| SeriesNull.StrategyFillsKeepUnfillable | tests/series/test_fill_strategy.py:35-55 | an all-null column and a null-free column come back unchanged from both strategies |
| SeriesNull.ForwardFillIdempotent | src/daft-core/src/series/ops/null.rs:41-56 | forward filling a forward-filled column changes nothing |
| SeriesNull.LastValidOfForwardFilled | src/daft-core/src/series/ops/null.rs:41-56 | forward filling does not change the last non-null value of any prefix |
| SeriesNull.BackwardFillIdempotent | src/daft-core/src/series/ops/null.rs:71-86 | backward filling a backward-filled column changes nothing |
| SeriesNull.NextValidOfBackwardFilled | src/daft-core/src/series/ops/null.rs:71-86 | backward filling does not change the first non-null value of any suffix |
| SeriesNull.StrategyFillExamples | tests/recordbatch/test_fill.py:160-190 | forward and backward fills of the [null, 1, null] column and of the leading-nulls column give the record-batch tests' expected columns |
| SeriesNull.SeriesStrategyFillExamples | tests/series/test_fill_null.py:36-55 | every row of the series strategy-fill table, forward and backward: the expected column for each of the eight inputs, empty and all-null included |
| SeriesNull.CreateMaskForIndex | src/daft-core/src/series/ops/null.rs:91-103 | a mask as long as the column, true exactly at the given index |
| SeriesNull.ForwardAsWrittenSpreads | src/daft-core/src/series/ops/null.rs:41-56 | the forward loop as written returns the input when it never fires, and otherwise puts the value carried at its last firing row into every other row |
| SeriesNull.BackwardAsWrittenSpreads | src/daft-core/src/series/ops/null.rs:71-86 | the same for the backward loop as written |
| SeriesNull.ForwardAsWrittenCounterexample | src/daft-core/src/series/ops/null.rs:50 | on [null, 1, null] the forward loop as written returns [1, 1, null], where forward fill is [null, 1, 1] |
| SeriesNull.BackwardAsWrittenCounterexample | src/daft-core/src/series/ops/null.rs:80 | on [null, 1, null] the backward loop as written returns [null, 1, 1], where backward fill is [1, 1, null] |
| SeriesNull.FillNullForwardAsWritten | src/daft-core/src/series/ops/null.rs:32-59 | the forward loop with the source's operand order computes `ForwardAsWritten` |
| SeriesNull.FillNullBackwardAsWritten | src/daft-core/src/series/ops/null.rs:61-89 | the backward loop with the source's operand order computes `BackwardAsWritten` |

## Left out

- Schema inference: each plan node stores its output schema. The planner only reads schemas.
- `split_eq_preds` and `with_new_children` belong to the logical-plan crate. They are modelled concretely over a condition that is a conjunction of equality, null-safe equality and other conjuncts.
- The TreeNode `apply` and `rewrite` library is modelled only as far as the planner uses it:
  - for `apply`: pre-order, with `Stop` ending the walk;
  - for `rewrite`: `f_down`, then the children of what it returned, then `f_up`, with `TreeNodeRecursion::Continue` throughout.
- The plan's `Display` text inside the ValueError message is left out; the error carries the plan itself.
- `DaftExecutionConfig` is carried through unread.
- Integer widths: the stage id counter (a fixed-width Rust integer incremented at stage_builder.rs:33) and the `usize` channel index are unbounded `nat`s. Wrap-around would need 2^64 stages, so it is not modelled.
- Panics (the check's `panic!` and an out-of-range `output_channels[idx]`) become an `Err(Panicked(..))` result instead of aborting the process.
- Errors that the called code can return but never does here are not modelled:
  - `create_output_channel`;
  - `rewrite` with these callbacks;
  - `slice`, `is_null` and `create_mask_for_index` on in-range rows.
- `StageBuilder.StagePlanBuilder.BuildStagesFromPlan`: it does not restate the shape of the stage it builds. The join and pipeline shapes are stated on `BuildJoinStage` and `BuildPipelineStage`. For a join with a non-equality residue, it does not state that the id allocated before the failure stays used.
- `to_stages` of an output channel is never filled in by the planner; the model leaves it empty likewise.
- `is_null`, `not_null` and `if_else`: the kernels belong to the array layer, which is not part of this model. They are modelled on `seq<Option<T>>`:
  - `if_else` keeps the receiver where the predicate holds and takes the other operand elsewhere. This is the reading under which `fill_null` keeps non-null rows.
  - An operand of length 1 is broadcast. Other length mismatches are an error.
- `fill_null` with a fill value of another type is not modelled: a generic element type cannot mismatch. Element types are preserved by construction, because every fill copies values of the same column.
- Floating point and NaN (`fill_nan`) are not modelled; element values are generic.
- src/common/io-config/src/s3.rs, src/daft-core/src/array/growable/struct_growable.rs, src/daft-connect/src/translation/logical_plan/range.rs and src/daft-physical-plan/src/ops/csv.rs are not part of this model. They hold credential caching, arrow growables, Python bridging and a plain data holder.
- `SeriesNull.FillNullWithStrategy` uses the corrected loops (see Findings); the as-written loops are modelled beside them.

## Findings

| source | as written | input that shows it | evidently intended | confidence | as-written member | corrected member |
|---|---|---|---|---|---|---|
| src/daft-core/src/series/ops/null.rs:50 | `result.if_else(fill_val, &mask)` keeps `result` at the null row and writes the carried value into every other row | [null, 1, null] gives [1, 1, null] | write the carried value into the null row only, giving [null, 1, 1] as tests/series/test_fill_null.py:39 expects | medium, not executed: rests on the `if_else` reading that makes `fill_null` correct | SeriesNull.ForwardAsWrittenCounterexample | SeriesNull.FillNullForward |
| src/daft-core/src/series/ops/null.rs:80 | the same operand order in the backward loop | [null, 1, null] gives [null, 1, 1] | [1, 1, null], as tests/series/test_fill_null.py:48 expects | medium, not executed: rests on the same `if_else` reading | SeriesNull.BackwardAsWrittenCounterexample | SeriesNull.FillNullBackward |

The two halves of the code disagree under either reading of `if_else`:

- If `if_else` keeps the receiver where the predicate holds, `fill_null`
  (null.rs:22) is right and both strategy loops are wrong.
- Under the opposite reading the loops are right, but `fill_null` would
  overwrite every non-null row.

The value-fill tests (tests/series/test_fill_null.py:13-17) pin down the first
reading. The corrected loops swap the operands to
`fill_val.if_else(result, mask)`.
