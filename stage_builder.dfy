/** `StagePlanBuilder`: splits a logical plan into stages, allocating stage
    ids from a counter and recording each finished stage in an id-keyed map. */
module StageBuilder {
  import opened Wrappers
  import opened LogicalPlans
  import opened Stages
  import opened TranslateCheck
  import opened PipelineRewrite

  /** Failures of stage building. `Panicked` stands for a Rust panic, which
      aborts planning instead of returning an error. */
  datatype DaftError =
    | ValueError(untranslatable: LogicalPlan)  // "Cannot translate logical plan ... into stages"
    | NotImplemented(message: string)
    | InternalError(missingStage: StageID)     // "Stage <id> not found"
    | Panicked(message: string)

  const NonEqualityJoinMessage: string := "Execution of non-equality join"

  const IndexOutOfBoundsMessage: string := "output channel index out of bounds"

  /** The join node with both children replaced by placeholder scans that
      carry the children's schemas. */
  ghost function JoinStagePlan(plan: LogicalPlan): LogicalPlan
    requires plan.Join?
  {
    WithNewChildren(plan, [PlaceholderSource(plan.left.schema), PlaceholderSource(plan.right.schema)])
  }

  /** The stage the join branch builds for `plan`: a hash join over the
      rewritten join node and the equality keys, with two inputs, left then
      right, each reading output 0 of its producer. */
  ghost predicate IsHashJoinStage(s: Stage, plan: LogicalPlan)
    requires plan.Join?
  {
    var split := SplitEqPreds(plan.on);
    && split.remaining == []
    && s.stageType == HashJoin(JoinStagePlan(plan), split.leftOn, split.rightOn,
                               Some(split.nullEqualsNull), plan.joinType)
    && |s.inputChannels| == 2
    && s.inputChannels[0].channelId == ChannelID(0)
    && s.inputChannels[1].channelId == ChannelID(0)
    && s.inputChannels[0].fromStage < s.inputChannels[1].fromStage
    && s.inputChannels[0].dataChannel == DataChannel(plan.left.schema, None, None)
    && s.inputChannels[1].dataChannel == DataChannel(plan.right.schema, None, None)
  }

  /** The stage the pipeline branch builds for `plan`: the plan with its join
      cut out, and one input (from output 0 of the cut-out join's stage) when
      something was cut, none otherwise. */
  ghost predicate IsMapPipelineStage(s: Stage, plan: LogicalPlan)
  {
    var rw := RewritePlan(plan);
    && s.stageType == MapPipeline(rw.plan)
    && if rw.transformed then
         && |s.inputChannels| == 1
         && s.inputChannels[0].channelId == ChannelID(0)
         && s.inputChannels[0].dataChannel == DataChannel(rw.captured.value.schema, None, None)
       else
         s.inputChannels == []
  }

  /** A source pipeline stage running `plan` unchanged. */
  ghost function PipelineStage(id: StageID, plan: LogicalPlan): Stage
  {
    Stage(id, MapPipeline(plan), [], [OutputChannel([], DataChannel(plan.schema, None, None))])
  }

  class StagePlanBuilder {
    var stages: map<StageID, Stage>
    var stageIdCounter: StageID

    /** Every stage is well wired and has an id below the counter. */
    ghost predicate Valid()
      reads this
    {
      && WellWired(stages)
      && forall id :: id in stages ==> id < stageIdCounter
    }

    constructor ()
      ensures Valid()
      ensures stages == map[] && stageIdCounter == 0
    {
      stages := map[];
      stageIdCounter := 0;
    }

    /** Hands out the current counter value and advances the counter, so the
        ids handed out are 0, 1, 2, ... in order. */
    method NextStageId() returns (id: StageID)
      modifies this`stageIdCounter
      ensures id == old(stageIdCounter)
      ensures stageIdCounter == id + 1
    {
      id := stageIdCounter;
      stageIdCounter := stageIdCounter + 1;
    }

    /** Stores a finished stage under its freshly allocated id (the most recent
        one). Its inputs must already resolve into the graph, so the graph
        stays well wired. */
    method AddStage(stage: Stage)
      requires Valid()
      requires stage.id == stageIdCounter - 1 && stage.id !in stages
      requires forall id :: id in stages ==> id < stage.id
      requires |stage.outputChannels| == 1 && IsPlannedOutput(stage.outputChannels[0], stage.stageType.plan.schema)
      requires forall c :: c in stage.inputChannels ==> c.fromStage < stage.id && ChannelResolves(stages, c)
      modifies this`stages
      ensures stages == old(stages)[stage.id := stage]
      ensures Valid() && Extends(old(stages), stages)
    {
      InsertStage(stages, stage);
      stages := stages[stage.id := stage];
    }

    /** An input channel reading output `channelIdx` of stage `fromStage`:
        an internal error when that stage does not exist; otherwise a copy of
        that output's data description. */
    function CreateInputChannel(fromStage: StageID, channelIdx: nat): (r: Result<InputChannel, DaftError>)
      reads this
      ensures fromStage !in stages <==> r == Err(InternalError(fromStage))
      ensures fromStage in stages && channelIdx < |stages[fromStage].outputChannels| ==> r.Ok?
      ensures r.Ok? ==> && r.value.fromStage == fromStage
                        && r.value.channelId == ChannelID(channelIdx)
                        && ChannelResolves(stages, r.value)
    {
      if fromStage !in stages then Err(InternalError(fromStage))
      else if channelIdx >= |stages[fromStage].outputChannels| then Err(Panicked(IndexOutOfBoundsMessage))
      else Ok(InputChannel(fromStage, ChannelID(channelIdx), stages[fromStage].outputChannels[channelIdx].dataChannel))
    }

    /** An output channel with no consumers recorded yet and no statistics. */
    function CreateOutputChannel(schema: Schema, clusteringSpec: Option<ClusteringSpec>): (r: Result<OutputChannel, DaftError>)
      ensures r.Ok?
      ensures r.value.toStages == [] && r.value.dataChannel.stats == None
      ensures r.value.dataChannel.schema == schema && r.value.dataChannel.clusteringSpec == clusteringSpec
    {
      Ok(OutputChannel([], DataChannel(schema, clusteringSpec, None)))
    }

    /** Builds the stages for `plan` bottom-up and returns the id of the stage
        producing the plan's output. The translatability check is a parameter:
        the source always passes `CanTranslateLogicalPlan`, under which the join
        branch is unreachable (`JoinBranchUnreachable`); taking the check as a
        parameter lets the join branch be verified on its own. */
    method BuildStagesFromPlan(check: LogicalPlan -> Option<bool>, plan: LogicalPlan)
      returns (r: Result<StageID, DaftError>)
      requires Valid()
      modifies this
      decreases Size(plan), 1
      ensures Valid()
      ensures Extends(old(stages), stages) && old(stageIdCounter) <= stageIdCounter
      // a failed check returns before any id is allocated or stage inserted
      ensures check(plan) == None ==>
        r == Err(Panicked(OptimizedAwayMessage)) && stages == old(stages) && stageIdCounter == old(stageIdCounter)
      ensures check(plan) == Some(false) ==>
        r == Err(ValueError(plan)) && stages == old(stages) && stageIdCounter == old(stageIdCounter)
      // the returned stage is new, is the last one allocated, and outputs the plan's schema
      ensures r.Ok? ==> check(plan) == Some(true)
      ensures r.Ok? ==> old(stageIdCounter) <= r.value && r.value == stageIdCounter - 1 && r.value in stages
      ensures r.Ok? ==> stages[r.value].outputChannels == [OutputChannel([], DataChannel(plan.schema, None, None))]
      // a join with a non-equality residue fails
      ensures plan.Join? && SplitEqPreds(plan.on).remaining != [] ==> r.Err?
      // channel construction never meets a missing producer
      ensures r.Err? ==> !r.error.InternalError?
      // a join-free plan that passes the check becomes exactly one source pipeline stage
      ensures check(plan) == Some(true) && !ContainsJoin(plan) ==>
        && r == Ok(old(stageIdCounter))
        && stages == old(stages)[old(stageIdCounter) := PipelineStage(old(stageIdCounter), plan)]
        && stageIdCounter == old(stageIdCounter) + 1
    {
      var verdict := check(plan);
      if verdict.None? {
        return Err(Panicked(OptimizedAwayMessage));
      }
      if !verdict.value {
        return Err(ValueError(plan));
      }
      if plan.Join? {
        r := BuildJoinStage(check, plan);
      } else {
        RewriteCutsJoins(plan);
        r := BuildPipelineStage(check, plan);
      }
    }

    /** The join branch: build both inputs' stages (left first), allocate the
        join's id, cut both children off at placeholder scans, and store a hash
        join stage reading output 0 of each input stage. A condition with a
        non-equality residue is refused after the id is allocated. */
    method BuildJoinStage(check: LogicalPlan -> Option<bool>, plan: LogicalPlan)
      returns (r: Result<StageID, DaftError>)
      requires Valid()
      requires plan.Join?
      modifies this
      decreases Size(plan), 0
      ensures Valid()
      ensures Extends(old(stages), stages) && old(stageIdCounter) <= stageIdCounter
      ensures r.Ok? ==> old(stageIdCounter) <= r.value && r.value == stageIdCounter - 1 && r.value in stages
      ensures r.Ok? ==> stages[r.value].outputChannels == [OutputChannel([], DataChannel(plan.schema, None, None))]
      ensures r.Ok? ==> IsHashJoinStage(stages[r.value], plan)
      // both producers were built by this call, the left one first, and the
      // right one is the stage allocated just before the join
      ensures r.Ok? ==> && |stages[r.value].inputChannels| == 2
                        && old(stageIdCounter) <= stages[r.value].inputChannels[0].fromStage
                        && stages[r.value].inputChannels[1].fromStage == r.value - 1
      ensures SplitEqPreds(plan.on).remaining != [] ==> r.Err?
      ensures r.Err? ==> !r.error.InternalError?
    {
      var leftStageId :- BuildStagesFromPlan(check, plan.left);
      var rightStageId :- BuildStagesFromPlan(check, plan.right);
      r := FinishJoinStage(plan, leftStageId, rightStageId);
    }

    /** The rest of the join branch, once both input stages exist. */
    method FinishJoinStage(plan: LogicalPlan, leftStageId: StageID, rightStageId: StageID)
      returns (r: Result<StageID, DaftError>)
      requires Valid()
      requires plan.Join?
      requires leftStageId < rightStageId && leftStageId in stages && rightStageId in stages
      requires stages[leftStageId].outputChannels == [OutputChannel([], DataChannel(plan.left.schema, None, None))]
      requires stages[rightStageId].outputChannels == [OutputChannel([], DataChannel(plan.right.schema, None, None))]
      modifies this
      ensures Valid()
      ensures Extends(old(stages), stages) && stageIdCounter == old(stageIdCounter) + 1
      ensures r.Ok? ==> r.value == old(stageIdCounter) && r.value in stages
      ensures r.Ok? ==> stages[r.value].outputChannels == [OutputChannel([], DataChannel(plan.schema, None, None))]
      ensures r.Ok? ==> IsHashJoinStage(stages[r.value], plan)
      // the left input reads the left producer, the right input the right one
      ensures r.Ok? ==> && |stages[r.value].inputChannels| == 2
                        && stages[r.value].inputChannels[0].fromStage == leftStageId
                        && stages[r.value].inputChannels[1].fromStage == rightStageId
      ensures SplitEqPreds(plan.on).remaining != [] <==> r.Err?
      ensures r.Err? ==> r == Err(NotImplemented(NonEqualityJoinMessage)) && stages == old(stages)
    {
      var stageId := NextStageId();
      var leftChild := PlaceholderSource(plan.left.schema);
      var rightChild := PlaceholderSource(plan.right.schema);
      var joinPlan := WithNewChildren(plan, [leftChild, rightChild]);
      var split := SplitEqPreds(plan.on);
      if split.remaining != [] {
        return Err(NotImplemented(NonEqualityJoinMessage));
      }
      var schema := joinPlan.schema;
      // both producers exist and have an output 0, so neither lookup fails
      var leftInput := CreateInputChannel(leftStageId, 0).value;
      var rightInput := CreateInputChannel(rightStageId, 0).value;
      var created := CreateOutputChannel(schema, None);
      var outputChannel := created.value;
      var stage := Stage(stageId,
                         HashJoin(joinPlan, split.leftOn, split.rightOn, Some(split.nullEqualsNull), plan.joinType),
                         [leftInput, rightInput], [outputChannel]);
      AddStage(stage);
      r := Ok(stageId);
    }

    /** The pipeline branch: fuse the plan into one pipeline, cutting out the
        join `MapPipelineBuilder` captures; if one was cut out, build its stages
        first and read their output 0; then allocate this stage's id and store
        it. */
    method BuildPipelineStage(check: LogicalPlan -> Option<bool>, plan: LogicalPlan)
      returns (r: Result<StageID, DaftError>)
      requires Valid()
      requires !plan.Join?
      modifies this
      decreases Size(plan), 0
      ensures Valid()
      ensures Extends(old(stages), stages) && old(stageIdCounter) <= stageIdCounter
      ensures r.Ok? ==> old(stageIdCounter) <= r.value && r.value == stageIdCounter - 1 && r.value in stages
      ensures r.Ok? ==> stages[r.value].outputChannels == [OutputChannel([], DataChannel(plan.schema, None, None))]
      ensures r.Ok? ==> IsMapPipelineStage(stages[r.value], plan)
      // a cut-out join is read from the root of the stages built for it, which
      // is the stage allocated just before this one
      ensures r.Ok? && RewritePlan(plan).transformed ==>
        && |stages[r.value].inputChannels| == 1
        && old(stageIdCounter) <= stages[r.value].inputChannels[0].fromStage == r.value - 1
      ensures r.Err? ==> !r.error.InternalError?
      ensures !RewritePlan(plan).transformed ==>
        && r == Ok(old(stageIdCounter))
        && stages == old(stages)[old(stageIdCounter) := PipelineStage(old(stageIdCounter), plan)]
        && stageIdCounter == old(stageIdCounter) + 1
    {
      var output, remaining := CutPipeline(plan);
      var newPlan := output.data;
      var inputChannels: seq<InputChannel> := [];
      if output.transformed {
        // the source's `expect` on `remaining` cannot fail: see RewritePlan
        var input :- BuildInputStages(check, remaining.value);
        inputChannels := [input];
      }
      ghost var before := stageIdCounter;
      assert output.transformed ==> inputChannels[0].fromStage == before - 1 && old(stageIdCounter) <= before - 1;
      var stageId := FinishPipelineStage(newPlan, inputChannels);
      ghost var stage := stages[stageId];
      assert stageId == before && stage.inputChannels == inputChannels && stage.stageType == MapPipeline(newPlan);
      r := Ok(stageId);
    }

    /** Builds the stages of the cut-out sub-plan and returns the input channel
        reading their root's output 0. */
    method BuildInputStages(check: LogicalPlan -> Option<bool>, remaining: LogicalPlan)
      returns (r: Result<InputChannel, DaftError>)
      requires Valid()
      modifies this
      decreases Size(remaining), 2
      ensures Valid()
      ensures Extends(old(stages), stages) && old(stageIdCounter) <= stageIdCounter
      ensures r.Ok? ==> && r.value.fromStage < stageIdCounter
                        && ChannelResolves(stages, r.value)
                        // the producer is the root just built: the newest stage
                        && r.value.fromStage == stageIdCounter - 1
                        && old(stageIdCounter) <= r.value.fromStage
                        && r.value.fromStage !in old(stages)
                        && r.value.channelId == ChannelID(0)
                        && r.value.dataChannel == DataChannel(remaining.schema, None, None)
      ensures r.Err? ==> !r.error.InternalError?
    {
      var childStage :- BuildStagesFromPlan(check, remaining);
      // the child stage was just stored with one output, so this lookup cannot fail
      r := Ok(CreateInputChannel(childStage, 0).value);
    }

    /** The rest of the pipeline branch, once the stages it reads from exist:
        allocate the id and store the pipeline stage. */
    method FinishPipelineStage(newPlan: LogicalPlan, inputChannels: seq<InputChannel>) returns (stageId: StageID)
      requires Valid()
      requires forall c :: c in inputChannels ==> c.fromStage < stageIdCounter && ChannelResolves(stages, c)
      modifies this
      ensures Valid()
      ensures stageId == old(stageIdCounter) && stageIdCounter == stageId + 1
      ensures stages == old(stages)[stageId := Stage(stageId, MapPipeline(newPlan), inputChannels,
                                                     [OutputChannel([], DataChannel(newPlan.schema, None, None))])]
      ensures Extends(old(stages), stages)
    {
      var schema := newPlan.schema;
      stageId := NextStageId();
      var created := CreateOutputChannel(schema, None);
      var outputChannel := created.value;
      var stage := Stage(stageId, MapPipeline(newPlan), inputChannels, [outputChannel]);
      AddStage(stage);
    }

    /** Builds the stage plan with the real translatability check. A translatable
        plan becomes a single source pipeline stage with the next id, which is
        the root; every plan containing a join fails. */
    method BuildStagePlan(plan: LogicalPlan, config: ExecutionConfig) returns (r: Result<StagePlan, DaftError>)
      requires Valid()
      modifies this
      ensures r.Ok? ==> ValidStagePlan(r.value) && r.value.stages == stages && r.value.config == config
      ensures r.Ok? <==> CanTranslateLogicalPlan(plan) == Some(true)
      ensures CanTranslateLogicalPlan(plan) == Some(true) ==>
        r == Ok(StagePlan(old(stages)[old(stageIdCounter) := PipelineStage(old(stageIdCounter), plan)],
                          old(stageIdCounter), config))
      ensures CanTranslateLogicalPlan(plan) == Some(false) ==> r == Err(ValueError(plan))
      ensures CanTranslateLogicalPlan(plan) == None ==> r == Err(Panicked(OptimizedAwayMessage))
      ensures ContainsJoin(plan) ==> r.Err?
    {
      assert CanTranslateLogicalPlan(plan) == Some(true) ==> !ContainsJoin(plan) by {
        if CanTranslateLogicalPlan(plan) == Some(true) {
          JoinBranchUnreachable(plan);
        }
      }
      var rootStageId :- BuildStagesFromPlan(CanTranslateLogicalPlan, plan);
      r := Ok(StagePlan(stages, rootStageId, config));
    }
  }

  /** Planning from a fresh builder, as the distributed runner does: a
      translatable plan becomes one source pipeline stage with id 0, which is
      the root; a plan whose root is a join is reported untranslatable. */
  method PlanStages(plan: LogicalPlan, config: ExecutionConfig) returns (r: Result<StagePlan, DaftError>)
    ensures r.Ok? <==> CanTranslateLogicalPlan(plan) == Some(true)
    ensures r.Ok? ==> r.value == StagePlan(map[0 := PipelineStage(0, plan)], 0, config)
    ensures CanTranslateLogicalPlan(plan) == Some(false) ==> r == Err(ValueError(plan))
    ensures CanTranslateLogicalPlan(plan) == None ==> r == Err(Panicked(OptimizedAwayMessage))
    ensures plan.Join? ==> r == Err(ValueError(plan))
  {
    var builder := new StagePlanBuilder();
    r := builder.BuildStagePlan(plan, config);
    assert plan.Join? ==> CanTranslateLogicalPlan(plan) == Some(false) by {
      if plan.Join? {
        JoinRootRejected(plan);
      }
    }
  }
}
