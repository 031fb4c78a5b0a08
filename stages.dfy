/** The stage graph: stages, their input and output channels, and the finished
    stage plan, with the well-formedness the builder maintains (every input
    channel resolves to an earlier stage's output, whose data description it
    copies). */
module Stages {
  import opened Wrappers
  import opened LogicalPlans

  type StageID = nat

  /** Index of one of a producer stage's output channels. */
  datatype ChannelID = ChannelID(index: nat)

  datatype Stats = Stats(numRows: nat, sizeBytes: nat)

  /** What flows across a channel. */
  datatype DataChannel = DataChannel(schema: Schema, clusteringSpec: Option<ClusteringSpec>, stats: Option<Stats>)

  /** `toStages` is a back-reference that planning leaves empty. */
  datatype OutputChannel = OutputChannel(toStages: seq<StageID>, dataChannel: DataChannel)

  /** A copy of the producer's output data description plus where it comes from. */
  datatype InputChannel = InputChannel(fromStage: StageID, channelId: ChannelID, dataChannel: DataChannel)

  datatype StageType =
    | MapPipeline(plan: LogicalPlan)
    | HashJoin(plan: LogicalPlan, leftOn: seq<Expr>, rightOn: seq<Expr>,
               nullEqualsNull: Option<seq<bool>>, joinType: JoinType)

  datatype Stage = Stage(id: StageID, stageType: StageType,
                         inputChannels: seq<InputChannel>, outputChannels: seq<OutputChannel>)

  /** The execution configuration is carried through unread. */
  datatype ExecutionConfig = ExecutionConfig(settings: seq<(string, string)>)

  datatype StagePlan = StagePlan(stages: map<StageID, Stage>, rootStage: StageID, config: ExecutionConfig)

  /** An output channel as planning creates it: no consumers recorded yet,
      no clustering, no statistics, and the given schema. */
  ghost predicate IsPlannedOutput(c: OutputChannel, schema: Schema)
  {
    c.toStages == [] && c.dataChannel == DataChannel(schema, None, None)
  }

  /** The channel names an existing producer and output index, and carries a
      copy of that output's data description. */
  ghost predicate ChannelResolves(stages: map<StageID, Stage>, c: InputChannel)
  {
    && c.fromStage in stages
    && c.channelId.index < |stages[c.fromStage].outputChannels|
    && stages[c.fromStage].outputChannels[c.channelId.index].dataChannel == c.dataChannel
  }

  /** One stage of the graph: stored under its own id, exactly one output
      channel whose schema is that of the stage's plan, and every input coming
      from a stage with a strictly smaller id. */
  ghost predicate StageWellFormed(stages: map<StageID, Stage>, id: StageID)
    requires id in stages
  {
    var s := stages[id];
    && s.id == id
    && |s.outputChannels| == 1
    && IsPlannedOutput(s.outputChannels[0], s.stageType.plan.schema)
    && forall c :: c in s.inputChannels ==> c.fromStage < id && ChannelResolves(stages, c)
  }

  ghost predicate WellWired(stages: map<StageID, Stage>)
  {
    forall id {:trigger StageWellFormed(stages, id)} :: id in stages ==> StageWellFormed(stages, id)
  }

  /** What the execution layer relies on: a well-wired graph whose root is a
      stage and comes after every other stage. */
  ghost predicate ValidStagePlan(p: StagePlan)
  {
    && WellWired(p.stages)
    && p.rootStage in p.stages
    && forall id :: id in p.stages ==> id <= p.rootStage
  }

  /** Every stage of `before` is still in `after`, unchanged. */
  ghost predicate Extends(before: map<StageID, Stage>, after: map<StageID, Stage>)
  {
    forall id :: id in before ==> id in after && after[id] == before[id]
  }

  /** Adding a stage with a fresh, larger id whose inputs resolve into the
      existing graph keeps the graph well wired. */
  lemma InsertStage(stages: map<StageID, Stage>, s: Stage)
    requires WellWired(stages)
    requires forall id :: id in stages ==> id < s.id
    requires |s.outputChannels| == 1 && IsPlannedOutput(s.outputChannels[0], s.stageType.plan.schema)
    requires forall c :: c in s.inputChannels ==> c.fromStage < s.id && ChannelResolves(stages, c)
    ensures WellWired(stages[s.id := s])
    ensures Extends(stages, stages[s.id := s])
  {
    var after := stages[s.id := s];
    forall id | id in after
      ensures StageWellFormed(after, id)
    {
      if id != s.id {
        assert StageWellFormed(stages, id);
        forall c | c in after[id].inputChannels
          ensures ChannelResolves(after, c)
        {
          assert ChannelResolves(stages, c);
        }
      } else {
        forall c | c in s.inputChannels
          ensures ChannelResolves(after, c)
        {
          assert ChannelResolves(stages, c);
        }
      }
    }
  }

  /** A path that follows input channels backwards from consumer to producer. */
  ghost predicate IsInputPath(stages: map<StageID, Stage>, path: seq<StageID>)
  {
    |path| <= 1
    || (&& path[0] in stages
        && (exists c :: c in stages[path[0]].inputChannels && c.fromStage == path[1])
        && IsInputPath(stages, path[1..]))
  }

  /** Acyclicity: along any path of input channels the ids strictly decrease,
      so no stage depends on itself and ascending ids are an execution order. */
  lemma {:induction false} InputPathsDescend(stages: map<StageID, Stage>, path: seq<StageID>)
    requires WellWired(stages)
    requires IsInputPath(stages, path)
    requires |path| >= 2
    ensures path[|path| - 1] < path[0]
  {
    assert StageWellFormed(stages, path[0]);
    var c :| c in stages[path[0]].inputChannels && c.fromStage == path[1];
    if |path| > 2 {
      InputPathsDescend(stages, path[1..]);
    }
  }
}
