/** The logical-plan tree the stage planner consumes. It is produced upstream
    (by the query analyser and optimiser); only what the planner inspects is
    kept: the node kind, the children, the output schema, and the few payloads
    the translatability check and the join stage read. */
module LogicalPlans {
  import opened Wrappers

  datatype Field = Field(name: string, dtype: string)

  /** A node's output schema, as computed by upstream schema inference. */
  datatype Schema = Schema(fields: seq<Field>)

  /** Expressions are opaque to the planner. */
  datatype Expr = Expr(text: string)

  datatype ClusteringSpec = Unknown | Random | HashClustering(keys: seq<Expr>) | RangeClustering(keys: seq<Expr>)

  datatype PlaceHolderInfo = PlaceHolderInfo(sourceSchema: Schema, clusteringSpec: ClusteringSpec)

  datatype SourceInfo =
    | InMemory(cacheKey: string)
    | Physical(scan: string)
    | PlaceHolder(info: PlaceHolderInfo)

  datatype RepartitionSpec = Hash(keys: seq<Expr>) | RandomShuffle | IntoPartitions(num: nat) | Range(keys: seq<Expr>)

  datatype WindowSpec = WindowSpec(partitionBy: seq<Expr>, orderBy: seq<Expr>)

  datatype JoinType = Inner | Left | Right | Outer | Anti | Semi

  /** One conjunct of a join condition. */
  datatype JoinCondition =
    | Eq(leftKey: Expr, rightKey: Expr)          // l = r
    | EqNullSafe(leftKey: Expr, rightKey: Expr)  // l <=> r
    | Residual(cond: Expr)                       // anything else

  /** The operator of a node with one input. */
  datatype UnaryOp =
    | Project | Filter | Sink | Sample | Explode | ActorPoolProject | Unpivot
    | MonotonicallyIncreasingId | Distinct | Limit(limit: nat)
    | Repartition(repartitionSpec: RepartitionSpec)
    | Aggregate(groupby: seq<Expr>)
    | Window(windowSpec: WindowSpec)
    | Sort | TopN | Pivot | SubqueryAlias | Shard

  /** The operator of a node with two inputs, other than a join. */
  datatype BinaryOp = Concat | Intersect | Union

  /** The plan tree. Every operator kind of the planner's input appears either
      as its own constructor (scans and joins, which the planner treats
      specially) or as the operator of a one- or two-input node. Every node
      carries its output schema. */
  datatype LogicalPlan =
    | Source(schema: Schema, sourceInfo: SourceInfo)
    | Unary(op: UnaryOp, input: LogicalPlan, schema: Schema)
    | Binary(bop: BinaryOp, lhs: LogicalPlan, rhs: LogicalPlan, schema: Schema)
    | Join(left: LogicalPlan, right: LogicalPlan, on: seq<JoinCondition>, joinType: JoinType, schema: Schema)

  /** Number of nodes in the tree; the measure for every recursion over plans. */
  function Size(p: LogicalPlan): nat
  {
    match p
    case Source(_, _) => 1
    case Unary(_, input, _) => 1 + Size(input)
    case Binary(_, lhs, rhs, _) => 1 + Size(lhs) + Size(rhs)
    case Join(left, right, _, _, _) => 1 + Size(left) + Size(right)
  }

  /** The children in the order the tree traversal visits them. */
  function Children(p: LogicalPlan): (cs: seq<LogicalPlan>)
    ensures forall i :: 0 <= i < |cs| ==> Size(cs[i]) < Size(p)
    ensures p.Source? <==> cs == []
    ensures |cs| <= 2
  {
    match p
    case Source(_, _) => []
    case Unary(_, input, _) => [input]
    case Binary(_, lhs, rhs, _) => [lhs, rhs]
    case Join(left, right, _, _, _) => [left, right]
  }

  /** The same node with its children replaced (`with_new_children`). */
  function WithNewChildren(p: LogicalPlan, cs: seq<LogicalPlan>): (q: LogicalPlan)
    requires |cs| == |Children(p)|
    ensures Children(q) == cs
    ensures q.schema == p.schema
    ensures q.Join? == p.Join? && q.Source? == p.Source? && q.Unary? == p.Unary?
    ensures q.Source? ==> q == p
    ensures q.Unary? ==> q.op == p.op
    ensures q.Binary? ==> q.bop == p.bop
    ensures q.Join? ==> q.on == p.on && q.joinType == p.joinType
    ensures cs == Children(p) ==> q == p
  {
    match p
    case Source(_, _) => p
    case Unary(op, _, schema) => Unary(op, cs[0], schema)
    case Binary(bop, _, _, schema) => Binary(bop, cs[0], cs[1], schema)
    case Join(_, _, on, joinType, schema) => Join(cs[0], cs[1], on, joinType, schema)
  }

  /** A placeholder scan standing for data that another stage will deliver:
      it carries the cut-out sub-plan's schema and an unknown clustering. */
  function PlaceholderSource(schema: Schema): (p: LogicalPlan)
    ensures p.Source? && p.schema == schema && Children(p) == []
    ensures p.sourceInfo.PlaceHolder?
    ensures p.sourceInfo.info.sourceSchema == schema && p.sourceInfo.info.clusteringSpec == Unknown
  {
    Source(schema, PlaceHolder(PlaceHolderInfo(schema, Unknown)))
  }

  /** Some node of the tree, the root included, is a join. (A node has at
      most two children.) */
  ghost predicate ContainsJoin(p: LogicalPlan)
    decreases Size(p)
  {
    var cs := Children(p);
    || p.Join?
    || (|cs| > 0 && ContainsJoin(cs[0]))
    || (|cs| > 1 && ContainsJoin(cs[1]))
  }

  /** The result of `split_eq_preds`: the non-equality residue, the left and
      right equality keys, and per key whether nulls compare equal. */
  datatype EqSplit = EqSplit(remaining: seq<Expr>, leftOn: seq<Expr>, rightOn: seq<Expr>, nullEqualsNull: seq<bool>)

  /** The equality conjuncts (plain or null-safe) of a condition, in order. */
  function Equalities(on: seq<JoinCondition>): (eqs: seq<JoinCondition>)
    ensures forall k :: 0 <= k < |eqs| ==> !eqs[k].Residual?
    ensures |eqs| + |Residues(on)| == |on|
  {
    if on == [] then []
    else if on[0].Residual? then Equalities(on[1..])
    else [on[0]] + Equalities(on[1..])
  }

  /** The non-equality conjuncts of a condition, in order. */
  function Residues(on: seq<JoinCondition>): (rs: seq<Expr>)
    ensures |rs| <= |on|
    ensures rs == [] <==> forall i :: 0 <= i < |on| ==> !on[i].Residual?
  {
    if on == [] then []
    else if on[0].Residual? then [on[0].cond] + Residues(on[1..])
    else Residues(on[1..])
  }

  /** `split_eq_preds`: the equality conjuncts become key pairs, in order, with
      a flag that is true exactly for a null-safe equality; every other
      conjunct goes to the residue, in order. */
  function SplitEqPreds(on: seq<JoinCondition>): (r: EqSplit)
    ensures |r.leftOn| == |r.rightOn| == |r.nullEqualsNull| == |Equalities(on)|
    ensures r.remaining == Residues(on)
    ensures |r.leftOn| + |r.remaining| == |on|
    ensures r.remaining == [] <==> forall i :: 0 <= i < |on| ==> !on[i].Residual?
  {
    if on == [] then EqSplit([], [], [], [])
    else
      var rest := SplitEqPreds(on[1..]);
      var c := on[0];
      if c.Residual? then
        EqSplit([c.cond] + rest.remaining, rest.leftOn, rest.rightOn, rest.nullEqualsNull)
      else
        // an equality, null-safe (`<=>`) or not
        EqSplit(rest.remaining, [c.leftKey] + rest.leftOn, [c.rightKey] + rest.rightOn,
                [c.EqNullSafe?] + rest.nullEqualsNull)
  }

  /** The key pairs of `split_eq_preds`, read back as conditions, are the
      equality conjuncts in order: a flag is true exactly for a null-safe
      equality. */
  lemma {:induction false} SplitEqPredsKeys(on: seq<JoinCondition>)
    ensures var r := SplitEqPreds(on);
      forall k :: 0 <= k < |r.leftOn| ==>
        Equalities(on)[k] == if r.nullEqualsNull[k] then EqNullSafe(r.leftOn[k], r.rightOn[k])
                             else Eq(r.leftOn[k], r.rightOn[k])
  {
    if on != [] {
      SplitEqPredsKeys(on[1..]);
      var r, rest, c := SplitEqPreds(on), SplitEqPreds(on[1..]), on[0];
      if !c.Residual? {
        var eqs := Equalities(on);
        assert eqs == [c] + Equalities(on[1..]);
        forall k | 0 <= k < |r.leftOn|
          ensures eqs[k] == if r.nullEqualsNull[k] then EqNullSafe(r.leftOn[k], r.rightOn[k])
                            else Eq(r.leftOn[k], r.rightOn[k])
        {
          if k > 0 {
            assert eqs[k] == Equalities(on[1..])[k - 1];
            assert r.leftOn[k] == rest.leftOn[k - 1] && r.rightOn[k] == rest.rightOn[k - 1];
            assert r.nullEqualsNull[k] == rest.nullEqualsNull[k - 1];
          }
        }
      }
    }
  }
}
