/** The translatability check (`can_translate_logical_plan`): a pre-order walk
    over every node of a plan, the root included, that stops at the first node
    the stage planner cannot place into a stage. */
module TranslateCheck {
  import opened Wrappers
  import opened LogicalPlans

  /** What the per-node closure tells the walk: go on, stop (the plan is not
      translatable), or panic (a node kind that must have been optimised away). */
  datatype Visit = Continue | Stop | Panic

  /** The per-node policy, one arm per node kind. It continues exactly on
      allowed nodes, panics exactly on the kinds that must have been optimised
      away, and stops on every other node. */
  function VisitNode(node: LogicalPlan): (v: Visit)
    ensures v == Continue <==> Allowed(node)
    ensures v == Panic <==> MustBeOptimizedAway(node)
    ensures v == Stop <==> Rejected(node)
  {
    match node
    case Source(_, _) => Continue
    case Unary(op, _, _) =>
      (match op
       case Project => Continue
       case Filter => Continue
       case Sink => Continue
       case Sample => Continue
       case Explode => Continue
       case ActorPoolProject => Continue
       case Unpivot => Continue
       case MonotonicallyIncreasingId => Continue
       case Distinct => Continue
       case Limit(_) => Continue
       case Repartition(spec) => if spec.Hash? then Continue else Stop
       case Aggregate(groupby) => if groupby == [] then Stop else Continue
       case Window(spec) => if spec.partitionBy == [] then Stop else Continue
       case Sort => Stop
       case TopN => Stop
       case Pivot => Stop
       case SubqueryAlias => Panic
       case Shard => Panic)
    case Binary(bop, _, _, _) =>
      (match bop
       case Concat => Stop
       case Intersect => Panic
       case Union => Panic)
    case Join(_, _, _, _, _) => Stop
  }

  /** `apply`: visit the node, then (if told to continue) its children in order;
      a `Stop` or a panic ends the whole walk. */
  function Apply(p: LogicalPlan): Visit
    decreases Size(p), 1, 0
  {
    match VisitNode(p)
    case Continue => ApplyChildren(p, 0)
    case Stop => Stop
    case Panic => Panic
  }

  /** The walk over the children of `p` from index `i` on. */
  function ApplyChildren(p: LogicalPlan, i: nat): Visit
    requires i <= |Children(p)|
    decreases Size(p), 0, |Children(p)| - i
  {
    if i == |Children(p)| then Continue
    else
      match Apply(Children(p)[i])
      case Continue => ApplyChildren(p, i + 1)
      case Stop => Stop
      case Panic => Panic
  }

  /** The check itself. `Some(b)` is the returned verdict; `None` is the panic
      raised for Intersect, Union, SubqueryAlias and Shard. The verdict is true
      exactly when every node is allowed. Otherwise it is decided by the first
      node, in pre-order, that is not allowed: a panic when that node should
      have been optimised away, false when it is rejected. */
  function CanTranslateLogicalPlan(plan: LogicalPlan): (r: Option<bool>)
    ensures r == Some(true) <==> EveryNodeAllowed(plan)
    ensures r == Some(false) ==> SomeNodeRejected(plan)
    ensures r == None ==> SomeNodeOptimizedAway(plan)
    ensures !SomeNodeOptimizedAway(plan) ==> (r == Some(false) <==> SomeNodeRejected(plan))
    ensures !SomeNodeRejected(plan) ==> (r == None <==> SomeNodeOptimizedAway(plan))
    ensures var ns := PreOrder(plan); var k := FirstNotAllowed(ns);
      && (r == Some(true) <==> k == |ns|)
      && (r == None <==> k < |ns| && MustBeOptimizedAway(ns[k]))
      && (r == Some(false) <==> k < |ns| && Rejected(ns[k]))
  {
    ApplyCharacterized(plan);
    NotAllowedSomewhere(plan);
    ApplyIsFirstVisit(plan);
    match Apply(plan)
    case Continue => Some(true)
    case Stop => Some(false)
    case Panic => None
  }

  const OptimizedAwayMessage: string :=
    "Intersect, Union, SubqueryAlias, and Shard should be optimized away before planning stages"

  // ---------------------------------------------------------------------------
  // The policy restated node kind by node kind, as a reference for the walk.

  /** Node kinds the planner can always fuse into a pipeline. */
  predicate AlwaysTranslatable(n: LogicalPlan)
  {
    || n.Source?
    || (n.Unary? && (n.op.Project? || n.op.Filter? || n.op.Sink? || n.op.Sample? || n.op.Explode?
                     || n.op.ActorPoolProject? || n.op.Unpivot? || n.op.MonotonicallyIncreasingId?
                     || n.op.Distinct? || n.op.Limit?))
  }

  /** A node the planner accepts: an always-translatable kind, a hash
      repartition, a grouped aggregate, or a partitioned window. */
  predicate Allowed(n: LogicalPlan)
  {
    || AlwaysTranslatable(n)
    || (n.Unary? && n.op.Repartition? && n.op.repartitionSpec.Hash?)
    || (n.Unary? && n.op.Aggregate? && n.op.groupby != [])
    || (n.Unary? && n.op.Window? && n.op.windowSpec.partitionBy != [])
  }

  /** Node kinds an earlier optimisation pass guarantees to have removed. */
  predicate MustBeOptimizedAway(n: LogicalPlan)
  {
    || (n.Binary? && (n.bop.Intersect? || n.bop.Union?))
    || (n.Unary? && (n.op.SubqueryAlias? || n.op.Shard?))
  }

  /** A node that makes the plan untranslatable (and is not a panic case). */
  predicate Rejected(n: LogicalPlan)
  {
    !Allowed(n) && !MustBeOptimizedAway(n)
  }

  ghost predicate EveryNodeAllowed(p: LogicalPlan)
    decreases Size(p)
  {
    Allowed(p) && forall i :: 0 <= i < |Children(p)| ==> EveryNodeAllowed(Children(p)[i])
  }

  ghost predicate SomeNodeRejected(p: LogicalPlan)
    decreases Size(p)
  {
    Rejected(p) || exists i :: 0 <= i < |Children(p)| && SomeNodeRejected(Children(p)[i])
  }

  ghost predicate SomeNodeOptimizedAway(p: LogicalPlan)
    decreases Size(p)
  {
    MustBeOptimizedAway(p) || exists i :: 0 <= i < |Children(p)| && SomeNodeOptimizedAway(Children(p)[i])
  }

  // ---------------------------------------------------------------------------
  // The walk restated as a search: list the nodes in pre-order, then look
  // for the first one that is not allowed.

  /** Every node of the tree, parents before their children, children left
      to right. */
  function PreOrder(p: LogicalPlan): (ns: seq<LogicalPlan>)
    decreases Size(p), 1, 0
    ensures |ns| >= 1 && ns[0] == p
  {
    [p] + ChildrenPreOrder(p, 0)
  }

  /** The pre-order listings of the children of `p` from index `i` on. */
  function ChildrenPreOrder(p: LogicalPlan, i: nat): seq<LogicalPlan>
    requires i <= |Children(p)|
    decreases Size(p), 0, |Children(p)| - i
  {
    if i == |Children(p)| then [] else PreOrder(Children(p)[i]) + ChildrenPreOrder(p, i + 1)
  }

  /** The position of the first node of `ns` that is not allowed, or `|ns|`
      when there is none. */
  function FirstNotAllowed(ns: seq<LogicalPlan>): (k: nat)
    ensures k <= |ns|
    ensures forall j :: 0 <= j < k ==> Allowed(ns[j])
    ensures k < |ns| ==> !Allowed(ns[k])
  {
    if ns == [] || !Allowed(ns[0]) then 0 else 1 + FirstNotAllowed(ns[1..])
  }

  /** What visiting the nodes of `ns` in order, up to the first one that is
      not allowed, reports. */
  function WalkVerdict(ns: seq<LogicalPlan>): Visit
  {
    var k := FirstNotAllowed(ns);
    if k == |ns| then Continue else VisitNode(ns[k])
  }

  /** Any position meeting the specification of the first not-allowed node is it. */
  lemma FirstNotAllowedUnique(ns: seq<LogicalPlan>, k: nat)
    requires k <= |ns|
    requires forall j :: 0 <= j < k ==> Allowed(ns[j])
    requires k < |ns| ==> !Allowed(ns[k])
    ensures FirstNotAllowed(ns) == k
  {
  }

  /** Walking `a + b` walks `a`, then `b` only if `a` let the walk continue. */
  lemma WalkVerdictAppend(a: seq<LogicalPlan>, b: seq<LogicalPlan>)
    ensures WalkVerdict(a + b) == if WalkVerdict(a) == Continue then WalkVerdict(b) else WalkVerdict(a)
  {
    var ka := FirstNotAllowed(a);
    if ka < |a| {
      FirstNotAllowedUnique(a + b, ka);
    } else {
      var kb := FirstNotAllowed(b);
      forall j | 0 <= j < |a| + kb
        ensures Allowed((a + b)[j])
      {
        if j >= |a| {
          assert (a + b)[j] == b[j - |a|];
        }
      }
      FirstNotAllowedUnique(a + b, |a| + kb);
    }
  }

  /** The recursive walk reports exactly what the search over the pre-order
      listing finds. */
  lemma {:induction false} ApplyIsFirstVisit(p: LogicalPlan)
    decreases Size(p), 1, 0
    ensures Apply(p) == WalkVerdict(PreOrder(p))
  {
    ApplyChildrenIsFirstVisit(p, 0);
    WalkVerdictAppend([p], ChildrenPreOrder(p, 0));
    FirstNotAllowedUnique([p], if Allowed(p) then 1 else 0);
  }

  lemma {:induction false} ApplyChildrenIsFirstVisit(p: LogicalPlan, i: nat)
    requires i <= |Children(p)|
    decreases Size(p), 0, |Children(p)| - i
    ensures ApplyChildren(p, i) == WalkVerdict(ChildrenPreOrder(p, i))
  {
    if i == |Children(p)| {
      FirstNotAllowedUnique([], 0);
    } else {
      ApplyIsFirstVisit(Children(p)[i]);
      ApplyChildrenIsFirstVisit(p, i + 1);
      WalkVerdictAppend(PreOrder(Children(p)[i]), ChildrenPreOrder(p, i + 1));
    }
  }

  /** The walk continues through the whole tree exactly when every node is
      allowed; it stops only at a rejected node and panics only at a node
      that should have been optimised away. */
  lemma {:induction false} ApplyCharacterized(p: LogicalPlan)
    decreases Size(p), 1, 0
    ensures Apply(p) == Continue <==> EveryNodeAllowed(p)
    ensures Apply(p) == Stop ==> SomeNodeRejected(p)
    ensures Apply(p) == Panic ==> SomeNodeOptimizedAway(p)
  {
    if VisitNode(p) == Continue {
      ApplyChildrenCharacterized(p, 0);
    }
  }

  lemma {:induction false} ApplyChildrenCharacterized(p: LogicalPlan, i: nat)
    requires i <= |Children(p)|
    decreases Size(p), 0, |Children(p)| - i
    ensures ApplyChildren(p, i) == Continue <==>
      forall k :: i <= k < |Children(p)| ==> EveryNodeAllowed(Children(p)[k])
    ensures ApplyChildren(p, i) == Stop ==>
      exists k :: i <= k < |Children(p)| && SomeNodeRejected(Children(p)[k])
    ensures ApplyChildren(p, i) == Panic ==>
      exists k :: i <= k < |Children(p)| && SomeNodeOptimizedAway(Children(p)[k])
  {
    if i < |Children(p)| {
      ApplyCharacterized(Children(p)[i]);
      if Apply(Children(p)[i]) == Continue {
        ApplyChildrenCharacterized(p, i + 1);
      }
    }
  }

  /** A node that is not allowed is either rejected or must be optimised away. */
  lemma {:induction false} NotAllowedSomewhere(p: LogicalPlan)
    decreases Size(p)
    ensures !EveryNodeAllowed(p) <==> SomeNodeRejected(p) || SomeNodeOptimizedAway(p)
  {
    var cs := Children(p);
    forall i | 0 <= i < |cs|
      ensures !EveryNodeAllowed(cs[i]) <==> SomeNodeRejected(cs[i]) || SomeNodeOptimizedAway(cs[i])
    {
      NotAllowedSomewhere(cs[i]);
    }
  }

  /** A join anywhere in the tree makes some node not allowed. */
  lemma {:induction false} JoinIsNeverAllowed(p: LogicalPlan)
    decreases Size(p)
    requires ContainsJoin(p)
    ensures !EveryNodeAllowed(p)
  {
    if !p.Join? {
      var i :| 0 <= i < |Children(p)| && ContainsJoin(Children(p)[i]);
      JoinIsNeverAllowed(Children(p)[i]);
    }
  }

  /** The check rejects `Join` like Sort or Pivot, and it runs on the node the
      builder is about to match on. So a plan that passes the check contains no
      join at all: the builder's join branch, and the rewrite that cuts a
      nested join out of a pipeline, are never reached through this check. */
  lemma {:induction false} JoinBranchUnreachable(plan: LogicalPlan)
    requires CanTranslateLogicalPlan(plan) == Some(true)
    ensures !plan.Join?
    ensures !ContainsJoin(plan)
  {
    if ContainsJoin(plan) {
      JoinIsNeverAllowed(plan);
    }
  }

  /** A plan whose root is a join is reported untranslatable (not a panic):
      the walk visits the root first and stops there. */
  lemma JoinRootRejected(plan: LogicalPlan)
    requires plan.Join?
    ensures CanTranslateLogicalPlan(plan) == Some(false)
  {
  }

  /** The verdict follows the walk order: a Union under a projection panics,
      while the same Union under a Sort, or anything under a join root, is
      never reached because the walk stops first. */
  lemma WalkOrderExamples(src: LogicalPlan, sch: Schema)
    requires src.Source?
    ensures CanTranslateLogicalPlan(Unary(Project, Binary(Union, src, src, sch), sch)) == None
    ensures CanTranslateLogicalPlan(Unary(Sort, Binary(Union, src, src, sch), sch)) == Some(false)
    ensures CanTranslateLogicalPlan(Join(Unary(Shard, src, sch), src, [], Inner, sch)) == Some(false)
    ensures CanTranslateLogicalPlan(Unary(Filter, Join(src, Unary(Shard, src, sch), [], Inner, sch), sch)) == Some(false)
  {
    var union := Binary(Union, src, src, sch);
    assert Children(Unary(Project, union, sch)) == [union];
    assert ApplyChildren(Unary(Project, union, sch), 0) == Panic;
    var join := Join(src, Unary(Shard, src, sch), [], Inner, sch);
    assert Children(Unary(Filter, join, sch)) == [join];
    assert ApplyChildren(Unary(Filter, join, sch), 0) == Stop;
  }

  /** The plan with a join anywhere is never accepted: it is either rejected,
      or the walk panics first on a node that should have been optimised away. */
  lemma {:induction false} ContainsJoinNotTranslatable(plan: LogicalPlan)
    requires ContainsJoin(plan)
    ensures CanTranslateLogicalPlan(plan) != Some(true)
    ensures !SomeNodeOptimizedAway(plan) ==> CanTranslateLogicalPlan(plan) == Some(false)
  {
    JoinIsNeverAllowed(plan);
  }
}
