/** The rewrite that cuts a pipeline at its first join: `MapPipelineBuilder`
    (a tree rewriter whose `remaining` field captures the cut-out join) and the
    top-down `rewrite` traversal that drives it. */
module PipelineRewrite {
  import opened Wrappers
  import opened LogicalPlans

  /** A node returned by a rewrite step, flagged when something was replaced. */
  datatype Transformed = Transformed(data: LogicalPlan, transformed: bool)

  // ---------------------------------------------------------------------------
  // What the rewrite computes: every join that is not below another join is
  // replaced by a placeholder scan with the join's schema, and the join visited
  // last in pre-order is the one captured.

  datatype Rewritten = Rewritten(plan: LogicalPlan, transformed: bool, captured: Option<LogicalPlan>)

  datatype RewrittenChildren = RewrittenChildren(plans: seq<LogicalPlan>, transformed: bool, captured: Option<LogicalPlan>)

  ghost function RewritePlan(p: LogicalPlan): (r: Rewritten)
    decreases Size(p), 1, 0
    ensures r.transformed <==> r.captured.Some?
    ensures !r.transformed ==> r.plan == p
    ensures r.plan.schema == p.schema
    ensures r.captured.Some? ==> Size(r.captured.value) <= Size(p)
    ensures r.captured.Some? && !p.Join? ==> Size(r.captured.value) < Size(p)
  {
    if p.Join? then
      Rewritten(PlaceholderSource(p.schema), true, Some(p))
    else
      var kids := RewriteChildren(p, |Children(p)|);
      Rewritten(if kids.transformed then WithNewChildren(p, kids.plans) else p, kids.transformed, kids.captured)
  }

  /** The rewrite of the first `i` children of `p`, left to right; a join
      captured later overwrites one captured earlier. */
  ghost function RewriteChildren(p: LogicalPlan, i: nat): (r: RewrittenChildren)
    requires i <= |Children(p)|
    decreases Size(p), 0, i
    ensures |r.plans| == i
    ensures r.transformed <==> r.captured.Some?
    ensures !r.transformed ==> r.plans == Children(p)[..i]
    ensures r.captured.Some? ==> Size(r.captured.value) < Size(p)
  {
    if i == 0 then RewrittenChildren([], false, None)
    else
      var prev := RewriteChildren(p, i - 1);
      var c := RewritePlan(Children(p)[i - 1]);
      RewrittenChildren(prev.plans + [c.plan], prev.transformed || c.transformed,
                        if c.captured.Some? then c.captured else prev.captured)
  }

  /** The rewrite fires exactly when the plan contains a join, leaves no join
      behind, and what it captures is a join. */
  lemma {:induction false} RewriteCutsJoins(p: LogicalPlan)
    decreases Size(p), 1, 0
    ensures RewritePlan(p).transformed <==> ContainsJoin(p)
    ensures !ContainsJoin(RewritePlan(p).plan)
    ensures RewritePlan(p).captured.Some? ==> RewritePlan(p).captured.value.Join?
  {
    if !p.Join? {
      RewriteChildrenCutJoins(p, |Children(p)|);
      assert Children(p)[..|Children(p)|] == Children(p);
    }
  }

  lemma {:induction false} RewriteChildrenCutJoins(p: LogicalPlan, i: nat)
    requires i <= |Children(p)|
    decreases Size(p), 0, i
    ensures RewriteChildren(p, i).transformed <==> exists k :: 0 <= k < i && ContainsJoin(Children(p)[k])
    ensures forall k :: 0 <= k < i ==> !ContainsJoin(RewriteChildren(p, i).plans[k])
    ensures RewriteChildren(p, i).captured.Some? ==> RewriteChildren(p, i).captured.value.Join?
  {
    if i > 0 {
      RewriteChildrenCutJoins(p, i - 1);
      RewriteCutsJoins(Children(p)[i - 1]);
    }
  }

  // ---------------------------------------------------------------------------

  /** The rewriter object; `remaining` receives the join that is cut out. */
  class MapPipelineBuilder {
    var remaining: Option<LogicalPlan>

    constructor ()
      ensures remaining == None
    {
      remaining := None;
    }

    /** Pre-order step: a join becomes a placeholder scan with the join's
        schema and is remembered in `remaining`; any other node is kept. */
    method FDown(node: LogicalPlan) returns (t: Transformed)
      modifies this
      ensures node.Join? ==> t == Transformed(PlaceholderSource(node.schema), true) && remaining == Some(node)
      ensures !node.Join? ==> t == Transformed(node, false) && remaining == old(remaining)
    {
      if node.Join? {
        var newScan := PlaceholderSource(node.schema);
        remaining := Some(node);
        t := Transformed(newScan, true);
      } else {
        t := Transformed(node, false);
      }
    }

    /** Post-order step: leaves every node as it is. */
    method FUp(node: LogicalPlan) returns (t: Transformed)
      ensures t == Transformed(node, false)
    {
      t := Transformed(node, false);
    }
  }

  /** The top-down rewrite traversal: `FDown` on the node, then the children of
      what it returned, rebuilding the node if a child changed, then `FUp`. */
  method Rewrite(rewriter: MapPipelineBuilder, node: LogicalPlan) returns (t: Transformed)
    modifies rewriter
    decreases Size(node), 1
    ensures t.data == RewritePlan(node).plan
    ensures t.transformed == RewritePlan(node).transformed
    ensures rewriter.remaining ==
      if RewritePlan(node).captured.Some? then RewritePlan(node).captured else old(rewriter.remaining)
  {
    var down := rewriter.FDown(node);
    var n := down.data;
    assert Size(n) <= Size(node);
    var newChildren, anyTransformed := RewriteEachChild(rewriter, n);
    var mapped := if anyTransformed then WithNewChildren(n, newChildren) else n;
    var up := rewriter.FUp(mapped);
    t := Transformed(up.data, down.transformed || anyTransformed || up.transformed);
  }

  /** The children of `n` rewritten left to right with the same rewriter. */
  method RewriteEachChild(rewriter: MapPipelineBuilder, n: LogicalPlan)
    returns (newChildren: seq<LogicalPlan>, anyTransformed: bool)
    modifies rewriter
    decreases Size(n), 0
    ensures newChildren == RewriteChildren(n, |Children(n)|).plans
    ensures anyTransformed == RewriteChildren(n, |Children(n)|).transformed
    ensures rewriter.remaining ==
      if RewriteChildren(n, |Children(n)|).captured.Some? then RewriteChildren(n, |Children(n)|).captured
      else old(rewriter.remaining)
  {
    var cs := Children(n);
    newChildren := [];
    anyTransformed := false;
    for i := 0 to |cs|
      invariant newChildren == RewriteChildren(n, i).plans
      invariant anyTransformed == RewriteChildren(n, i).transformed
      invariant rewriter.remaining ==
        if RewriteChildren(n, i).captured.Some? then RewriteChildren(n, i).captured else old(rewriter.remaining)
    {
      var child := Rewrite(rewriter, cs[i]);
      newChildren := newChildren + [child.data];
      anyTransformed := anyTransformed || child.transformed;
    }
  }

  /** A fresh `MapPipelineBuilder` driven over `plan`: the rewritten plan, and
      the join it captured, if any. */
  method CutPipeline(plan: LogicalPlan) returns (output: Transformed, remaining: Option<LogicalPlan>)
    ensures output.data == RewritePlan(plan).plan
    ensures output.transformed == RewritePlan(plan).transformed
    ensures remaining == RewritePlan(plan).captured
  {
    var rewriter := new MapPipelineBuilder();
    output := Rewrite(rewriter, plan);
    remaining := rewriter.remaining;
  }
}
