/** `QueryPlanner::plan`: from a SELECT statement to the plan the executor runs. */
module Planner {
  import opened Query
  import Parser

  /** The statement a plan was made from: the plan's fields as a `SelectStatement`. */
  function ToStatement(plan: QueryPlan): (ast: Parser.ASTNode)
    ensures ast.SelectStatement?
  {
    Parser.SelectStatement(plan.projection, plan.table)
  }

  /** `QueryPlanner::plan`. Only `SelectStatement` is planned; the source reaches
      `unimplemented!()` for any other node, so that is excluded by the precondition.
      Nothing is lost or rewritten: the statement is recovered from the plan. */
  function Plan(ast: Parser.ASTNode): (plan: QueryPlan)
    requires ast.SelectStatement?
    ensures ToStatement(plan) == ast
  {
    QueryPlan(ast.projection, ast.table)
  }

  /** Planning a statement recovered from a plan gives back that plan, so `Plan`
      and `ToStatement` are inverse bijections between plans and SELECT statements. */
  lemma PlanRoundTrip(plan: QueryPlan)
    ensures Plan(ToStatement(plan)) == plan
  {
  }

  /** The projection is copied verbatim, position by position, duplicates included. */
  lemma PlanKeepsProjection(ast: Parser.ASTNode)
    requires ast.SelectStatement?
    ensures |Plan(ast).projection| == |ast.projection|
    ensures forall i :: 0 <= i < |ast.projection| ==> Plan(ast).projection[i] == ast.projection[i]
    ensures Plan(ast).table == ast.table
  {
  }
}
