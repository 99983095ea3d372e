/**
 How the stages fit together: the text parser feeds the planner, and the plan
 runs against the storage engine. Also records that the lexer's output cannot
 drive the token parser.
 */
module Pipeline {
  import opened Wrappers
  import opened Schema
  import Lexer
  import Parser
  import Planner
  import Executor
  import Query

  /** Why a query did not produce rows. */
  datatype QueryError =
    | InvalidQuery(parseError: Parser.ParseError)
    | ExecutionFailed(executionError: Executor.ExecutionError)

  /** Parse the text, plan the statement and execute the plan, as the entry point
      does (which unwraps each failure instead of returning it). */
  method RunQuery(engine: Executor.ExecutionEngine, input: string)
    returns (r: Result<seq<Row>, QueryError>, ghost order: seq<nat>)
    ensures Parser.Parse(input).Failure? ==> r == Failure(InvalidQuery(Parser.Parse(input).error))
    ensures Parser.Parse(input).Success? ==>
              var table := Parser.Parse(input).value.table.text;
              && (r.Failure? <==> table !in engine.storageEngine.tables)
              && (r.Failure? ==> r.error == ExecutionFailed(Executor.TableNotFound(table)))
              && (r.Success? ==>
                    var rows := engine.storageEngine.tables[table].rows;
                    && Executor.ListsExactly(order, rows.Keys)
                    && |r.value| == |rows|
                    && forall i :: 0 <= i < |r.value| ==>
                         r.value[i] == Executor.ProjectRow(rows[order[i]], [Query.Identifier("*")]))
  {
    var parsed := Parser.Parse(input);
    if parsed.Failure? {
      return Failure(InvalidQuery(parsed.error)), [];
    }
    var plan := Planner.Plan(parsed.value);
    var executed;
    executed, order := Executor.Execute(engine, plan);
    if executed.Failure? {
      return Failure(ExecutionFailed(executed.error)), order;
    }
    return Success(executed.value), order;
  }

  /** The token parser accepts nothing the lexer produces: success needs a
      `Keyword("FROM")` token, and the lexer never emits one. This holds for the
      parser as written and for the corrected one alike. */
  lemma LexerOutputNeverParses(input: string)
    ensures Parser.ParseSelectStatement(Parser.New(Lexer.Lex(input))).Failure?
    ensures Parser.ParseSelectStatementCorrected(Parser.New(Lexer.Lex(input))).Failure?
  {
    var tokens := Lexer.Lex(input);
    var j := Parser.ProjectionEnd(tokens, 1);
    if j < |tokens| {
      Lexer.NoFromKeyword(input, j);
    }
    if j + 1 < |tokens| {
      Lexer.NoFromKeyword(input, j + 1);
    }
  }
}
