# not-so-sql query pipeline in Dafny

This project models the query pipeline of not-so-sql, a small relational engine written in Rust. The pipeline has six stages:

- **Lexer**: reads query text character by character and produces tokens (`Keyword`, `Identifier`, `Literal`, `Operator`, `Whitespace`, `Comma`, parentheses, `Eof`).
- **Token parser**: a recursive-descent parser over that token vector for `SELECT <identifiers> FROM <table>`.
- **Text parser**: a combinator parser built from nom's `tag`, `multispace0` and `alphanumeric1`. It parses `SELECT * FROM <table>` straight from text.
- **Planner**: turns a `SelectStatement` into a `QueryPlan`.
- **Storage engine**: an in-memory map from table name to table. Each table has ordered column names and rows keyed by row id.
- **Executor**: looks up the plan's table and projects every row onto the plan's columns. A missing column reads as the empty string.

Everything is modelled with immutable datatypes and pure functions, except for four methods:

- `Executor.EnumerateIds` visits a table's row ids in an order the model leaves open, because the source walks a `HashMap`.
- `Executor.ProjectRows` is the executor's row loop built on that order.
- `Executor.Execute` is the table lookup followed by that loop.
- `Pipeline.RunQuery` is the end-to-end run.

The modules follow the pipeline's structure rather than the source files. `Wrappers`, `CharClass` and `Nom` are support modules with no source file of their own. `query.rs` is split into `Query`, which holds the data types, and `Planner`. `Pipeline` has no source file either: it states how the stages connect, as `main.rs` wires them.

| module | file | models |
|---|---|---|
| `Wrappers` | `wrappers.dfy` | the `Result` type (support) |
| `CharClass` | `char_class.dfy` | the character classes and maximal-run scanning (support) |
| `Nom` | `nom.dfy` | the three nom combinators (support) |
| `Query` | `query.dfy` | `Identifier` and `QueryPlan` from `src/db/query.rs` |
| `Parser` | `parser.dfy` | tokens, the AST and both parsers from `src/db/parser.rs` |
| `Lexer` | `lexer.dfy` | the lexer from `src/db/lexer.rs` |
| `Planner` | `planner.dfy` | `QueryPlanner::plan` from `src/db/query.rs` |
| `Schema` | `schema.dfy` | `Row` and `Table` from `src/db/schema.rs` |
| `StorageEngine` | `storage_engine.dfy` | the storage engine from `src/db/storage_engine.rs` |
| `Executor` | `executor.dfy` | the executor from `src/db/executor.rs` |
| `Pipeline` | `pipeline.dfy` | how the stages connect, following `src/main.rs` |

## Model

| member | source | states |
|---|---|---|
| CharClass.Span | src/db/lexer.rs:38-45 | The scan loop stops at the first character outside the class. Every character before it is in the class. |
| CharClass.SpanIsMaximalRun | src/db/lexer.rs:38-45 | Splitting at `Span` gives the longest prefix in the class, and the rest does not start with a class character. |
| CharClass.MaximalRunIsSpan | src/db/lexer.rs:55-62 | Any split into a maximal run and a rest is the one `Span` finds, so the maximal run is unique. |
| Nom.Tag | src/db/parser.rs:86 | `tag(t)` succeeds iff the input starts with `t` (case-sensitive). It then returns the input after `t`. Otherwise it fails with an `ExpectedTag` error carrying the whole input. |
| Nom.Multispace0 | src/db/parser.rs:87 | `multispace0` never fails. It consumes the longest run of space, tab, CR and LF. |
| Nom.Alphanumeric1 | src/db/parser.rs:77-79 | Succeeds iff the input starts with an ASCII letter or digit, and then consumes the longest non-empty such run. Otherwise it fails with `ExpectedAlphaNumeric` on the whole input. |
| Lexer.NextToken | src/db/lexer.rs:27-68 | Gives the token class for each kind of first character, checked in the source's order. Whitespace, `,`, `(` and `)` each give one token. A letter starts a maximal alphanumeric run, which is `Keyword` iff it equals `SELECT` ignoring ASCII case. A digit starts a maximal digit run. Anything else is `Operator`. Empty input gives `Eof`. Every other step consumes at least one character. |
| Lexer.Lex | src/db/lexer.rs:19-25 | The output ends with exactly one `Eof` and has at most one token per character plus `Eof`. |
| Lexer.LexKeywordsAreSelect | src/db/lexer.rs:46-50 | Every keyword in the output has text equal to `SELECT` ignoring ASCII case. |
| Lexer.EndOfInputIsFixpoint | src/db/lexer.rs:66 | At end of input a step yields `Eof` and leaves the state unchanged, so the source loop never ends. |
| Lexer.NoFromKeyword | src/db/lexer.rs:46-50 | No input ever lexes to a `Keyword("FROM")` token. |
| Lexer.WordStep | src/db/lexer.rs:35-50 | A maximal word that starts with a letter becomes one token. It is `Keyword` iff it equals `SELECT` ignoring ASCII case, and keeps its original case either way. |
| Lexer.FromIsIdentifier | src/db/lexer.rs:46-50 | `FROM` becomes `Identifier("FROM")`. |
| Lexer.WhitespaceIsNotMerged | src/db/lexer.rs:31 | A run of n whitespace characters gives n separate `Whitespace` tokens. |
| Lexer.IdentifierStep | src/db/lexer.rs:35-50 | A maximal word other than `SELECT` (in any case) heads the token list as one identifier. |
| Lexer.LexSelectExample | src/db/lexer.rs:27-68 | `SELECT a FROM t` lexes to the eight tokens listed, including `Whitespace` tokens and `Identifier("FROM")`. |
| Parser.New | src/db/parser.rs:40-42 | A new parser holds exactly the given tokens and starts at the first one, index 0. |
| Parser.NextToken | src/db/parser.rs:71-75 | Yields the current token, or `Eof` at or past the end. It always advances by one and never changes the tokens. |
| Parser.ProjectionEnd | src/db/parser.rs:51-57 | The index of the first token from the start position that is neither an identifier nor a comma (or the end of the tokens). |
| Parser.ParseProjection | src/db/parser.rs:51-57 | The loop collects the identifiers in order, skips commas, and consumes the first other token too. It resumes right after that token. |
| Parser.ParseSelectStatement | src/db/parser.rs:48-69 | Succeeds iff the first token is `Keyword("SELECT")`, the token *after* the one that ended the projection is `Keyword("FROM")`, and the next token is an identifier. On success it returns the collected identifiers and that table. Each failure names the first check that fails and the token it found: `ExpectedSelect`, then `ExpectedFrom`, then `ExpectedTableName`. |
| Parser.ParseSelectStatementCorrected | src/db/parser.rs:48-69 | The same, except that the token which ended the projection must itself be `Keyword("FROM")`. The `ExpectedFrom` and `ExpectedTableName` errors then name that token and the one after it. |
| Parser.IdentifiersOfColumnTokens | src/db/parser.rs:53-54 | On a comma-separated list of identifiers, the projection loop collects exactly that list. |
| Parser.CorrectedParsesSelectTokens | src/db/parser.rs:48-69 | The corrected parser accepts every token stream `SELECT c1 , … cn FROM t` and returns columns `c1 … cn` and table `t`. |
| Parser.AsWrittenRejectsSelectTokens | src/db/parser.rs:51-59 | The parser as written rejects every such stream with `ExpectedFrom(Identifier(t))`. |
| Parser.ParseIdentifier | src/db/parser.rs:77-79 | `identifier` succeeds iff `alphanumeric1` does, and wraps the recognised run as an identifier. |
| Parser.TagThenSpace | src/db/parser.rs:86-91 | A literal followed by `multispace0` succeeds iff the input starts with the literal. The spacing it consumes is the maximal run after the literal. |
| Parser.SimpleSelectStatement | src/db/parser.rs:85-101 | On success the statement projects exactly `*`. The table name and the returned text together are shorter than the input, and the returned text does not start with an ASCII letter or digit. A failure reports the whole input iff the input does not start with `SELECT`. |
| Parser.SimpleSelectAccepts | src/db/parser.rs:85-101 | `SELECT`, spacing, `*`, spacing, `FROM`, spacing, a table name, then any text that does not start with an ASCII letter or digit: this succeeds. It returns that trailing text and `*` over the table. |
| Parser.SimpleSelectAcceptsOnly | src/db/parser.rs:85-101 | Every success has that shape: the input is the keywords, spacing and table name followed by the returned text. |
| Parser.SimpleSelectFailsAtSelect | src/db/parser.rs:86 | Text that does not start with `SELECT` fails with a tag error on the whole text. |
| Parser.SimpleSelectFailsAtStar | src/db/parser.rs:87-88 | If the text after `SELECT` and its spacing does not start with `*`, it fails with a tag error on that text. |
| Parser.SimpleSelectFailsAtFrom | src/db/parser.rs:89-90 | If the text after `*` and its spacing does not start with `FROM`, it fails with a tag error on that text. |
| Parser.SimpleSelectFailsAtTable | src/db/parser.rs:91-92 | If the text after `FROM` and its spacing does not start with an ASCII letter or digit, `identifier` fails with an alphanumeric error on that text. |
| Parser.Parse | src/db/parser.rs:103-117 | A successful `parse` always returns a `SelectStatement` with projection exactly `["*"]`. |
| Parser.ParseAcceptsCanonical | src/db/parser.rs:85-101 | `SELECT`, spacing, `*`, spacing, `FROM`, spacing, then an alphanumeric table name always parses to `*` over that table. |
| Parser.ParseAcceptsOnlyCanonical | src/db/parser.rs:85-110 | Every input that parses has exactly that shape, with the table name at the end. Together with the row above this characterises the accepted language. |
| Parser.ParseSelectStar | src/db/parser.rs:103-107 | `SELECT * FROM users` parses to projection `["*"]` over table `users`. |
| Parser.ParseFailsAtStar | src/db/parser.rs:88 | If `tag("*")` fails after `SELECT`, `parse` reports a syntax error on the text after `SELECT` and its spacing. |
| Parser.ParseRejectsMissingProjection | src/db/parser.rs:112-114 | `SELECT FROM users` fails with an `ExpectedTag` error on `FROM users`. |
| Parser.ParseRejectsTrailingInput | src/db/parser.rs:105-110 | Extra text after the table name that does not continue the name is rejected as unexpected input, and the text is reported verbatim. |
| Parser.ParseRejectsTrailingWord | src/db/parser.rs:105-110 | `SELECT * FROM users extra` fails with unexpected input ` extra`. |
| Parser.ParsedQueryEndsAlphanumeric | src/db/parser.rs:92-107 | Every input that parses ends in an ASCII letter or digit. |
| Parser.ParseRejectsTrailingSpace | src/db/parser.rs:105-110 | An input that ends in a space, tab or line break never parses. |
| Query.FromString | src/db/query.rs:8-11 | `From<String>` wraps the text unchanged. |
| Query.IdentifierEqualityIsTextEquality | src/db/query.rs:5-6 | Two identifiers are equal iff their texts are equal. |
| Query.NoCaseFolding | src/db/query.rs:5-6 | `users` and `Users` are different identifiers. |
| Planner.Plan | src/db/query.rs:29-37 | Planning a `SelectStatement` loses nothing: the statement can be recovered from the plan. |
| Planner.PlanRoundTrip | src/db/query.rs:31-34 | Planning the statement recovered from a plan gives back that plan. |
| Planner.PlanKeepsProjection | src/db/query.rs:31-33 | For every select statement, including one with an empty projection, the plan's projection has the same length and the same identifier at every position (duplicates kept), and the table is copied unchanged. |
| StorageEngine.New | src/db/storage_engine.rs:13-17 | A new engine has no tables and satisfies the row-id invariant. |
| StorageEngine.CreateTable | src/db/storage_engine.rs:19-27 | Maps the name to a table with the given columns and no rows, replacing any earlier table of that name. The other tables are unchanged. |
| StorageEngine.InsertRow | src/db/storage_engine.rs:29-34 | A missing table leaves the engine unchanged. Otherwise the row is stored under id equal to the old row count, and the table's columns, its other rows and all other tables are unchanged. The row is stored whatever its keys are. |
| StorageEngine.CreateTablePreservesValid | src/db/storage_engine.rs:19-27 | `create_table` preserves the invariant that every table's row ids are exactly 0 to count−1. |
| StorageEngine.AppendKeepsRowIdsDense | src/db/storage_engine.rs:31-32 | When ids are dense, the next id is fresh. Storing a row under it adds exactly one row and keeps the ids dense. |
| StorageEngine.InsertRowPreservesValid | src/db/storage_engine.rs:29-34 | `insert_row` preserves the row-id invariant. On an existing table the row count grows by exactly one. |
| StorageEngine.ThreeInsertsAssignConsecutiveIds | src/db/storage_engine.rs:31-32 | Three inserts into a fresh table store the rows under ids 0, 1 and 2 in order, and keep the columns. |
| Executor.ProjectInto | src/db/executor.rs:22-24 | Inserting the projected columns adds exactly those names as keys. Each gets the row's value or "", and earlier entries for other names are unchanged. |
| Executor.ProjectRow | src/db/executor.rs:21-25 | An output row's keys are exactly the projection's names. Each value is the source row's value for that name, or "" if the row lacks it. |
| Executor.EnumerateIds | src/db/executor.rs:20 | Iteration visits every row id exactly once. |
| Executor.ProjectRows | src/db/executor.rs:19-26 | Exactly one projected row per stored row, position i coming from the i-th id visited. |
| Executor.Execute | src/db/executor.rs:16-28 | Fails iff the table is absent, and then with `TableNotFound` carrying the plan's table name. Otherwise it returns one projected row per stored row, each id visited once. |
| Executor.MissingColumnDefaultsToEmpty | src/db/executor.rs:23 | Projecting `id, email` from `{id: 1, name: Ada}` gives `{id: 1, email: ""}`. |
| Executor.StarIsNotExpanded | src/db/executor.rs:22-23 | Projecting `*` gives a single column named `*` holding the row's `*` value or "". |
| Pipeline.RunQuery | src/main.rs:26-33 | Parse, plan and execute. A parse failure is returned as the parse error. Otherwise the result fails iff the parsed table is absent, and on success gives one `*`-projected row per stored row. |
| Pipeline.LexerOutputNeverParses | src/db/parser.rs:59 | The token parser rejects everything the lexer produces, whether as written or corrected, because the lexer never emits `Keyword("FROM")`. |

## Findings

| source | as written | input that shows it | evidently intended | confidence | as-written member | corrected member |
|---|---|---|---|---|---|---|
| src/db/parser.rs:51-59 | The projection loop's `_ => break` consumes the token that ends the projection. The `FROM` check at line 59 then inspects the token after it. | Tokens `Keyword("SELECT"), Identifier("a"), Keyword("FROM"), Identifier("t")` panic on the `FROM` assertion, which finds `Identifier("t")`. | The token that ends the projection is the `FROM` keyword, and the table name follows it. | high (not executed) | Parser.AsWrittenRejectsSelectTokens | Parser.CorrectedParsesSelectTokens |

`Parser.ParseSelectStatement` models the code as written, and `Parser.ParseSelectStatementCorrected` is the corrected definition. `Pipeline.LexerOutputNeverParses` covers both. Even the corrected parser never accepts lexer output, because the lexer has no `FROM` keyword.

## Left out

- Lexer.Lex: stops after the first `Eof`. The source's `lex` loops until `next_token` returns `None`, which never happens, so it never terminates (`Lexer.EndOfInputIsFixpoint` records why).
- CharClass.IsAlphabetic: Rust's `char::is_alphabetic` is restricted to ASCII letters. Non-ASCII letters lex as `Operator` here instead of starting a word, because the Unicode Alphabetic table is not reproduced.
- CharClass.IsAlphanumeric: Rust's `char::is_alphanumeric` is restricted to ASCII letters and digits, for the same reason. `char::is_whitespace` is modelled exactly.
- Parser.ParseSelectStatement: the source panics (`assert_eq!`, `panic!`). The model returns `Failure` instead, with the token found.
- Parser.Parse: the `Err` strings built with `format!` become the structured `ParseError` values `UnexpectedInput(remaining)` and `SyntaxError(nom error)`. `nom::Err::Incomplete` cannot arise from the complete-input combinators used, so it has no case.
- Planner.Plan: the `unimplemented!()` arm for non-`SelectStatement` nodes is a precondition rather than a modelled panic.
- Executor.Execute: the rows come out in `HashMap` iteration order, which the source does not fix. The model lets each step pick any unvisited id and returns the visit order as a ghost value, so its contract states the result per visited id rather than in a fixed order. The `println!` diagnostic is left out.
- Integer widths: `Parser.current` and row ids are `usize` in the source. They are unbounded `nat` here, so overflow is not modelled.
- `StorageEngine::serialize` and `deserialize` are left out: the encoding belongs to the external bincode library, and `deserialize` panics through `unwrap` on bad input.
- `FileSystem` (load, save, and the silent fallback to an empty engine) is left out because it is file I/O.
- The entry point's hard-coded query, its `unwrap`s and its printing are left out. `Pipeline.RunQuery` returns the errors that `main` unwraps.
- Trivial constructors other than `Parser::new` (which is `Parser.New`) are not modelled separately: `Lexer::new` is the input string itself, `QueryPlanner::new` has no state, and `ExecutionEngine::new` is the datatype constructor. `parse_v2` only delegates to `parse_select_statement`.
- The model keeps these behaviours of the code as written:
  - The token parser does not skip `Whitespace` tokens.
  - The text parser's keywords are case-sensitive.
  - Only `*` is accepted as a projection in the text parser.
  - `*` is never expanded into the table's columns.
