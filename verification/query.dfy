/** Identifiers and the query plan handed from the planner to the executor. */
module Query {

  /** A column or table name; equality is exact text equality. */
  datatype Identifier = Identifier(text: string)

  /** What will be executed: the projected columns, in order, and the target table. */
  datatype QueryPlan = QueryPlan(projection: seq<Identifier>, table: Identifier)

  /** `impl From<String> for Identifier`: wraps the text unchanged. */
  function FromString(s: string): (id: Identifier)
    ensures id.text == s
  {
    Identifier(s)
  }

  /** Identifiers are equal exactly when their texts are: there is no case folding. */
  lemma IdentifierEqualityIsTextEquality(a: Identifier, b: Identifier)
    ensures a == b <==> a.text == b.text
  {
  }

  /** Names differing only in case are different identifiers. */
  lemma NoCaseFolding()
    ensures FromString("users") != FromString("Users")
  {
    assert FromString("users").text[0] != FromString("Users").text[0];
  }
}
