/**
 * The parsed JSON document, as an already-built tree. The on-demand parser
 * hands out cursors into its buffer; here a node is simply the value it
 * denotes.
 */
module JsonTree {

  /** A JSON value. Object members keep their document order and may repeat
      keys; a scalar (number, string, true, false, null) is its lexeme. */
  datatype Json =
    | Object(members: seq<(string, Json)>)
    | Array(elements: seq<Json>)
    | Scalar(lexeme: string)

  /** `n` is `doc` itself or a value nested (at any depth) inside it. */
  ghost predicate SubNode(n: Json, doc: Json)
    decreases doc
  {
    n == doc ||
    match doc
    case Object(members) =>
      exists k :: 0 <= k < |members| && SubNode(n, members[k].1)
    case Array(elements) =>
      exists k :: 0 <= k < |elements| && SubNode(n, elements[k])
    case Scalar(_) => false
  }

  /** Nesting is transitive: a sub-node of a sub-node is a sub-node. */
  lemma {:induction false} SubNodeTransitive(a: Json, b: Json, c: Json)
    requires SubNode(a, b) && SubNode(b, c)
    ensures SubNode(a, c)
    decreases c
  {
    if b != c {
      match c
      case Object(members) =>
        var k :| 0 <= k < |members| && SubNode(b, members[k].1);
        SubNodeTransitive(a, b, members[k].1);
      case Array(elements) =>
        var k :| 0 <= k < |elements| && SubNode(b, elements[k]);
        SubNodeTransitive(a, b, elements[k]);
    }
  }
}
