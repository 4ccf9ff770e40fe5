/**
 * What a traversal emits, stated against the reference semantics `Matches`
 * (which `SimdJsonExtractor.Extract` is proved to follow).
 */
module ExtractorProperties {
  import opened Wrappers
  import opened JsonTree
  import opened SimdJsonExtractor

  /** Where the straight-line part of a traversal (the token loop without fan-out) ends. */
  datatype Stop =
    | Reached(node: Json)                  // every token's lookup found a child
    | Missed                               // a lookup found nothing, or a scalar had tokens left
    | FanOut(elements: seq<Json>, at: nat) // the wildcard at token `at` met an array

  /** Follow the tokens from index `i` until the path ends, misses or fans out. */
  function Descend(L: Lookups, tokens: seq<string>, json: Json, i: nat): (s: Stop)
    ensures s.FanOut? ==> i <= s.at < |tokens| && tokens[s.at] == Wildcard
    ensures s.Reached? && i < |tokens| ==> !json.Scalar?
    decreases |tokens| - i
  {
    if i >= |tokens| then Reached(json)
    else match json
      case Object(members) =>
        (match L.objectField(members, tokens[i])
         case None => Missed
         case Some(child) => Descend(L, tokens, child, i + 1))
      case Array(elements) =>
        if tokens[i] == Wildcard then FanOut(elements, i)
        else
          (match L.arrayElement(elements, tokens[i])
           case None => Missed
           case Some(child) => Descend(L, tokens, child, i + 1))
      case Scalar(_) => Missed
  }

  /**
   * The traversal emits the node the path reaches, nothing after a miss,
   * and after a fan-out the in-order concatenation of what each element
   * emits from the next token on. A fan-out is final: no token after it is
   * applied to the array, and the node itself is not emitted.
   */
  lemma {:induction false} MatchesByDescend(L: Lookups, tokens: seq<string>, json: Json, i: nat)
    ensures Matches(L, tokens, json, i) ==
      match Descend(L, tokens, json, i)
      case Reached(node) => [node]
      case Missed => []
      case FanOut(elements, at) => MatchesEach(L, tokens, elements, at + 1)
    decreases |tokens| - i
  {
    if i < |tokens| {
      match json
      case Object(members) =>
        match L.objectField(members, tokens[i]) {
          case None =>
          case Some(child) => MatchesByDescend(L, tokens, child, i + 1);
        }
      case Array(elements) =>
        if tokens[i] != Wildcard {
          match L.arrayElement(elements, tokens[i]) {
            case None =>
            case Some(child) => MatchesByDescend(L, tokens, child, i + 1);
          }
        }
      case Scalar(_) =>
    }
  }

  /** When every token's lookup yields a child, exactly one node is emitted: the one reached after the last token. */
  lemma PathFoundEmitsOnce(L: Lookups, tokens: seq<string>, json: Json, i: nat, node: Json)
    requires Descend(L, tokens, json, i) == Reached(node)
    ensures Matches(L, tokens, json, i) == [node]
  {
    MatchesByDescend(L, tokens, json, i);
  }

  /** A lookup that finds nothing (or a scalar with tokens left) ends the branch with nothing emitted. */
  lemma MissEmitsNothing(L: Lookups, tokens: seq<string>, json: Json, i: nat)
    requires Descend(L, tokens, json, i) == Missed
    ensures Matches(L, tokens, json, i) == []
  {
    MatchesByDescend(L, tokens, json, i);
  }

  /** With no token left, each element is its own single match. */
  lemma {:induction false} MatchesEachAtEnd(L: Lookups, tokens: seq<string>, nodes: seq<Json>)
    ensures MatchesEach(L, tokens, nodes, |tokens|) == nodes
    decreases |nodes|
  {
    if nodes != [] {
      MatchesEachAtEnd(L, tokens, nodes[1..]);
    }
  }

  /** A wildcard as the last token, against an array, emits each element once, in array order, and nothing else. */
  lemma TrailingWildcardEmitsElements(L: Lookups, tokens: seq<string>, json: Json, i: nat, elements: seq<Json>)
    requires 0 < |tokens| && Descend(L, tokens, json, i) == FanOut(elements, |tokens| - 1)
    ensures Matches(L, tokens, json, i) == elements
  {
    MatchesByDescend(L, tokens, json, i);
    MatchesEachAtEnd(L, tokens, elements);
  }

  /**
   * A wildcard before the last token, against an array, emits what each
   * element emits from the next token, concatenated in array order; the
   * array itself is not emitted, and no final consumer call follows.
   */
  lemma InnerWildcardConcatenates(L: Lookups, tokens: seq<string>, json: Json, i: nat,
                                 elements: seq<Json>, at: nat)
    requires Descend(L, tokens, json, i) == FanOut(elements, at) && at < |tokens| - 1
    ensures Matches(L, tokens, json, i) == MatchesEach(L, tokens, elements, at + 1)
  {
    MatchesByDescend(L, tokens, json, i);
  }

  /** An empty array under a wildcard emits nothing. */
  lemma EmptyFanOutEmitsNothing(L: Lookups, tokens: seq<string>, json: Json, i: nat, at: nat)
    requires Descend(L, tokens, json, i) == FanOut([], at)
    ensures Matches(L, tokens, json, i) == []
  {
    MatchesByDescend(L, tokens, json, i);
  }

  /** Against an object, `*` is no wildcard: it is looked up as an ordinary key. */
  lemma WildcardIsKeyForObject(L: Lookups, tokens: seq<string>, members: seq<(string, Json)>, i: nat)
    requires i < |tokens| && tokens[i] == Wildcard
    ensures Descend(L, tokens, Object(members), i) ==
      match L.objectField(members, Wildcard)
      case None => Missed
      case Some(child) => Descend(L, tokens, child, i + 1)
    ensures Matches(L, tokens, Object(members), i) ==
      match L.objectField(members, Wildcard)
      case None => []
      case Some(child) => Matches(L, tokens, child, i + 1)
  {
  }

  /** When the lookups return children, every emitted node lies inside the node the traversal started from. */
  lemma {:induction false} MatchesAreSubNodes(L: Lookups, tokens: seq<string>, json: Json, i: nat)
    requires ChildLookups(L)
    ensures forall n :: n in Matches(L, tokens, json, i) ==> SubNode(n, json)
    decreases |tokens| - i, 0
  {
    if i < |tokens| {
      match json
      case Object(members) =>
        match L.objectField(members, tokens[i]) {
          case None =>
          case Some(child) =>
            MatchesAreSubNodes(L, tokens, child, i + 1);
            var k :| 0 <= k < |members| && members[k].1 == child;
            forall n | n in Matches(L, tokens, child, i + 1) ensures SubNode(n, json) {
              assert SubNode(child, json);
              SubNodeTransitive(n, child, json);
            }
        }
      case Array(elements) =>
        if tokens[i] == Wildcard {
          EachMatchesAreSubNodes(L, tokens, elements, i + 1);
          forall n | n in Matches(L, tokens, json, i) ensures SubNode(n, json) {
            var k :| 0 <= k < |elements| && SubNode(n, elements[k]);
            assert SubNode(elements[k], json);
            SubNodeTransitive(n, elements[k], json);
          }
        } else {
          match L.arrayElement(elements, tokens[i]) {
            case None =>
            case Some(child) =>
              MatchesAreSubNodes(L, tokens, child, i + 1);
              var k :| 0 <= k < |elements| && elements[k] == child;
              forall n | n in Matches(L, tokens, child, i + 1) ensures SubNode(n, json) {
                assert SubNode(child, json);
                SubNodeTransitive(n, child, json);
              }
          }
        }
      case Scalar(_) =>
    }
  }

  lemma {:induction false} EachMatchesAreSubNodes(L: Lookups, tokens: seq<string>, nodes: seq<Json>, i: nat)
    requires ChildLookups(L)
    ensures forall n :: n in MatchesEach(L, tokens, nodes, i) ==>
      exists k :: 0 <= k < |nodes| && SubNode(n, nodes[k])
    decreases |tokens| - i, |nodes|
  {
    if nodes != [] {
      MatchesAreSubNodes(L, tokens, nodes[0], i);
      EachMatchesAreSubNodes(L, tokens, nodes[1..], i);
      forall n | n in MatchesEach(L, tokens, nodes, i)
        ensures exists k :: 0 <= k < |nodes| && SubNode(n, nodes[k])
      {
        if n in Matches(L, tokens, nodes[0], i) {
          assert SubNode(n, nodes[0]);
        } else {
          assert MatchesEach(L, tokens, nodes, i) ==
            Matches(L, tokens, nodes[0], i) + MatchesEach(L, tokens, nodes[1..], i);
          assert n in MatchesEach(L, tokens, nodes[1..], i);
          var k :| 0 <= k < |nodes[1..]| && SubNode(n, nodes[1..][k]);
          assert SubNode(n, nodes[k + 1]);
        }
      }
    }
  }

  /**
   * The path `$.a[*].x` over `{"a":[{"x":1},{"y":2},{"x":3}]}`, for any
   * lookups that find "a" and the two "x" members and find no "x" in the
   * middle element: the consumer sees 1 then 3, and the miss is skipped.
   */
  lemma FanOutSkipsMissingField(L: Lookups)
    requires L.objectField([("a", Array([Object([("x", Scalar("1"))]), Object([("y", Scalar("2"))]),
                                         Object([("x", Scalar("3"))])]))], "a")
               == Some(Array([Object([("x", Scalar("1"))]), Object([("y", Scalar("2"))]),
                              Object([("x", Scalar("3"))])]))
    requires L.objectField([("x", Scalar("1"))], "x") == Some(Scalar("1"))
    requires L.objectField([("y", Scalar("2"))], "x") == None
    requires L.objectField([("x", Scalar("3"))], "x") == Some(Scalar("3"))
    ensures Matches(L, ["a", "*", "x"],
                    Object([("a", Array([Object([("x", Scalar("1"))]), Object([("y", Scalar("2"))]),
                                         Object([("x", Scalar("3"))])]))]), 0)
            == [Scalar("1"), Scalar("3")]
  {
    var tokens := ["a", "*", "x"];
    var elements := [Object([("x", Scalar("1"))]), Object([("y", Scalar("2"))]), Object([("x", Scalar("3"))])];
    assert tokens[1] == Wildcard;
    assert Matches(L, tokens, Object([("a", Array(elements))]), 0) == MatchesEach(L, tokens, elements, 2);
    assert Matches(L, tokens, elements[0], 2) == [Scalar("1")];
    assert Matches(L, tokens, elements[1], 2) == [];
    assert Matches(L, tokens, elements[2], 2) == [Scalar("3")];
    assert elements[1..][1..][1..] == [];
  }
}
