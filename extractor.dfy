/**
 * The path traversal of `SIMDJsonExtractor`: a walk over a parsed JSON value
 * driven by an already-tokenized path. Each token is an object key, an array
 * index as text, or the wildcard `*`; every node matched by the whole path is
 * handed to a consumer.
 */
module SimdJsonExtractor {
  import opened Wrappers
  import opened JsonTree

  /** The token that, against an array, selects every element. */
  const Wildcard: string := "*"

  /**
   * The two lookups the traversal delegates to (`extractObject` and
   * `extractArray`). How a key is matched or an index is parsed is not part
   * of this model: each lookup only returns the selected child, or nothing.
   */
  datatype Lookups = Lookups(
    objectField: (seq<(string, Json)>, string) -> Option<Json>,
    arrayElement: (seq<Json>, string) -> Option<Json>)

  /** The lookups return children of the node they are given. */
  ghost predicate ChildLookups(L: Lookups)
  {
    (forall members: seq<(string, Json)>, key: string ::
       L.objectField(members, key).Some? ==>
         exists k :: 0 <= k < |members| && members[k].1 == L.objectField(members, key).value) &&
    (forall elements: seq<Json>, key: string ::
       L.arrayElement(elements, key).Some? ==> L.arrayElement(elements, key).value in elements)
  }

  /**
   * A consumer. Given the nodes it was called with before and the next
   * node, it returns normally (true) or raises a simdjson error (false).
   */
  type Consumer = (seq<Json>, Json) -> bool

  /**
   * True for the trivial path "$", which tokenizes to no tokens. Exactly
   * for such a path the traversal would emit the document itself, so the
   * shortcut that hands over the whole document agrees with it.
   */
  predicate IsRootOnlyPath(tokens: seq<string>): (r: bool)
    ensures r ==> forall L: Lookups, json: Json :: Matches(L, tokens, json, 0) == [json]
    ensures !r ==> forall L: Lookups, s: string :: Matches(L, tokens, Scalar(s), 0) == []
  {
    tokens == []
  }

  /**
   * Reference semantics: the nodes a traversal that starts at token index
   * `i` on `json` hands to the consumer, in order. The wildcard against an
   * array is one rule here, whether or not it is the last token.
   */
  function Matches(L: Lookups, tokens: seq<string>, json: Json, i: nat): seq<Json>
    decreases |tokens| - i, 0
  {
    if i >= |tokens| then [json]
    else match json
      case Object(members) =>
        (match L.objectField(members, tokens[i])
         case None => []
         case Some(child) => Matches(L, tokens, child, i + 1))
      case Array(elements) =>
        if tokens[i] == Wildcard then MatchesEach(L, tokens, elements, i + 1)
        else
          (match L.arrayElement(elements, tokens[i])
           case None => []
           case Some(child) => Matches(L, tokens, child, i + 1))
      case Scalar(_) => []
  }

  /** The matches of each node in turn, concatenated in order. */
  function MatchesEach(L: Lookups, tokens: seq<string>, nodes: seq<Json>, i: nat): seq<Json>
    decreases |tokens| - i, |nodes|
  {
    if nodes == [] then []
    else Matches(L, tokens, nodes[0], i) + MatchesEach(L, tokens, nodes[1..], i)
  }

  /** The `k`-th of `nodes`, presented after `before` and the nodes ahead of it, is accepted. */
  predicate Accepts(c: Consumer, before: seq<Json>, nodes: seq<Json>, k: nat)
    requires k < |nodes|
  {
    c(before + nodes[..k], nodes[k])
  }

  /**
   * Presenting `nodes` to a consumer one at a time, after it has already
   * seen `before`: the nodes it is called with, and whether every call
   * returned. Delivery stops after the first call that raises.
   */
  function Feed(c: Consumer, before: seq<Json>, nodes: seq<Json>): (r: (seq<Json>, bool))
    ensures r.0 <= nodes
    ensures r.1 ==> r.0 == nodes
    decreases |nodes|
  {
    if nodes == [] then ([], true)
    else if !c(before, nodes[0]) then ([nodes[0]], false)
    else
      var rest := Feed(c, before + [nodes[0]], nodes[1..]);
      ([nodes[0]] + rest.0, rest.1)
  }

  /** A single node is delivered, and the consumer's answer on it is the outcome. */
  lemma FeedSingle(c: Consumer, before: seq<Json>, node: Json)
    ensures Feed(c, before, [node]) == ([node], c(before, node))
  {
    assert [node][1..] == [];
  }

  /** Every call returns exactly when the consumer accepts each of `nodes` in turn. */
  lemma {:induction false} FeedSucceedsIffAllAccepted(c: Consumer, before: seq<Json>, nodes: seq<Json>)
    ensures Feed(c, before, nodes).1 <==> forall k :: 0 <= k < |nodes| ==> Accepts(c, before, nodes, k)
    decreases |nodes|
  {
    if nodes != [] {
      AcceptsShift(c, before, nodes);
      if c(before, nodes[0]) {
        FeedSucceedsIffAllAccepted(c, before + [nodes[0]], nodes[1..]);
        if Feed(c, before, nodes).1 {
          forall k | 0 <= k < |nodes| ensures Accepts(c, before, nodes, k) {
            if k > 0 {
              assert Accepts(c, before + [nodes[0]], nodes[1..], k - 1);
            }
          }
        }
      }
    }
  }

  /**
   * When a call raises, the consumer was called with every node up to and
   * including the first one it rejected, and accepted all those before it.
   */
  lemma {:induction false} FeedStopsAtFirstRejection(c: Consumer, before: seq<Json>, nodes: seq<Json>)
    requires !Feed(c, before, nodes).1
    ensures var delivered := Feed(c, before, nodes).0;
      0 < |delivered| && !Accepts(c, before, nodes, |delivered| - 1) &&
      forall k :: 0 <= k < |delivered| - 1 ==> Accepts(c, before, nodes, k)
    decreases |nodes|
  {
    AcceptsShift(c, before, nodes);
    if c(before, nodes[0]) {
      var rest := Feed(c, before + [nodes[0]], nodes[1..]);
      FeedStopsAtFirstRejection(c, before + [nodes[0]], nodes[1..]);
      assert Feed(c, before, nodes).0 == [nodes[0]] + rest.0;
      forall k | 0 <= k < |rest.0| ensures Accepts(c, before, nodes, k) {
        if k > 0 {
          assert Accepts(c, before + [nodes[0]], nodes[1..], k - 1);
        }
      }
    }
  }

  /** Acceptance after the first node is acceptance of the rest with that node added to the history. */
  lemma AcceptsShift(c: Consumer, before: seq<Json>, nodes: seq<Json>)
    requires 0 < |nodes|
    ensures Accepts(c, before, nodes, 0) == c(before, nodes[0])
    ensures forall k :: 0 <= k < |nodes| - 1 ==>
      Accepts(c, before + [nodes[0]], nodes[1..], k) == Accepts(c, before, nodes, k + 1)
  {
    assert before + nodes[..0] == before;
    forall k | 0 <= k < |nodes| - 1
      ensures Accepts(c, before + [nodes[0]], nodes[1..], k) == Accepts(c, before, nodes, k + 1)
    {
      assert (before + [nodes[0]]) + nodes[1..][..k] == before + nodes[..k + 1];
    }
  }

  /** Presenting `a + b` is presenting `a`, then, if every call returned, `b`. */
  lemma {:induction false} FeedAppend(c: Consumer, before: seq<Json>, a: seq<Json>, b: seq<Json>)
    ensures Feed(c, before, a + b) ==
      if Feed(c, before, a).1
      then (Feed(c, before, a).0 + Feed(c, before + a, b).0, Feed(c, before + a, b).1)
      else Feed(c, before, a)
    decreases |a|
  {
    if a == [] {
      assert a + b == b && before + a == before;
      assert Feed(c, before, a) == ([], true);
      assert [] + Feed(c, before, b).0 == Feed(c, before, b).0;
    } else {
      assert (a + b)[0] == a[0] && (a + b)[1..] == a[1..] + b;
      if c(before, a[0]) {
        var h := before + [a[0]];
        FeedAppend(c, h, a[1..], b);
        assert h + a[1..] == before + a;
        var ra := Feed(c, h, a[1..]);
        var rab := Feed(c, h, a[1..] + b);
        assert Feed(c, before, a) == ([a[0]] + ra.0, ra.1);
        assert Feed(c, before, a + b) == ([a[0]] + rab.0, rab.1);
        if ra.1 {
          var rb := Feed(c, before + a, b);
          assert rab == (ra.0 + rb.0, rb.1);
          assert [a[0]] + (ra.0 + rb.0) == ([a[0]] + ra.0) + rb.0;
        }
      }
    }
  }

  lemma {:induction false} MatchesEachAppend(L: Lookups, tokens: seq<string>, a: seq<Json>, b: seq<Json>, i: nat)
    ensures MatchesEach(L, tokens, a + b, i) == MatchesEach(L, tokens, a, i) + MatchesEach(L, tokens, b, i)
    decreases |a|
  {
    if a == [] {
      assert a + b == b;
    } else {
      assert (a + b)[0] == a[0] && (a + b)[1..] == a[1..] + b;
      MatchesEachAppend(L, tokens, a[1..], b, i);
    }
  }

  function Max(a: nat, b: nat): nat
  {
    if a < b then b else a
  }

  /**
   * How deeply `extract` nests when started at token index `i` on `json`,
   * counting the starting activation: continuing the token loop stays in
   * the same activation, a wildcard before the last token adds one level
   * for the deepest element, and a wildcard as the last token calls the
   * consumer directly without recursing.
   */
  ghost function Nesting(L: Lookups, tokens: seq<string>, json: Json, i: nat): nat
    decreases |tokens| - i, 0
  {
    if i >= |tokens| then 1
    else match json
      case Object(members) =>
        (match L.objectField(members, tokens[i])
         case None => 1
         case Some(child) => Nesting(L, tokens, child, i + 1))
      case Array(elements) =>
        if tokens[i] == Wildcard then
          (if i == |tokens| - 1 then 1 else 1 + NestingEach(L, tokens, elements, i + 1))
        else
          (match L.arrayElement(elements, tokens[i])
           case None => 1
           case Some(child) => Nesting(L, tokens, child, i + 1))
      case Scalar(_) => 1
  }

  /** The deepest nesting among walks started on each of `nodes` (0 for none). */
  ghost function NestingEach(L: Lookups, tokens: seq<string>, nodes: seq<Json>, i: nat): nat
    decreases |tokens| - i, |nodes|
  {
    if nodes == [] then 0
    else Max(Nesting(L, tokens, nodes[0], i), NestingEach(L, tokens, nodes[1..], i))
  }

  lemma {:induction false} NestingEachAppend(L: Lookups, tokens: seq<string>, a: seq<Json>, b: seq<Json>, i: nat)
    ensures NestingEach(L, tokens, a + b, i) == Max(NestingEach(L, tokens, a, i), NestingEach(L, tokens, b, i))
    decreases |a|
  {
    if a == [] {
      assert a + b == b;
    } else {
      assert (a + b)[0] == a[0] && (a + b)[1..] == a[1..] + b;
      NestingEachAppend(L, tokens, a[1..], b, i);
    }
  }

  /**
   * Every recursive call starts at a strictly larger token index, and only
   * before the last token, so the nesting is at most the number of tokens
   * left (one activation when none are left).
   */
  lemma {:induction false} NestingBounded(L: Lookups, tokens: seq<string>, json: Json, i: nat)
    ensures 1 <= Nesting(L, tokens, json, i) <= if i < |tokens| then |tokens| - i else 1
    decreases |tokens| - i, 0
  {
    if i < |tokens| {
      match json
      case Object(members) =>
        match L.objectField(members, tokens[i]) {
          case None =>
          case Some(child) => NestingBounded(L, tokens, child, i + 1);
        }
      case Array(elements) =>
        if tokens[i] == Wildcard {
          if i < |tokens| - 1 {
            NestingEachBounded(L, tokens, elements, i + 1);
          }
        } else {
          match L.arrayElement(elements, tokens[i]) {
            case None =>
            case Some(child) => NestingBounded(L, tokens, child, i + 1);
          }
        }
      case Scalar(_) =>
    }
  }

  lemma {:induction false} NestingEachBounded(L: Lookups, tokens: seq<string>, nodes: seq<Json>, i: nat)
    requires i < |tokens|
    ensures NestingEach(L, tokens, nodes, i) <= |tokens| - i
    decreases |tokens| - i, |nodes|
  {
    if nodes != [] {
      NestingBounded(L, tokens, nodes[0], i);
      NestingEachBounded(L, tokens, nodes[1..], i);
    }
  }

  /**
   * One element of a wildcard fan-out: if the elements before `k` were
   * delivered in full as `calls`, and element `k`'s matches were then
   * presented as `(sub, ok)`, the delivery so far is `calls + sub`; and when
   * a call raised, that is the delivery of the whole fan-out.
   */
  lemma FanOutStep(c: Consumer, before: seq<Json>, L: Lookups, tokens: seq<string>,
                   elements: seq<Json>, k: nat, j: nat, calls: seq<Json>, sub: seq<Json>, ok: bool)
    requires k < |elements|
    requires Feed(c, before, MatchesEach(L, tokens, elements[..k], j)) == (calls, true)
    requires Feed(c, before + calls, Matches(L, tokens, elements[k], j)) == (sub, ok)
    ensures ok ==> Feed(c, before, MatchesEach(L, tokens, elements[..k + 1], j)) == (calls + sub, true)
    ensures !ok ==> Feed(c, before, MatchesEach(L, tokens, elements, j)) == (calls + sub, false)
  {
    var done := MatchesEach(L, tokens, elements[..k], j);
    var here := Matches(L, tokens, elements[k], j);
    assert elements[..k + 1] == elements[..k] + [elements[k]];
    assert [elements[k]][1..] == [];
    MatchesEachAppend(L, tokens, elements[..k], [elements[k]], j);
    assert MatchesEach(L, tokens, elements[..k + 1], j) == done + here;
    FeedAppend(c, before, done, here);
    if !ok {
      assert elements[..k + 1] + elements[k + 1..] == elements;
      MatchesEachAppend(L, tokens, elements[..k + 1], elements[k + 1..], j);
      FeedAppend(c, before, done + here, MatchesEach(L, tokens, elements[k + 1..], j));
    }
  }

  /** Taking one more element of a fan-out into account. */
  lemma NestingStep(L: Lookups, tokens: seq<string>, elements: seq<Json>, k: nat, j: nat)
    requires k < |elements|
    ensures NestingEach(L, tokens, elements[..k + 1], j) ==
      Max(NestingEach(L, tokens, elements[..k], j), Nesting(L, tokens, elements[k], j))
    ensures NestingEach(L, tokens, elements[..k + 1], j) <= NestingEach(L, tokens, elements, j)
  {
    assert elements[..k + 1] == elements[..k] + [elements[k]];
    assert [elements[k]][1..] == [];
    NestingEachAppend(L, tokens, elements[..k], [elements[k]], j);
    assert elements[..k + 1] + elements[k + 1..] == elements;
    NestingEachAppend(L, tokens, elements[..k + 1], elements[k + 1..], j);
  }

  /** One pass of the token loop that is not a fan-out: a lookup ends the walk or moves it to the child. */
  lemma TokenStep(L: Lookups, tokens: seq<string>, input: Json, i: nat, result: Option<Json>)
    requires i < |tokens| && !(input.Array? && tokens[i] == Wildcard)
    requires result == if input.Object? then L.objectField(input.members, tokens[i])
                       else if input.Array? then L.arrayElement(input.elements, tokens[i])
                       else None
    ensures result.None? ==> Matches(L, tokens, input, i) == [] && Nesting(L, tokens, input, i) == 1
    ensures result.Some? ==> Matches(L, tokens, input, i) == Matches(L, tokens, result.value, i + 1)
    ensures result.Some? ==> Nesting(L, tokens, input, i) == Nesting(L, tokens, result.value, i + 1)
  {
  }

  /** A wildcard against an array: what the fan-out emits and how deeply it nests. */
  lemma WildcardStep(L: Lookups, tokens: seq<string>, elements: seq<Json>, i: nat)
    requires i < |tokens| && tokens[i] == Wildcard
    ensures Matches(L, tokens, Array(elements), i) == MatchesEach(L, tokens, elements, i + 1)
    ensures Nesting(L, tokens, Array(elements), i) ==
      if i == |tokens| - 1 then 1 else 1 + NestingEach(L, tokens, elements, i + 1)
  {
  }

  /**
   * `SIMDJsonExtractor::extract`: the loop over token indices from
   * `tokenStartIndex`, fanning out by recursion at an array wildcard. The
   * consumer has already been called with `before`; `calls` are the nodes it
   * is called with here and `ok` is false when one of those calls raised.
   * `depth` is how deeply the activations of this method nested, this one
   * included: `Nesting` when the walk ran to completion, and never more.
   */
  method Extract(L: Lookups, tokens: seq<string>, json: Json, c: Consumer, before: seq<Json>, tokenStartIndex: nat)
    returns (calls: seq<Json>, ok: bool, ghost depth: nat)
    ensures (calls, ok) == Feed(c, before, Matches(L, tokens, json, tokenStartIndex))
    ensures ok ==> depth == Nesting(L, tokens, json, tokenStartIndex)
    ensures 1 <= depth <= Nesting(L, tokens, json, tokenStartIndex)
    ensures depth <= if tokenStartIndex < |tokens| then |tokens| - tokenStartIndex else 1
    decreases |tokens| - tokenStartIndex
  {
    NestingBounded(L, tokens, json, tokenStartIndex);
    calls, ok, depth := [], true, 1;
    var input := json;
    var result: Option<Json> := None;
    var tokenIndex := tokenStartIndex;
    while tokenIndex < |tokens|
      invariant tokenStartIndex <= tokenIndex
      invariant Matches(L, tokens, input, tokenIndex) == Matches(L, tokens, json, tokenStartIndex)
      invariant Nesting(L, tokens, input, tokenIndex) == Nesting(L, tokens, json, tokenStartIndex)
      invariant result == None
      invariant depth == 1
    {
      var token := tokens[tokenIndex];
      if input.Object? {
        result := L.objectField(input.members, token);
      } else if input.Array? {
        if token == Wildcard {
          var elements := input.elements;
          WildcardStep(L, tokens, elements, tokenIndex);
          var k := 0;
          assert elements[..0] == [];
          while k < |elements|
            invariant 0 <= k <= |elements|
            invariant Feed(c, before, MatchesEach(L, tokens, elements[..k], tokenIndex + 1)) == (calls, true)
            invariant depth == if tokenIndex == |tokens| - 1 then 1
                               else 1 + NestingEach(L, tokens, elements[..k], tokenIndex + 1)
          {
            var child := elements[k];
            var sub, childOk;
            if tokenIndex == |tokens| - 1 {
              // The last token: the element itself is the match.
              childOk := c(before + calls, child);
              sub := [child];
              assert Matches(L, tokens, child, tokenIndex + 1) == [child];
              FeedSingle(c, before + calls, child);
            } else {
              ghost var subDepth;
              sub, childOk, subDepth := Extract(L, tokens, child, c, before + calls, tokenIndex + 1);
              depth := Max(depth, subDepth + 1);
            }
            NestingStep(L, tokens, elements, k, tokenIndex + 1);
            FanOutStep(c, before, L, tokens, elements, k, tokenIndex + 1, calls, sub, childOk);
            calls := calls + sub;
            if !childOk {
              ok := false;
              return;
            }
            k := k + 1;
          }
          assert elements[..k] == elements;
          return;
        } else {
          result := L.arrayElement(input.elements, token);
        }
      }
      TokenStep(L, tokens, input, tokenIndex, result);
      if result.None? {
        return;
      }
      input := result.value;
      result := None;
      tokenIndex := tokenIndex + 1;
    }
    ok := c(before, input);
    calls := [input];
    FeedSingle(c, before, input);
  }
}
