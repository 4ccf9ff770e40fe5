/**
 * The entry point `simdJsonExtract`: obtain the tokenized path, parse the
 * document, then either hand the whole document to the consumer (path "$")
 * or run the traversal. simdjson errors, including those a consumer raises,
 * are caught and reported as `false`; an invalid path is not caught.
 */
module SimdJsonExtract {
  import opened Wrappers
  import opened JsonTree
  import opened SimdJsonExtractor

  /** How a call ends: it returns a boolean, or it raises the user error for an invalid path. */
  datatype Outcome = Returned(success: bool) | Raised(message: string)

  /** One call: how it ends, and the nodes the consumer was called with, in order. */
  datatype Run = Run(outcome: Outcome, calls: seq<Json>)

  /**
   * The collaborators outside this model: the path tokenizer (None when
   * the path is invalid), the parser (None when it raises a simdjson error)
   * and the two lookups the traversal uses.
   */
  datatype Collaborators = Collaborators(
    tokenize: string -> Option<seq<string>>,
    parse: string -> Option<Json>,
    lookups: Lookups)

  /** The message of the user error raised when constructing an extractor for an invalid path. */
  function InvalidPathMessage(path: string): string
  {
    "Invalid JSON path: " + path
  }

  /**
   * The document as a value (`get_value().value()`). A scalar document cannot
   * be converted to a value: the conversion raises a simdjson error.
   */
  function DocumentValue(doc: Json): Option<Json>
  {
    if doc.Scalar? then None else Some(doc)
  }

  /**
   * The nodes the consumer is offered for a parsed document: the document
   * itself for the root-only path, otherwise the traversal's matches from
   * token 0; None when the document cannot be converted to a value.
   */
  function Offered(L: Lookups, tokens: seq<string>, doc: Json): Option<seq<Json>>
  {
    if IsRootOnlyPath(tokens) then Some([doc])
    else match DocumentValue(doc)
      case None => None
      case Some(value) => Some(Matches(L, tokens, value, 0))
  }

  /** Reference semantics of one call of `simdJsonExtract`. */
  function Extraction(env: Collaborators, json: string, path: string, c: Consumer): Run
  {
    match env.tokenize(path)
    case None => Run(Raised(InvalidPathMessage(path)), [])
    case Some(tokens) =>
      match env.parse(json)
      case None => Run(Returned(false), [])
      case Some(doc) =>
        match Offered(env.lookups, tokens, doc)
        case None => Run(Returned(false), [])
        case Some(nodes) =>
          var fed := Feed(c, [], nodes);
          Run(Returned(fed.1), fed.0)
  }

  /**
   * A simdjson error is raised during the call: parsing fails, the document
   * is a scalar but the path is not "$", or the consumer raises on one of
   * the nodes it is offered.
   */
  ghost predicate RaisesSimdJsonError(env: Collaborators, json: string, tokens: seq<string>, c: Consumer)
  {
    match env.parse(json)
    case None => true
    case Some(doc) =>
      match Offered(env.lookups, tokens, doc)
      case None => true
      case Some(nodes) => exists k :: 0 <= k < |nodes| && !Accepts(c, [], nodes, k)
  }

  /**
   * `simdJsonExtract` as written: the tokenized path is obtained first, so an
   * invalid path raises even for a malformed document; then the document is
   * parsed and either handed over whole or traversed.
   */
  method SimdJsonExtract(env: Collaborators, json: string, path: string, c: Consumer)
    returns (outcome: Outcome, calls: seq<Json>)
    ensures Run(outcome, calls) == Extraction(env, json, path, c)
  {
    var compiled := env.tokenize(path);
    if compiled.None? {
      return Raised(InvalidPathMessage(path)), [];
    }
    var extractor := compiled.value;
    var parsed := env.parse(json);
    if parsed.None? {
      return Returned(false), [];
    }
    var jsonDoc := parsed.value;
    if IsRootOnlyPath(extractor) {
      var accepted := c([], jsonDoc);
      calls := [jsonDoc];
      FeedSingle(c, [], jsonDoc);
      if !accepted {
        return Returned(false), calls;
      }
    } else {
      var value := DocumentValue(jsonDoc);
      if value.None? {
        return Returned(false), [];
      }
      var ok;
      ghost var depth;
      calls, ok, depth := Extract(env.lookups, extractor, value.value, c, [], 0);
      if !ok {
        return Returned(false), calls;
      }
    }
    return Returned(true), calls;
  }

  /** The overload taking `std::string` arguments, which forwards to the one above. */
  method SimdJsonExtractStrings(env: Collaborators, json: string, path: string, c: Consumer)
    returns (outcome: Outcome, calls: seq<Json>)
    ensures Run(outcome, calls) == Extraction(env, json, path, c)
  {
    outcome, calls := SimdJsonExtract(env, json, path, c);
  }

  /** An invalid path is not caught: the call raises the user error naming the path, before any consumer call. */
  lemma InvalidPathPropagates(env: Collaborators, json: string, path: string, c: Consumer)
    requires env.tokenize(path).None?
    ensures Extraction(env, json, path, c) == Run(Raised("Invalid JSON path: " + path), [])
  {
  }

  /** For a valid path the call returns, and it returns false exactly when a simdjson error was raised. */
  lemma ReturnsFalseExactlyOnSimdJsonError(env: Collaborators, json: string, path: string, c: Consumer)
    requires env.tokenize(path).Some?
    ensures Extraction(env, json, path, c).outcome.Returned?
    ensures !Extraction(env, json, path, c).outcome.success <==>
      RaisesSimdJsonError(env, json, env.tokenize(path).value, c)
  {
    var tokens := env.tokenize(path).value;
    if env.parse(json).Some? {
      var doc := env.parse(json).value;
      if Offered(env.lookups, tokens, doc).Some? {
        FeedSucceedsIffAllAccepted(c, [], Offered(env.lookups, tokens, doc).value);
      }
    }
  }

  /**
   * The consumer is called with the offered nodes in order, up to the first
   * one it raises on; when the call returns true it has seen all of them.
   */
  lemma CallsFollowMatchOrder(env: Collaborators, json: string, path: string, c: Consumer, doc: Json, nodes: seq<Json>)
    requires env.tokenize(path).Some? && env.parse(json) == Some(doc)
    requires Offered(env.lookups, env.tokenize(path).value, doc) == Some(nodes)
    ensures Extraction(env, json, path, c).calls <= nodes
    ensures Extraction(env, json, path, c).outcome == Returned(true) ==> Extraction(env, json, path, c).calls == nodes
    ensures Extraction(env, json, path, c).outcome == Returned(false) ==>
      var calls := Extraction(env, json, path, c).calls;
      0 < |calls| && !c(calls[..|calls| - 1], calls[|calls| - 1])
  {
    var fed := Feed(c, [], nodes);
    if !fed.1 {
      FeedStopsAtFirstRejection(c, [], nodes);
      assert fed.0[..|fed.0| - 1] == nodes[..|fed.0| - 1];
      assert [] + nodes[..|fed.0| - 1] == fed.0[..|fed.0| - 1];
    }
  }

  /**
   * The path "$": the consumer is called exactly once, with the whole
   * document (a scalar included), and the traversal is not entered.
   */
  lemma RootOnlyPathConsumesDocument(env: Collaborators, json: string, path: string, c: Consumer, doc: Json)
    requires env.tokenize(path) == Some([]) && env.parse(json) == Some(doc)
    ensures Extraction(env, json, path, c) == Run(Returned(c([], doc)), [doc])
  {
    FeedSingle(c, [], doc);
  }

  /** A path other than "$" on a scalar document: the conversion to a value raises, so false with no consumer call. */
  lemma ScalarDocumentWithPathFails(env: Collaborators, json: string, path: string, c: Consumer, doc: Json)
    requires env.tokenize(path).Some? && env.tokenize(path).value != []
    requires env.parse(json) == Some(doc) && doc.Scalar?
    ensures Extraction(env, json, path, c) == Run(Returned(false), [])
  {
  }

  /** Malformed bytes: false, with no consumer call. */
  lemma ParseFailureReturnsFalse(env: Collaborators, json: string, path: string, c: Consumer)
    requires env.tokenize(path).Some? && env.parse(json).None?
    ensures Extraction(env, json, path, c) == Run(Returned(false), [])
  {
  }

  /** Zero matches is success: a path that finds nothing returns true without calling the consumer. */
  lemma NoMatchSucceeds(env: Collaborators, json: string, path: string, c: Consumer, doc: Json)
    requires env.tokenize(path).Some? && env.tokenize(path).value != []
    requires env.parse(json) == Some(doc) && !doc.Scalar?
    requires Matches(env.lookups, env.tokenize(path).value, doc, 0) == []
    ensures Extraction(env, json, path, c) == Run(Returned(true), [])
  {
  }
}
