# JSON path extraction in Velox's simdjson-based extractor

This project models the path traversal engine of
`velox/functions/prestosql/json/SIMDJsonExtractor.h` and proves what it emits.
A JSON path has already been tokenized into strings: an object key, an array
index written as text, or the wildcard `*`. `SIMDJsonExtractor::extract` walks
a parsed JSON value with these tokens and calls a consumer on every node the
whole path matches. `simdJsonExtract` is the entry point. It handles the
trivial path `$` (no tokens) by handing the whole document to the consumer.
It maps simdjson errors to `false`. An invalid path raises a user error that
is not caught.

Files and modules:

- `wrappers.dfy` (`Wrappers`): `Option`.
- `json_tree.dfy` (`JsonTree`): the document as an already-built tree, `Json`
  = `Object(seq<(string, Json)>)` | `Array(seq<Json>)` | `Scalar(lexeme)`,
  and the sub-node relation.
- `extractor.dfy` (`SimdJsonExtractor`): the lookups `extractObject` and
  `extractArray`, kept abstract as function values returning an optional
  child. Also the consumer, `isRootOnlyPath`, and the reference semantics
  `Matches`. `Feed` says what a consumer sees when nodes are offered one at a
  time. `Extract` is the imperative method that mirrors the C++ loop, with its
  fan-out recursion. It is proved to deliver exactly what
  `Feed(consumer, before, Matches(...))` describes.
- `extractor_properties.dfy` (`ExtractorProperties`): `Descend`, which
  classifies where the straight-line part of a walk ends: the path is reached,
  a lookup misses, or there is a fan-out. The file also holds the lemmas about
  what each case emits.
- `simd_json_extract.dfy` (`SimdJsonExtract`): the entry point. `Extraction`
  is its reference semantics. The methods `SimdJsonExtract` and
  `SimdJsonExtractStrings` (the `std::string` overload) are proved equal to
  it. The lemmas cover the error mapping and the root-only path.

Modelling choices:

- The consumer is a function `(seq<Json>, Json) -> bool`. It receives the
  nodes it was called with before, so a stateful consumer such as "stop after
  the first match" can be expressed. `false` means the call raised a simdjson
  error. The error propagates out of every level of the traversal and is
  caught by `simdJsonExtract`. The node on which it raised counts as
  delivered.
- The tokenizer and the parser are parameters (`Collaborators`). The
  tokenizer yields `None` for an invalid path, and the parser yields `None`
  when it raises.
- The tokenized path is obtained before the document is parsed
  (lines 166-168). So an invalid path raises even when the document is
  malformed.
- For a path other than `$`, the document is converted to a value with
  `get_value().value()`. The comment at lines 171-173 says this conversion is
  not supported for a scalar document. The model takes that to mean the call
  raises a simdjson error and so returns `false` with no consumer call
  (`DocumentValue`, `ScalarDocumentWithPathFails`).
- `Matches` treats a wildcard over an array the same way whether or not it is
  the last token: it always uses the matches of each element from the next
  token. The method keeps the source's special case for the last token, which
  calls the consumer on each element directly. The method's proof shows the
  two agree.

## Model

| member | source | states |
|---|---|---|
| `SimdJsonExtractor.IsRootOnlyPath` | velox/functions/prestosql/json/SIMDJsonExtractor.h:49-51 | True exactly for a path with no tokens (the trivial path "$"). For such a path the traversal would emit the document itself, whatever the lookups. For any other path it emits nothing from a scalar. So the root-only shortcut agrees with the traversal wherever both apply. |
| `SimdJsonExtractor.Matches` | velox/functions/prestosql/json/SIMDJsonExtractor.h:92-134 | Reference semantics of the traversal: the nodes handed to the consumer, in order, from token index `i`. It is specified by the lemmas in `ExtractorProperties` and followed by `Extract`. |
| `SimdJsonExtractor.Extract` | velox/functions/prestosql/json/SIMDJsonExtractor.h:92-134 | The token loop, with recursion at array wildcards, calls the consumer on exactly the nodes of `Matches` from `tokenStartIndex`, in order, stopping after the first call that raises. `ok` is false exactly then. The ghost `depth` equals `Nesting` when the walk completes and never exceeds it, so it is at most the number of tokens left (1 when none are left). |
| `SimdJsonExtractor.Nesting` | velox/functions/prestosql/json/SIMDJsonExtractor.h:107-120 | How deeply the recursion of `extract` nests: the token loop stays in one activation, a wildcard before the last token adds one level over the deepest element, and a wildcard as the last token does not recurse. |
| `SimdJsonExtractor.NestingBounded` | velox/functions/prestosql/json/SIMDJsonExtractor.h:101-120 | Each recursive call starts at a strictly larger token index and only before the last token. So the nesting is at least 1 and at most the number of tokens left (1 when none are left). |
| `SimdJsonExtractor.Feed` | velox/functions/prestosql/json/SIMDJsonExtractor.h:161-184 | The nodes a consumer is called with are a prefix of the nodes offered. When every call returns, they are all of them. |
| `SimdJsonExtractor.FeedSucceedsIffAllAccepted` | velox/functions/prestosql/json/SIMDJsonExtractor.h:179-184 | Delivery succeeds if and only if the consumer accepts every offered node, each given the nodes before it as history. |
| `SimdJsonExtractor.FeedStopsAtFirstRejection` | velox/functions/prestosql/json/SIMDJsonExtractor.h:161-182 | When a consumer call raises, the last node delivered is the one rejected, and every earlier one was accepted. No further call follows. |
| `ExtractorProperties.Descend` | velox/functions/prestosql/json/SIMDJsonExtractor.h:101-131 | A fan-out happens only at a token index no smaller than the start index and below the token count, and only on the token `*`. So each recursive call starts at a strictly larger index. A scalar with tokens left is never "reached". |
| `ExtractorProperties.MatchesByDescend` | velox/functions/prestosql/json/SIMDJsonExtractor.h:101-133 | What a traversal emits: the reached node once, nothing after a miss, and after a fan-out the in-order concatenation of each element's matches from the next token. No final consumer call follows a fan-out. |
| `ExtractorProperties.PathFoundEmitsOnce` | velox/functions/prestosql/json/SIMDJsonExtractor.h:125-133 | If every token's lookup yields a child, exactly one node is emitted: the node reached after the last token. |
| `ExtractorProperties.MissEmitsNothing` | velox/functions/prestosql/json/SIMDJsonExtractor.h:104-127 | A missing key, an unmatched index, or a scalar with tokens left ends the branch with zero emitted nodes. |
| `ExtractorProperties.TrailingWildcardEmitsElements` | velox/functions/prestosql/json/SIMDJsonExtractor.h:107-112 | `*` as the last token, on an array, emits exactly the elements, once each, in array order. |
| `ExtractorProperties.InnerWildcardConcatenates` | velox/functions/prestosql/json/SIMDJsonExtractor.h:113-120 | `*` before the last token, on an array, emits the in-order concatenation of each element's matches from the next token. The array itself is not emitted, and no final consumer call follows. This is the fan-out case of `MatchesByDescend`, stated on its own. |
| `ExtractorProperties.EmptyFanOutEmitsNothing` | velox/functions/prestosql/json/SIMDJsonExtractor.h:108-120 | A wildcard over an empty array emits nothing. |
| `ExtractorProperties.WildcardIsKeyForObject` | velox/functions/prestosql/json/SIMDJsonExtractor.h:104-107 | Against an object, `*` is passed to the object lookup as an ordinary key and causes no fan-out. |
| `ExtractorProperties.MatchesAreSubNodes` | velox/functions/prestosql/json/SIMDJsonExtractor.h:82-90 | If the lookups return children of the node they are given, every emitted node is nested inside (or equal to) the start node. |
| `ExtractorProperties.FanOutSkipsMissingField` | velox/functions/prestosql/json/SIMDJsonExtractor.h:113-127 | For lookups that find "a" and the two "x" members, and find no "x" in `{"y":2}`: `$.a[*].x` over `{"a":[{"x":1},{"y":2},{"x":3}]}` emits 1 then 3. The element without "x" is skipped silently. |
| `SimdJsonExtract.InvalidPathMessage` | velox/functions/prestosql/json/SIMDJsonExtractor.h:62-66 | Definition: the text of the user error raised at line 64 for an invalid path, "Invalid JSON path: " followed by the path. What a call does with it is stated by `InvalidPathPropagates`. |
| `SimdJsonExtract.DocumentValue` | velox/functions/prestosql/json/SIMDJsonExtractor.h:175-176 | Definition of a modelling assumption, not a proved fact: `get_value().value()` raises for a scalar document (the comment at lines 171-173) and otherwise yields the document. Its consequences at the entry point are stated by `ScalarDocumentWithPathFails` and `ReturnsFalseExactlyOnSimdJsonError`. |
| `SimdJsonExtract.Extraction` | velox/functions/prestosql/json/SIMDJsonExtractor.h:156-185 | Reference semantics of one call: first the path is tokenized (raising on failure), then the document is parsed (`false` on failure). Then the document is handed over whole, for "$", or converted and traversed, with the consumer's answers deciding the result. It is specified by the lemmas below. |
| `SimdJsonExtract.SimdJsonExtract` | velox/functions/prestosql/json/SIMDJsonExtractor.h:156-185 | The entry point's outcome and consumer calls are those of `Extraction`: first the path, then the parse, then the root-only shortcut or the traversal. |
| `SimdJsonExtract.SimdJsonExtractStrings` | velox/functions/prestosql/json/SIMDJsonExtractor.h:187-196 | The `std::string` overload behaves exactly as the `StringView` one. |
| `SimdJsonExtract.InvalidPathPropagates` | velox/functions/prestosql/json/SIMDJsonExtractor.h:62-66 | An invalid path raises "Invalid JSON path: " followed by the path. The error is not caught and no consumer call is made. |
| `SimdJsonExtract.ReturnsFalseExactlyOnSimdJsonError` | velox/functions/prestosql/json/SIMDJsonExtractor.h:161-184 | With a valid path the call returns. It returns false if and only if a simdjson error was raised: the parse failed, a scalar document met a non-root path, or the consumer raised. |
| `SimdJsonExtract.CallsFollowMatchOrder` | velox/functions/prestosql/json/SIMDJsonExtractor.h:170-178 | For a valid path and a document that parses and can be converted (or any parsed document under `$`): the consumer's calls are a prefix of the offered nodes, in order. On `true` they are all of them. On `false` the last call is the one that raised. |
| `SimdJsonExtract.RootOnlyPathConsumesDocument` | velox/functions/prestosql/json/SIMDJsonExtractor.h:170-174 | For the path `$`, once the document parses, the consumer is called exactly once, on the whole document (a scalar included). The result is whether that call returned. (A malformed document under `$` gives false with no call, as `ParseFailureReturnsFalse` states.) |
| `SimdJsonExtract.ScalarDocumentWithPathFails` | velox/functions/prestosql/json/SIMDJsonExtractor.h:175-176 | A valid non-root path on a parsed scalar document returns false with no consumer call. |
| `SimdJsonExtract.ParseFailureReturnsFalse` | velox/functions/prestosql/json/SIMDJsonExtractor.h:167-181 | With a valid path, a document that fails to parse returns false with no consumer call. (An invalid path raises before the parse, as `InvalidPathPropagates` states.) |
| `SimdJsonExtract.NoMatchSucceeds` | velox/functions/prestosql/json/SIMDJsonExtractor.h:175-184 | On a parsed document that is not a scalar, a valid non-root path that matches nothing returns true with zero consumer calls. |

## Left out

- `tokenize` (line 68): the path grammar and its parser are not part of this model. The token list is an input, given by the tokenizer parameter.
- `getInstance` and the extractor cache bounded by `kMaxCacheSize` (lines 59, 71): their implementation is not part of this model, and their point is process-wide state shared across threads. The model obtains the tokens directly from the tokenizer parameter.
- `parse` (line 53) and the simdjson on-demand parser: the document is an already-built `Json` tree, and parse failure is the parser parameter returning `None`.
- Errors that the on-demand parser raises lazily during the walk, and the forward-only cursor: `type()`, array iteration and the lookups may raise on malformed input. In this model they never do, and only parsing, the scalar-document conversion and the consumer raise.
- The bodies of `extractObject` and `extractArray` (lines 82-90): they are defined elsewhere. They are function values returning an optional node, with no key-matching or index-parsing rule.
- Exceptions other than simdjson errors raised by a consumer propagate out of `simdJsonExtract`. They are not modelled. A consumer here either returns or raises a simdjson error.
- The rule that a consumer must not keep its argument after returning (lines 149-151): it is about lifetimes of cursor views, and nodes here are values.
- The machine width of `tokenIndex` (an `int` compared with a `size_t`): the model uses unbounded naturals, assuming fewer than 2^31 tokens.
- velox/experimental/wave/exec/WaveOperator.cpp: it only registers field names into compiler state that is not part of this model. It has no self-contained logic.
