# GraphQL request builder for contract tests, in Dafny

This project models the GraphQL part of a consumer-driven contract-testing DSL
(`dsl/graphql/interaction.go`). A consumer describes the GraphQL-over-HTTP request
it expects to send. The DSL turns that description into a generic request
expectation whose body pairs the literal query with a regular expression. The
expression tolerates differences in whitespace.

Three files, one module each:

- `query_pattern.dfy` (module `QueryPattern`) holds the text transformer. It has
  three parts. `EscapeRegexChars` puts a backslash before each of
  `- [ ] / { } ( ) * + ? . \ ^ $ |`. `EscapeSpace` replaces each maximal run of
  RE2 whitespace (`\t \n \f \r` and space) with the three characters `\s*`.
  `EscapeGraphQlQuery` escapes first and collapses second. Both regex
  replacements are recursive functions over `string`. The whitespace
  replacement is a left-to-right scan that remembers whether it is inside a run
  (`EscapeSpaceFrom`). The lemmas tie them to
  independent definitions:
  - a decoder (`Unescape`) and the set of literal patterns (`IsLiteralPattern`);
  - a position-by-position description of the collapse (`EscapeSpaceSpec`);
  - a single-pass description of the composition (`OnePass`);
  - a pattern reader (`Unpattern`) together with `Collapse`, which shortens every
    whitespace run of a query to one space.
- `dsl.dfy` (module `Dsl`) gives the shapes the builder writes into: the regex
  matcher `Regex(example, pattern)` and the request record.
- `interaction.dfy` (module `Interaction`) holds the builder. `Request` is a
  class whose four setters overwrite one field and return the same receiver.
  `GraphQL` is a function of a `RequestValue`, because the source takes the
  request by value. It returns the dsl request. Because it is a function of a
  value, it cannot change the caller's request, and equal inputs give equal
  outputs. `Source` reads every input field back from a built request, and
  `WellFormed` says that the matcher's pattern is the one computed from its
  example. Together they make `GraphQL` a bijection onto well-formed dsl requests.

An unset operation, method or query is the empty string, and unset variables
are a nil map. So the code cannot tell an unset field from one set to empty,
and the model keeps this encoding.

## Model

| member | source | states |
|---|---|---|
| `QueryPattern.EscapeRegexChars` | dsl/graphql/interaction.go:97-104 | The output is as long as the input plus its number of metacharacters. It starts with whitespace exactly when the input does. |
| `QueryPattern.EscapeRegexCharsSingle` | dsl/graphql/interaction.go:98-103 | A metacharacter `c` becomes the two characters `\c`. Any other character is left as it is. |
| `QueryPattern.EscapeRegexCharsAppend` | dsl/graphql/interaction.go:97-104 | Escaping the concatenation of two texts gives the concatenation of their escapings, so the replacement works character by character. |
| `QueryPattern.EscapeRegexCharsPlain` | dsl/graphql/interaction.go:97-104 | A text without metacharacters, whitespace included, is returned unchanged. |
| `QueryPattern.UnescapeEscape` | dsl/graphql/interaction.go:97-104 | Dropping each backslash and keeping the character after it recovers the original text. |
| `QueryPattern.EscapeRegexCharsInjective` | dsl/graphql/interaction.go:97-104 | Two texts with the same escaping are equal. |
| `QueryPattern.EscapeRegexCharsIsLiteral` | dsl/graphql/interaction.go:97-104 | The output is a literal pattern: every metacharacter in it is escaped, and every backslash escapes a metacharacter. |
| `QueryPattern.EscapeUnescape` | dsl/graphql/interaction.go:97-104 | Every literal pattern is the escaping of the text `Unescape` gives, so escaping maps all texts one-to-one onto literal patterns. |
| `QueryPattern.RunLength` | dsl/graphql/interaction.go:93 | Gives the length of the whitespace run at the start of a text. The character at that position is not whitespace, and the length is positive when the text starts with whitespace. |
| `QueryPattern.RunLengthAllSpace` | dsl/graphql/interaction.go:93 | Every character before `RunLength` is whitespace, so the run it measures is maximal, as the greedy `\s+` match is. |
| `QueryPattern.EscapeSpace` | dsl/graphql/interaction.go:92-95 | The output is empty exactly when the input is. |
| `QueryPattern.EscapeSpaceFromAppend` | dsl/graphql/interaction.go:92-95 | Scanning `a + b` gives the scan of `a` followed by the scan of `b`, resumed inside a run exactly when `a` ended with whitespace. |
| `QueryPattern.EscapeSpaceNoWhitespace` | dsl/graphql/interaction.go:92-95 | The output contains no whitespace character. |
| `QueryPattern.EscapeSpaceRun` | dsl/graphql/interaction.go:92-95 | A nonempty run of whitespace becomes exactly one `\s*`. |
| `QueryPattern.EscapeSpaceNoSpace` | dsl/graphql/interaction.go:92-95 | A text without whitespace is copied unchanged. |
| `QueryPattern.EscapeSpaceAppend` | dsl/graphql/interaction.go:92-95 | When a text is split anywhere except inside a whitespace run, the output splits at the same place. |
| `QueryPattern.EscapeSpaceExtendRun` | dsl/graphql/interaction.go:92-95 | Lengthening a trailing whitespace run does not change the output, because runs are maximal. |
| `QueryPattern.EscapeSpaceMatchesSpec` | dsl/graphql/interaction.go:92-95 | Equals the position-by-position definition: each non-whitespace character is copied in order, the first character of each run writes `\s*`, and the rest of the run writes nothing. |
| `QueryPattern.EscapeGraphQlQuery` | dsl/graphql/interaction.go:106-108 | The pattern contains no whitespace, and it is empty exactly when the query is. |
| `QueryPattern.EscapeGraphQlQueryOnePass` | dsl/graphql/interaction.go:106-108 | Escape-then-collapse equals a single pass that writes one unescaped `\s*` per whitespace run of the query and the escape of every other character. So the number of tokens equals the number of runs, and no token is ever escaped. |
| `QueryPattern.PatternDecodes` | dsl/graphql/interaction.go:92-108 | Reading the pattern back (`\s*` as one space, `\c` as `c`) gives the query with each whitespace run shortened to one space. |
| `QueryPattern.EscapeGraphQlQueryCollapse` | dsl/graphql/interaction.go:92-108 | The contents of a whitespace run do not change the pattern. |
| `QueryPattern.SamePatternIff` | dsl/graphql/interaction.go:92-108 | Two queries give the same pattern if and only if they are equal after every whitespace run is shortened to one space. |
| `QueryPattern.PlainQuery` | dsl/graphql/interaction.go:92-108 | A query with no metacharacters and no whitespace is its own pattern. The empty query maps to the empty pattern. |
| `QueryPattern.OrderMatters` | dsl/graphql/interaction.go:106-108 | For the query `" "`, the actual order gives `\s*`. The reverse order would give `\\s\*`, an escaped token. |
| `Interaction.Request.constructor` | dsl/graphql/interaction.go:14-36 | A request literal holds exactly the seven fields it is given. |
| `Interaction.Request.WithOperation` | dsl/graphql/interaction.go:39-43 | Overwrites the operation, leaves every other field unchanged, and returns the same receiver. |
| `Interaction.Request.WithMethod` | dsl/graphql/interaction.go:46-50 | Overwrites the HTTP method, leaves every other field unchanged, and returns the same receiver. |
| `Interaction.Request.WithQuery` | dsl/graphql/interaction.go:53-59 | Overwrites the query without checking it, leaves every other field unchanged, and returns the same receiver. |
| `Interaction.Request.WithVariables` | dsl/graphql/interaction.go:62-66 | Replaces the whole variables map instead of merging, leaves every other field unchanged, and returns the same receiver. |
| `Interaction.GraphQL` | dsl/graphql/interaction.go:68-84 | The matcher's pattern is `EscapeGraphQlQuery` of its example. Every request field can be read back from the result: the method, path, query string (into `query`) and headers unchanged, and the operation, query text and variables from the body. |
| `Interaction.GraphQLOnto` | dsl/graphql/interaction.go:68-84 | Every well-formed dsl request is what `GraphQL` builds from the fields read back from it. |
| `Interaction.GraphQLInjective` | dsl/graphql/interaction.go:68-84 | Different requests give different dsl requests. |
| `Interaction.GraphQLQueryPattern` | dsl/graphql/interaction.go:78 | The body's pattern contains no whitespace. It reads back as the query with runs shortened, and it is empty exactly when the query is. |
| `Interaction.GraphQLSamePattern` | dsl/graphql/interaction.go:78 | Two requests get the same query pattern if and only if their queries differ at most in what their whitespace runs hold. |
| `Interaction.BuildWith` | dsl/graphql/interaction.go:39-84 | Chains the four setters on one receiver and then builds. The result carries the method, operation, variables and `Regex(query, EscapeGraphQlQuery(query))` that were set, plus the original path, headers and query string. Building leaves the request as the setters left it. |

## Left out

- Compiling and running regular expressions (`regexp.MustCompile`) is not modelled. Only the text rewrite is, so claims about what the pattern matches (for example that `\s*` also matches no whitespace at all) are outside the model.
- The dsl package's `Matcher`, `MapMatcher`, `Regex` and `Request` are not part of this model. The regex matcher is the datatype `Regex(example, pattern)`. The path, header and query-string matchers are type parameters that are only copied.
- JSON encoding of the body is not modelled, including the `omitempty` tags that drop an empty operation name or empty variables.
- The variable values (`interface{}` in the source) are a type parameter `V` that is never inspected.
- Strings are sequences of Unicode characters, not UTF-8 bytes, so the handling of invalid UTF-8 is not modelled.
- Go shares maps by reference, so the built request's variables, headers and query-string maps alias the caller's. Dafny maps are values, so this aliasing is not modelled. The nil map and the empty map are one value here.
- `fmt.Sprintf` is modelled directly as prepending a backslash.
