/**
 The two shapes this component needs from the dsl package: the regex matcher
 that dsl.Regex builds and the dsl.Request record. The package itself is not
 part of this model; only the fields GraphQL writes are given here, and the
 matchers it copies through without looking inside are type parameters.
 */
module Dsl {

  /** A matcher holding an example value and the pattern an actual value must match. */
  datatype Term = Regex(example: string, pattern: string)

  /**
   A request expectation: HTTP method, path matcher, query-string matchers,
   header matchers and a body.
   */
  datatype Request<P, M, B> = Request(httpMethod: string, path: P, query: M, headers: M, body: B)
}
