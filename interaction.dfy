/**
 The GraphQL request builder of dsl/graphql/interaction.go: a Request whose
 fluent setters overwrite one field each and hand back the same receiver, and
 GraphQL, which turns the request's fields into a dsl request whose body carries
 the operation name, a regex matcher for the query and the variables.
 */
module Interaction {
  import opened QueryPattern
  import Dsl

  /** Values substituted at run time, by name; this component never looks at them. */
  type Variables<V> = map<string, V>

  /** The fields of a Request, as GraphQL receives them: by value. */
  datatype RequestValue<P, M, V> = RequestValue(
    headers: M,
    path: P,
    queryString: M,
    query: string,
    variables: Variables<V>,
    operation: string,
    httpMethod: string)

  /** What the dsl request's body carries. */
  datatype QueryBody<V> = QueryBody(operation: string, query: Dsl.Term, variables: Variables<V>)

  /**
   The builder. P stands for the path matcher and M for the header and
   query-string matcher maps, which the builder only stores and copies.
   */
  class Request<P, M, V> {
    var headers: M
    var path: P
    var queryString: M
    var query: string
    var variables: Variables<V>
    var operation: string
    var httpMethod: string

    /** The copy of this request that GraphQL is given. */
    function Value(): RequestValue<P, M, V>
      reads this
    {
      RequestValue(headers, path, queryString, query, variables, operation, httpMethod)
    }

    /** A request literal with every field given ("" and an empty map stand for unset). */
    constructor (headers: M, path: P, queryString: M, query: string,
                 variables: Variables<V>, operation: string, httpMethod: string)
      ensures Value() == RequestValue(headers, path, queryString, query, variables, operation, httpMethod)
    {
      this.headers := headers;
      this.path := path;
      this.queryString := queryString;
      this.query := query;
      this.variables := variables;
      this.operation := operation;
      this.httpMethod := httpMethod;
    }

    /** Sets the operation name; nothing else changes. */
    method WithOperation(operation: string) returns (r: Request<P, M, V>)
      modifies this
      ensures r == this
      ensures Value() == old(Value()).(operation := operation)
    {
      this.operation := operation;
      r := this;
    }

    /** Sets the HTTP method; nothing else changes. */
    method WithMethod(httpMethod: string) returns (r: Request<P, M, V>)
      modifies this
      ensures r == this
      ensures Value() == old(Value()).(httpMethod := httpMethod)
    {
      this.httpMethod := httpMethod;
      r := this;
    }

    /** Sets the query text, unchecked; nothing else changes. */
    method WithQuery(query: string) returns (r: Request<P, M, V>)
      modifies this
      ensures r == this
      ensures Value() == old(Value()).(query := query)
    {
      this.query := query;
      r := this;
    }

    /** Replaces the whole variables map (no merge); nothing else changes. */
    method WithVariables(variables: Variables<V>) returns (r: Request<P, M, V>)
      modifies this
      ensures r == this
      ensures Value() == old(Value()).(variables := variables)
    {
      this.variables := variables;
      r := this;
    }
  }

  /** The request fields a built dsl request was made from, read back from it. */
  function Source<P, M, V>(d: Dsl.Request<P, M, QueryBody<V>>): RequestValue<P, M, V>
  {
    RequestValue(d.headers, d.path, d.query, d.body.query.example,
                 d.body.variables, d.body.operation, d.httpMethod)
  }

  /** The query matcher's pattern is the one computed from its own example. */
  predicate WellFormed<P, M, V>(d: Dsl.Request<P, M, QueryBody<V>>)
  {
    d.body.query.pattern == EscapeGraphQlQuery(d.body.query.example)
  }

  /**
   Builds the dsl request. Nothing of the request is lost (Source reads every
   field back), and the only thing computed is the query's pattern.
   */
  function GraphQL<P, M, V>(request: RequestValue<P, M, V>): (d: Dsl.Request<P, M, QueryBody<V>>)
    ensures WellFormed(d)
    ensures Source(d) == request
  {
    Dsl.Request(
      request.httpMethod,
      request.path,
      request.queryString,
      request.headers,
      QueryBody(request.operation,
                Dsl.Regex(request.query, EscapeGraphQlQuery(request.query)),
                request.variables))
  }

  /** Every well-formed dsl request is what GraphQL builds from its Source. */
  lemma GraphQLOnto<P, M, V>(d: Dsl.Request<P, M, QueryBody<V>>)
    requires WellFormed(d)
    ensures GraphQL(Source(d)) == d
  {
  }

  /** Different requests give different dsl requests. */
  lemma GraphQLInjective<P, M, V>(a: RequestValue<P, M, V>, b: RequestValue<P, M, V>)
    requires GraphQL(a) == GraphQL(b)
    ensures a == b
  {
  }

  /**
   The query matcher's pattern has no whitespace, reads back as the query with
   every whitespace run shortened to one space, and is empty only for the empty
   query.
   */
  lemma GraphQLQueryPattern<P, M, V>(request: RequestValue<P, M, V>)
    ensures NoSpace(GraphQL(request).body.query.pattern)
    ensures Unpattern(GraphQL(request).body.query.pattern) == Collapse(request.query)
    ensures GraphQL(request).body.query.pattern == [] <==> request.query == []
  {
    PatternDecodes(request.query);
  }

  /**
   Two requests get the same query pattern exactly when their queries differ at
   most in what their whitespace runs hold.
   */
  lemma GraphQLSamePattern<P, M, V>(a: RequestValue<P, M, V>, b: RequestValue<P, M, V>)
    ensures GraphQL(a).body.query.pattern == GraphQL(b).body.query.pattern
        <==> Collapse(a.query) == Collapse(b.query)
  {
    SamePatternIff(a.query, b.query);
  }

  /**
   The fluent use the setters are written for: the four GraphQL fields set on
   one receiver in a chain, then the request built. Building leaves the request
   as the setters left it.
   */
  method BuildWith<P, M, V>(request: Request<P, M, V>, operation: string, httpMethod: string,
                            query: string, variables: Variables<V>)
    returns (d: Dsl.Request<P, M, QueryBody<V>>)
    modifies request
    ensures request.Value() == old(request.Value()).(operation := operation,
              httpMethod := httpMethod, query := query, variables := variables)
    ensures d == GraphQL(request.Value())
    ensures d.httpMethod == httpMethod && d.body.operation == operation
    ensures d.body.query == Dsl.Regex(query, EscapeGraphQlQuery(query))
    ensures d.body.variables == variables
    ensures d.path == old(request.path) && d.headers == old(request.headers)
    ensures d.query == old(request.queryString)
  {
    var r := request.WithOperation(operation);
    r := r.WithMethod(httpMethod);
    r := r.WithQuery(query);
    r := r.WithVariables(variables);
    d := GraphQL(r.Value());
  }
}
