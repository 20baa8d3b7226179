/** The fixture and request shapes of the mock network interfaces
    (mockNetworkInterface.d.ts) and what a served fixture turns into. */
module GraphQL {

  import opened Values

  /** A parsed GraphQL document, represented by its printed form. */
  datatype Document = Document(printed: string)

  /** `ParsedRequest`: the request part of a fixture. */
  datatype ParsedRequest = ParsedRequest(
    query: Option<Document>,
    variables: Option<seq<Field>>,
    debugName: Option<string>)

  /** `GQLRequest`: what the client passes to `query`, `mutate` and `subscribe`. */
  datatype GQLRequest = GQLRequest(
    query: Option<Document>,
    mutation: Option<Document>,
    variables: Option<seq<Field>>,
    debugName: Option<string>,
    operationName: Option<string>)

  /** An `Error` object; compared by value. */
  datatype ErrorValue = ErrorValue(message: string)

  /** `GraphQLResult`: `{ data?, errors? }`. */
  datatype GraphQLResult = GraphQLResult(data: Option<Value>, errors: Option<seq<Value>>)

  /** `MockedResponse`: `{ request, result?, error?, delay? }`. */
  datatype MockedResponse = MockedResponse(
    request: ParsedRequest,
    result: Option<GraphQLResult>,
    error: Option<ErrorValue>,
    delay: Option<int>)

  /** `MockedSubscriptionResult`: `{ result?, error?, delay? }`. */
  datatype MockedSubscriptionResult = MockedSubscriptionResult(
    result: Option<GraphQLResult>,
    error: Option<ErrorValue>,
    delay: Option<int>)

  /** The key fixtures and requests are matched by. Its text form is not
      part of this model: the key is the pair (document, variables), so two
      requests match the same fixtures exactly when they agree on both; the
      debug name plays no part. */
  datatype RequestKey = RequestKey(document: Option<Document>, variables: Option<seq<Field>>)

  function ParsedRequestKey(r: ParsedRequest): RequestKey {
    RequestKey(r.query, r.variables)
  }

  /** The document a request carries: its `query`, or else its `mutation`. */
  function OperationDocument(r: GQLRequest): Option<Document> {
    if r.query.Some? then r.query else r.mutation
  }

  function GQLRequestKey(r: GQLRequest): RequestKey {
    RequestKey(OperationDocument(r), r.variables)
  }

  function KeyOfMockedResponse(r: MockedResponse): RequestKey {
    ParsedRequestKey(r.request)
  }

  /** Why a `query`/`mutate` promise rejects. */
  datatype QueryFailure =
    | NoMoreMockedResponses(request: GQLRequest)
    | NetworkError(error: ErrorValue)
    | MissingResultOrError

  /** How a `query`/`mutate` promise settles, and after how many milliseconds. */
  datatype QueryOutcome =
    | Resolved(result: GraphQLResult, afterDelay: int)
    | Rejected(failure: QueryFailure, afterDelay: int)

  /** The result handed on: an `errors` list that is present but empty counts
      as no errors and is dropped. */
  function WithoutEmptyErrors(res: GraphQLResult): (r: GraphQLResult)
    ensures r.data == res.data
    ensures r.errors.Some? <==> res.errors.Some? && res.errors.value != []
    ensures r.errors.Some? ==> r.errors == res.errors
  {
    if res.errors == Some([]) then GraphQLResult(res.data, None) else res
  }

  /** What a dequeued fixture makes of the request's promise: the network
      error wins over any result, a fixture with neither is refused. */
  function Respond(fixture: MockedResponse): (o: QueryOutcome)
    ensures fixture.error.Some? ==>
      o == Rejected(NetworkError(fixture.error.value), DelayOrZero(fixture.delay))
    ensures fixture.error.None? && fixture.result.Some? ==>
      o == Resolved(WithoutEmptyErrors(fixture.result.value), DelayOrZero(fixture.delay))
    ensures fixture.error.None? && fixture.result.None? ==> o == Rejected(MissingResultOrError, 0)
  {
    match (fixture.error, fixture.result)
    case (Some(e), _) => Rejected(NetworkError(e), DelayOrZero(fixture.delay))
    case (None, Some(res)) => Resolved(WithoutEmptyErrors(res), DelayOrZero(fixture.delay))
    case (None, None) => Rejected(MissingResultOrError, 0)
  }
}
