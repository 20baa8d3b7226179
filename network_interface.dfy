/** `MockNetworkInterface` and `MockBatchedNetworkInterface`
    (mockNetworkInterface.d.ts): per-request-key queues of canned responses
    serving `query`, `mutate` and `batchQuery`. */
module NetworkMock {

  import opened Values
  import opened QueueStore
  import opened GraphQL

  type Responses = map<RequestKey, seq<MockedResponse>>

  /** One `query(request)` against the dictionary `m`: the outcome and the
      dictionary afterwards. Only the request's own key is touched. */
  function QueryStep(m: Responses, request: GQLRequest): (r: (QueryOutcome, Responses))
    ensures var key := GQLRequestKey(request);
      var q := Queue(m, key);
      && (q == [] ==> r == (Rejected(NoMoreMockedResponses(request), 0), m))
      && (q != [] ==> r == (Respond(q[0]), m[key := q[1..]]))
  {
    var (taken, m') := Consume(m, GQLRequestKey(request));
    match taken
    case None => (Rejected(NoMoreMockedResponses(request), 0), m)
    case Some(fixture) => (Respond(fixture), m')
  }

  /** The members of a batch are each served as `query` serves them, one
      after the other in input order; nothing is rolled back. */
  function BatchStep(m: Responses, requests: seq<GQLRequest>): (r: (seq<QueryOutcome>, Responses))
    ensures |r.0| == |requests|
    decreases |requests|
  {
    if requests == [] then ([], m)
    else
      var (outs, m1) := BatchStep(m, requests[..|requests| - 1]);
      var (o, m2) := QueryStep(m1, requests[|requests| - 1]);
      (outs + [o], m2)
  }

  /** Member `i` of a batch gets what a lone `query` would get once the
      members before it have been served. */
  lemma {:induction false} BatchMemberOutcome(m: Responses, requests: seq<GQLRequest>, i: nat)
    requires i < |requests|
    ensures BatchStep(m, requests).0[i] == QueryStep(BatchStep(m, requests[..i]).1, requests[i]).0
    decreases |requests|
  {
    var n := |requests|;
    if i < n - 1 {
      assert requests[..n - 1][..i] == requests[..i];
      BatchMemberOutcome(m, requests[..n - 1], i);
    } else {
      assert requests[..i] == requests[..n - 1];
    }
  }

  /** The fixture is one a request can be answered by: its document is the
      request's query (or, for a mutation, its mutation) and its variables
      are the request's; the debug names play no part. */
  predicate Answers(fixture: MockedResponse, request: GQLRequest) {
    fixture.request.query == OperationDocument(request) && fixture.request.variables == request.variables
  }

  /** On a freshly built interface, a query is answered by the first fixture,
      in registration order, that `Answers` it, and rejects when none does.
      So the same query with other variables is answered by other fixtures. */
  lemma ConstructedQueryServesFirstMatch(fixtures: seq<MockedResponse>, request: GQLRequest)
    ensures var outcome := QueryStep(RegisterAll(map[], fixtures, KeyOfMockedResponse), request).0;
      && ((forall i :: 0 <= i < |fixtures| ==> !Answers(fixtures[i], request))
          ==> outcome == Rejected(NoMoreMockedResponses(request), 0))
      && forall i :: 0 <= i < |fixtures| && Answers(fixtures[i], request)
           && (forall j :: 0 <= j < i ==> !Answers(fixtures[j], request))
           ==> outcome == Respond(fixtures[i])
  {
    var k := GQLRequestKey(request);
    var m := RegisterAll(map[], fixtures, KeyOfMockedResponse);
    RegisterAllQueue(map[], fixtures, KeyOfMockedResponse, k);
    var q := Queue(m, k);
    assert q == Matching(fixtures, KeyOfMockedResponse, k);
    assert forall i :: 0 <= i < |fixtures| ==>
      (Answers(fixtures[i], request) <==> KeyOfMockedResponse(fixtures[i]) == k);
    if forall i :: 0 <= i < |fixtures| ==> !Answers(fixtures[i], request) {
      MatchingNone(fixtures, KeyOfMockedResponse, k);
    }
    forall i | 0 <= i < |fixtures| && Answers(fixtures[i], request)
      && (forall j :: 0 <= j < i ==> !Answers(fixtures[j], request))
      ensures q != [] && q[0] == fixtures[i]
    {
      MatchingFirst(fixtures, KeyOfMockedResponse, k, i);
    }
  }

  /** `n` calls `query(request)` in a row. */
  function QueryRepeatedly(m: Responses, request: GQLRequest, n: nat): (seq<QueryOutcome>, Responses)
    decreases n
  {
    if n == 0 then ([], m)
    else
      var (first, m1) := QueryStep(m, request);
      var (rest, m2) := QueryRepeatedly(m1, request, n - 1);
      ([first] + rest, m2)
  }

  /** With N fixtures pending for a request's key, N queries are answered by
      them oldest first, and query N+1 rejects with the "no more mocked
      responses" error naming the request. */
  lemma {:induction false} QueryServesInOrder(m: Responses, request: GQLRequest)
    ensures var q := Queue(m, GQLRequestKey(request));
      var (outs, m') := QueryRepeatedly(m, request, |q| + 1);
      && |outs| == |q| + 1
      && (forall i :: 0 <= i < |q| ==> outs[i] == Respond(q[i]))
      && outs[|q|] == Rejected(NoMoreMockedResponses(request), 0)
      && Queue(m', GQLRequestKey(request)) == []
    decreases |Queue(m, GQLRequestKey(request))|
  {
    var key := GQLRequestKey(request);
    var q := Queue(m, key);
    if q != [] {
      var (first, m1) := QueryStep(m, request);
      assert first == Respond(q[0]);
      assert Queue(m1, key) == q[1..];
      QueryServesInOrder(m1, request);
      var (rest, m2) := QueryRepeatedly(m1, request, |q|);
      assert QueryRepeatedly(m, request, |q| + 1) == ([first] + rest, m2);
    }
  }

  /** The keys a batch asks for. */
  ghost function BatchKeys(requests: seq<GQLRequest>): set<RequestKey> {
    set r | r in requests :: GQLRequestKey(r)
  }

  /** A fixture queue with its head removed, if it has one. */
  function Rest(q: seq<MockedResponse>): (r: seq<MockedResponse>)
    ensures q == [] ==> r == []
    ensures q != [] ==> [q[0]] + r == q
  {
    if q == [] then [] else q[1..]
  }

  /** No two members of the batch ask for the same key. */
  predicate DistinctKeys(requests: seq<GQLRequest>) {
    forall i, j :: 0 <= i < j < |requests| ==> GQLRequestKey(requests[i]) != GQLRequestKey(requests[j])
  }

  /** A lone query takes one fixture from its own key's queue and touches
      no other. */
  lemma QueryStepQueue(m: Responses, request: GQLRequest, k: RequestKey)
    ensures Queue(QueryStep(m, request).1, k)
         == if k == GQLRequestKey(request) then Rest(Queue(m, k)) else Queue(m, k)
  {
  }

  /** When no two members share a key, a batch takes one fixture from each
      key it names, whether that member resolves or rejects, and leaves every
      other key alone. */
  lemma {:induction false} BatchConsumesEachKeyOnce(m: Responses, requests: seq<GQLRequest>, k: RequestKey)
    requires DistinctKeys(requests)
    ensures Queue(BatchStep(m, requests).1, k) == if k in BatchKeys(requests) then Rest(Queue(m, k)) else Queue(m, k)
    decreases |requests|
  {
    if requests != [] {
      var n := |requests|;
      var init := requests[..n - 1];
      var last := requests[n - 1];
      DistinctKeysPrefix(requests, n - 1);
      BatchConsumesEachKeyOnce(m, init, k);
      LastKeyFresh(requests);
      BatchKeysSnoc(requests);
      QueryStepQueue(BatchStep(m, init).1, last, k);
    }
  }

  lemma DistinctKeysPrefix(requests: seq<GQLRequest>, n: nat)
    requires DistinctKeys(requests) && n <= |requests|
    ensures DistinctKeys(requests[..n])
  {
    var p := requests[..n];
    forall i, j | 0 <= i < j < |p| ensures GQLRequestKey(p[i]) != GQLRequestKey(p[j]) {
      assert p[i] == requests[i] && p[j] == requests[j];
    }
  }

  lemma LastKeyFresh(requests: seq<GQLRequest>)
    requires DistinctKeys(requests) && requests != []
    ensures GQLRequestKey(requests[|requests| - 1]) !in BatchKeys(requests[..|requests| - 1])
  {
    var init := requests[..|requests| - 1];
    forall i | 0 <= i < |init| ensures GQLRequestKey(init[i]) != GQLRequestKey(requests[|requests| - 1]) {
      assert init[i] == requests[i];
    }
  }

  lemma BatchKeysSnoc(requests: seq<GQLRequest>)
    requires requests != []
    ensures BatchKeys(requests)
         == BatchKeys(requests[..|requests| - 1]) + {GQLRequestKey(requests[|requests| - 1])}
  {
    assert requests == requests[..|requests| - 1] + [requests[|requests| - 1]];
  }

  /** When no two members share a key, each member gets exactly what a lone
      `query` against the initial fixtures would get. */
  lemma BatchMembersIndependent(m: Responses, requests: seq<GQLRequest>, i: nat)
    requires DistinctKeys(requests)
    requires i < |requests|
    ensures BatchStep(m, requests).0[i] == QueryStep(m, requests[i]).0
  {
    BatchMemberOutcome(m, requests, i);
    var k := GQLRequestKey(requests[i]);
    var prefix := requests[..i];
    DistinctKeysPrefix(requests, i);
    assert k !in BatchKeys(prefix) by {
      forall j | 0 <= j < |prefix| ensures GQLRequestKey(prefix[j]) != k {
        assert prefix[j] == requests[j];
      }
    }
    BatchConsumesEachKeyOnce(m, prefix, k);
  }

  /** `Promise.all` over the member promises. */
  datatype BatchOutcome = AllResolved(results: seq<GraphQLResult>) | BatchRejected(failure: QueryFailure)

  /** The batch resolves with one result per request, in input order, when
      every member resolves; otherwise it rejects with the failure of a
      member (the first in input order that failed). */
  function Combine(outs: seq<QueryOutcome>): (r: BatchOutcome)
    ensures r.AllResolved? <==> forall i :: 0 <= i < |outs| ==> outs[i].Resolved?
    ensures r.AllResolved? ==>
      |r.results| == |outs| && forall i :: 0 <= i < |outs| ==> r.results[i] == outs[i].result
    ensures r.BatchRejected? ==>
      exists i :: 0 <= i < |outs| && outs[i].Rejected? && r.failure == outs[i].failure
        && forall j :: 0 <= j < i ==> outs[j].Resolved?
  {
    if outs == [] then AllResolved([])
    else if outs[0].Rejected? then BatchRejected(outs[0].failure)
    else
      match Combine(outs[1..])
      case AllResolved(rs) => AllResolved([outs[0].result] + rs)
      case BatchRejected(f) => BatchRejected(f)
  }

  class MockNetworkInterface {
    var mockedResponsesByKey: Responses

    /** Registers the fixtures in argument order. */
    constructor (mockedResponses: seq<MockedResponse>)
      ensures forall k :: Queue(mockedResponsesByKey, k) == Matching(mockedResponses, KeyOfMockedResponse, k)
    {
      mockedResponsesByKey := map[];
      new;
      var i := 0;
      while i < |mockedResponses|
        invariant 0 <= i <= |mockedResponses|
        invariant RegisterAll(mockedResponsesByKey, mockedResponses[i..], KeyOfMockedResponse)
               == RegisterAll(map[], mockedResponses, KeyOfMockedResponse)
      {
        assert mockedResponses[i..][1..] == mockedResponses[i + 1..];
        AddMockedResponse(mockedResponses[i]);
        i := i + 1;
      }
      forall k ensures Queue(mockedResponsesByKey, k) == Matching(mockedResponses, KeyOfMockedResponse, k) {
        RegisterAllQueue(map[], mockedResponses, KeyOfMockedResponse, k);
      }
    }

    method AddMockedResponse(mockedResponse: MockedResponse)
      modifies this
      ensures mockedResponsesByKey
           == Register(old(mockedResponsesByKey), KeyOfMockedResponse(mockedResponse), mockedResponse)
    {
      var key := KeyOfMockedResponse(mockedResponse);
      var responses := if key in mockedResponsesByKey then mockedResponsesByKey[key] else [];
      mockedResponsesByKey := mockedResponsesByKey[key := responses + [mockedResponse]];
    }

    /** `query(request)`: serves the oldest pending fixture for the request's
        key, or rejects when there is none. */
    method Query(request: GQLRequest) returns (outcome: QueryOutcome)
      modifies this
      ensures (outcome, mockedResponsesByKey) == QueryStep(old(mockedResponsesByKey), request)
    {
      var key := GQLRequestKey(request);
      if key !in mockedResponsesByKey || |mockedResponsesByKey[key]| == 0 {
        return Rejected(NoMoreMockedResponses(request), 0);
      }
      var fixture := mockedResponsesByKey[key][0];
      mockedResponsesByKey := mockedResponsesByKey[key := mockedResponsesByKey[key][1..]];
      outcome := Respond(fixture);
    }

    /** `mutate(request)`: served from the same queues as `query`. */
    method Mutate(request: GQLRequest) returns (outcome: QueryOutcome)
      modifies this
      ensures (outcome, mockedResponsesByKey) == QueryStep(old(mockedResponsesByKey), request)
    {
      outcome := Query(request);
    }
  }

  /** `MockBatchedNetworkInterface`: the queues, `query` and `mutate` it
      inherits are those of `network`. */
  class MockBatchedNetworkInterface {
    const network: MockNetworkInterface

    constructor (mockedResponses: seq<MockedResponse>)
      ensures fresh(network)
      ensures forall k :: Queue(network.mockedResponsesByKey, k) == Matching(mockedResponses, KeyOfMockedResponse, k)
    {
      network := new MockNetworkInterface(mockedResponses);
    }

    /** `batchQuery(requests)`: queries every member, then settles as
        `Promise.all` does. */
    method BatchQuery(requests: seq<GQLRequest>) returns (outcome: BatchOutcome)
      modifies network
      ensures var (outs, m) := BatchStep(old(network.mockedResponsesByKey), requests);
        outcome == Combine(outs) && network.mockedResponsesByKey == m
    {
      var outs: seq<QueryOutcome> := [];
      var i := 0;
      while i < |requests|
        invariant 0 <= i <= |requests|
        invariant (outs, network.mockedResponsesByKey) == BatchStep(old(network.mockedResponsesByKey), requests[..i])
      {
        assert requests[..i + 1][..i] == requests[..i];
        var o := network.Query(requests[i]);
        outs := outs + [o];
        i := i + 1;
      }
      assert requests[..i] == requests;
      outcome := Combine(outs);
    }
  }

  /** `mockNetworkInterface(...mockedResponses)`. */
  method CreateMockNetworkInterface(mockedResponses: seq<MockedResponse>) returns (ni: MockNetworkInterface)
    ensures fresh(ni)
    ensures forall k :: Queue(ni.mockedResponsesByKey, k) == Matching(mockedResponses, KeyOfMockedResponse, k)
  {
    ni := new MockNetworkInterface(mockedResponses);
  }

  /** `mockBatchedNetworkInterface(...mockedResponses)`. */
  method CreateMockBatchedNetworkInterface(mockedResponses: seq<MockedResponse>) returns (ni: MockBatchedNetworkInterface)
    ensures fresh(ni) && fresh(ni.network)
    ensures forall k :: Queue(ni.network.mockedResponsesByKey, k) == Matching(mockedResponses, KeyOfMockedResponse, k)
  {
    ni := new MockBatchedNetworkInterface(mockedResponses);
  }
}
