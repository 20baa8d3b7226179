/** Whole-interface runs of the subscription mock, as its tests drive it:
    one fixture, one subscriber, every result fired, then unsubscription. */
module Scenarios {

  import opened Values
  import opened GraphQL
  import opened QueueStore
  import opened SubscriptionMock

  /** Subscribing to a registered request on a fresh interface yields id 0;
      firing once per queued result calls the handler with those results in
      order, one more fire throws "results exhausted", and after
      `unsubscribe` the id is unknown. Re-subscribing yields a new id. */
  method SubscribeFireUnsubscribe<H>(request: GQLRequest, results: seq<MockedSubscriptionResult>, handler: H)
    returns (subscribed: SubscribeOutcome, fired: seq<FireOutcome<H>>, afterUnsubscribe: FireOutcome<H>,
             resubscribed: SubscribeOutcome)
    ensures subscribed == Subscribed(0)
    ensures |fired| == |results| + 1
    ensures forall i :: 0 <= i < |results| ==> fired[i] == Fired(handler, Deliver(results[i]))
    ensures fired[|results|] == SubscriptionResultsExhausted
    ensures afterUnsubscribe == UnknownSubscriptionId
    ensures resubscribed == Subscribed(1)
  {
    var fixture := new MockedSubscription(ParsedRequest(OperationDocument(request), request.variables, None), results, None);
    var ni: MockSubscriptionNetworkInterface<H> := new MockSubscriptionNetworkInterface([fixture], []);
    assert Queue(ni.mockedSubscriptionsByKey, GQLRequestKey(request)) == [fixture];
    label Registered:
    subscribed := ni.Subscribe(request, handler);
    fired := [];
    var i := 0;
    while i <= |results|
      invariant 0 <= i <= |results| + 1
      invariant ni.Valid() && ni.subId == 1
      invariant 0 in ni.mockedSubscriptionsById && ni.mockedSubscriptionsById[0] == fixture
      invariant ni.handlersById[0] == handler
      invariant ni.mockedSubscriptionsByKey == old@Registered(ni.mockedSubscriptionsByKey)
      invariant fixture.results == if i <= |results| then results[i..] else []
      invariant |fired| == i
      invariant forall j :: 0 <= j < i && j < |results| ==> fired[j] == Fired(handler, Deliver(results[j]))
      invariant i == |results| + 1 ==> fired[|results|] == SubscriptionResultsExhausted
    {
      var o := ni.FireResult(0);
      fired := fired + [o];
      i := i + 1;
    }
    ni.Unsubscribe(0);
    afterUnsubscribe := ni.FireResult(0);
    resubscribed := ni.Subscribe(request, handler);
  }
}
