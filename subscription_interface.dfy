/** `MockSubscriptionNetworkInterface` (mockNetworkInterface.d.ts): a registry
    of subscription fixtures by request key, the live subscriptions and their
    handlers by id, and a counter that hands out ids. Results reach a
    handler only when the test calls `fireResult`. */
module SubscriptionMock {

  import opened Values
  import opened QueueStore
  import opened GraphQL
  import NetworkMock

  /** `MockedSubscription`: `{ request, results?, id? }`. Its `results` list
      is drained in place by `fireResult`, and the same object is shared by
      the by-key registry and the by-id registry. An omitted `results` is
      modelled as an empty list: firing it throws in both cases. */
  class MockedSubscription {
    const request: ParsedRequest
    var results: seq<MockedSubscriptionResult>
    /** The fixture's own `id` field; ids of live subscriptions come from the
        interface's counter. */
    const id: Option<int>

    constructor (request: ParsedRequest, results: seq<MockedSubscriptionResult>, id: Option<int>)
      ensures this.request == request && this.results == results && this.id == id
    {
      this.request := request;
      this.results := results;
      this.id := id;
    }
  }

  function KeyOfSubscription(s: MockedSubscription): RequestKey {
    ParsedRequestKey(s.request)
  }

  /** The arguments a handler is called with, `handler(error, result)`, and
      the delay before the call. */
  datatype Delivery = Delivery(error: Option<ErrorValue>, result: Option<GraphQLResult>, afterDelay: int)

  /** A fixture entry with an error is delivered as `handler(error, undefined)`,
      any other as `handler(undefined, result)`. */
  function Deliver(entry: MockedSubscriptionResult): (d: Delivery)
    ensures entry.error.Some? ==> d.error == entry.error && d.result == None
    ensures entry.error.None? ==> d.error == None && d.result == entry.result
    ensures d.afterDelay == DelayOrZero(entry.delay)
  {
    if entry.error.Some? then Delivery(entry.error, None, DelayOrZero(entry.delay))
    else Delivery(None, entry.result, DelayOrZero(entry.delay))
  }

  datatype SubscribeOutcome = Subscribed(id: int) | NoMatchingSubscription

  /** What `fireResult(id)` does: call `handler` with `delivery`, or throw. */
  datatype FireOutcome<H> =
    | Fired(handler: H, delivery: Delivery)
    | UnknownSubscriptionId
    | SubscriptionResultsExhausted

  /** Handlers are callbacks of the test, of type `H`; the model records
      which one is called and with what. */
  class MockSubscriptionNetworkInterface<H> {
    /** The request side it inherits from `MockNetworkInterface`. */
    const network: NetworkMock.MockNetworkInterface
    var mockedSubscriptionsByKey: map<RequestKey, seq<MockedSubscription>>
    var mockedSubscriptionsById: map<int, MockedSubscription>
    var handlersById: map<int, H>
    var subId: nat

    /** Every live id has both a subscription and a handler, and lies below
        the counter, so the counter never hands out an id in use. */
    ghost predicate Valid()
      reads this
    {
      && mockedSubscriptionsById.Keys == handlersById.Keys
      && forall id :: id in mockedSubscriptionsById ==> 0 <= id < subId
    }

    constructor (mockedSubscriptions: seq<MockedSubscription>, mockedResponses: seq<MockedResponse>)
      ensures Valid()
      ensures fresh(network)
      ensures forall k :: Queue(network.mockedResponsesByKey, k) == Matching(mockedResponses, KeyOfMockedResponse, k)
      ensures forall k :: Queue(mockedSubscriptionsByKey, k) == Matching(mockedSubscriptions, KeyOfSubscription, k)
      ensures forall k :: k in mockedSubscriptionsByKey <==> Matching(mockedSubscriptions, KeyOfSubscription, k) != []
      ensures mockedSubscriptionsById == map[] && handlersById == map[] && subId == 0
    {
      network := new NetworkMock.MockNetworkInterface(mockedResponses);
      mockedSubscriptionsByKey := map[];
      mockedSubscriptionsById := map[];
      handlersById := map[];
      subId := 0;
      new;
      ghost var responses := network.mockedResponsesByKey;
      var i := 0;
      while i < |mockedSubscriptions|
        invariant 0 <= i <= |mockedSubscriptions|
        invariant RegisterAll(mockedSubscriptionsByKey, mockedSubscriptions[i..], KeyOfSubscription)
               == RegisterAll(map[], mockedSubscriptions, KeyOfSubscription)
        invariant mockedSubscriptionsById == map[] && handlersById == map[] && subId == 0
        invariant network.mockedResponsesByKey == responses
      {
        assert mockedSubscriptions[i..][1..] == mockedSubscriptions[i + 1..];
        AddMockedSubscription(mockedSubscriptions[i]);
        i := i + 1;
      }
      forall k ensures Queue(mockedSubscriptionsByKey, k) == Matching(mockedSubscriptions, KeyOfSubscription, k)
        && (k in mockedSubscriptionsByKey <==> Matching(mockedSubscriptions, KeyOfSubscription, k) != [])
      {
        RegisterAllQueue(map[], mockedSubscriptions, KeyOfSubscription, k);
      }
    }

    /** Returns the counter and advances it. */
    method GenerateSubscriptionId() returns (id: nat)
      requires Valid()
      modifies this`subId
      ensures Valid()
      ensures id == old(subId) && subId == old(subId) + 1
      ensures id !in mockedSubscriptionsById
    {
      id := subId;
      subId := subId + 1;
    }

    /** Appends the fixture to the list of its request key. */
    method AddMockedSubscription(mockedSubscription: MockedSubscription)
      modifies this`mockedSubscriptionsByKey
      ensures mockedSubscriptionsByKey
           == Register(old(mockedSubscriptionsByKey), KeyOfSubscription(mockedSubscription), mockedSubscription)
    {
      var key := KeyOfSubscription(mockedSubscription);
      var subs := if key in mockedSubscriptionsByKey then mockedSubscriptionsByKey[key] else [];
      mockedSubscriptionsByKey := mockedSubscriptionsByKey[key := subs + [mockedSubscription]];
    }

    /** `subscribe(request, handler)`: finds the first fixture registered for
        the request's key, gives it a new id and records it and the handler
        under that id. Throws when no fixture is registered for the key. */
    method Subscribe(request: GQLRequest, handler: H) returns (outcome: SubscribeOutcome)
      requires Valid()
      modifies this
      ensures Valid()
      ensures mockedSubscriptionsByKey == old(mockedSubscriptionsByKey)
      ensures var q := Queue(old(mockedSubscriptionsByKey), GQLRequestKey(request));
        if q == [] then
          && outcome == NoMatchingSubscription
          && mockedSubscriptionsById == old(mockedSubscriptionsById)
          && handlersById == old(handlersById)
          && subId == old(subId)
        else
          && outcome == Subscribed(old(subId))
          && old(subId) !in old(mockedSubscriptionsById)
          && mockedSubscriptionsById == old(mockedSubscriptionsById)[old(subId) := q[0]]
          && handlersById == old(handlersById)[old(subId) := handler]
          && subId == old(subId) + 1
    {
      var key := GQLRequestKey(request);
      if key !in mockedSubscriptionsByKey || |mockedSubscriptionsByKey[key]| == 0 {
        return NoMatchingSubscription;
      }
      var subscription := mockedSubscriptionsByKey[key][0];
      var id := GenerateSubscriptionId();
      mockedSubscriptionsById := mockedSubscriptionsById[id := subscription];
      handlersById := handlersById[id := handler];
      outcome := Subscribed(id);
    }

    /** `fireResult(id)`: removes the next pending result of subscription
        `id` and hands it to the handler of `id`. Throws for an id that is not
        live and for a subscription with no results left; the registries
        themselves never change. */
    method FireResult(id: int) returns (outcome: FireOutcome<H>)
      requires Valid()
      modifies if id in mockedSubscriptionsById then {mockedSubscriptionsById[id]} else {}
      ensures id !in mockedSubscriptionsById ==> outcome == UnknownSubscriptionId
      ensures id in mockedSubscriptionsById ==>
        var s := mockedSubscriptionsById[id];
        if old(s.results) == [] then
          outcome == SubscriptionResultsExhausted && s.results == []
        else
          && outcome == Fired(handlersById[id], Deliver(old(s.results)[0]))
          && s.results == old(s.results)[1..]
    {
      if id !in mockedSubscriptionsById {
        return UnknownSubscriptionId;
      }
      var subscription := mockedSubscriptionsById[id];
      if |subscription.results| == 0 {
        return SubscriptionResultsExhausted;
      }
      var entry := subscription.results[0];
      subscription.results := subscription.results[1..];
      outcome := Fired(handlersById[id], Deliver(entry));
    }

    /** `unsubscribe(id)`: forgets the subscription and the handler of `id`.
        The counter is left alone, so the id is never handed out again. */
    method Unsubscribe(id: int)
      requires Valid()
      modifies this
      ensures Valid()
      ensures mockedSubscriptionsById == old(mockedSubscriptionsById) - {id}
      ensures handlersById == old(handlersById) - {id}
      ensures mockedSubscriptionsByKey == old(mockedSubscriptionsByKey) && subId == old(subId)
    {
      mockedSubscriptionsById := mockedSubscriptionsById - {id};
      handlersById := handlersById - {id};
    }
  }

  /** `mockSubscriptionNetworkInterface(mockedSubscriptions, ...mockedResponses)`. */
  method CreateMockSubscriptionNetworkInterface<H>(mockedSubscriptions: seq<MockedSubscription>, mockedResponses: seq<MockedResponse>)
    returns (ni: MockSubscriptionNetworkInterface<H>)
    ensures fresh(ni) && fresh(ni.network) && ni.Valid()
    ensures forall k :: Queue(ni.mockedSubscriptionsByKey, k) == Matching(mockedSubscriptions, KeyOfSubscription, k)
    ensures forall k :: Queue(ni.network.mockedResponsesByKey, k) == Matching(mockedResponses, KeyOfMockedResponse, k)
    ensures ni.mockedSubscriptionsById == map[] && ni.handlersById == map[] && ni.subId == 0
  {
    ni := new MockSubscriptionNetworkInterface(mockedSubscriptions, mockedResponses);
  }
}
