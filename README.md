# Mock network interfaces and mock fetch, in Dafny

This project models the deterministic test doubles for a GraphQL client's
transport layer:

- **`MockFetch`**, a stand-in for `fetch`. Canned responses are registered
  under a key. The key is the url plus the options object, put into a
  canonical form by `sortByKey`, so that the order of the object's properties
  does not matter. Each key's responses are served first in, first out. A
  call finds no pending response, or finds one that has no result: either way,
  it throws.
- **`MockNetworkInterface`**, with `query` and `mutate`. Each request is
  matched by its document and variables: its `query`, or for a mutation its
  `mutation`. It is answered by the next fixture registered for that pair.
  A network error on the fixture rejects the promise, even when the fixture
  also has a result. An empty `errors` list in a result is dropped. A request
  with no fixture left rejects.
- **`MockBatchedNetworkInterface.batchQuery`**, which serves every member of
  a batch as `query` would, then settles as `Promise.all`.
- **`MockSubscriptionNetworkInterface`**, which has two registries.
  - Subscription fixtures are kept by request key.
  - Live subscriptions and their handlers are kept by id.
  - A counter hands out ids and never reuses one.
  - `fireResult(id)` takes the next pending result of a live subscription and
    calls that subscription's handler with it. It throws for an unknown id and
    for a subscription with no results left.
  - `unsubscribe(id)` removes both registry entries for the id.

Layout: one module per concern.
- `Seqs`: reverse and distinctness.
- `Values`: JSON-like values and objects as ordered property lists.
- `KeyOrder`: the default string ordering of `Array.prototype.sort`.
- `CanonicalKey`: `sortByKey`.
- `QueueStore`: the per-key first-in-first-out dictionary that all the mocks share.
- `FetchMock`.
- `GraphQL`: fixture and request shapes, and what a served fixture becomes.
- `NetworkMock`: the single and batched interfaces.
- `SubscriptionMock`.
- `Scenarios`: a whole subscription run.

Objects whose fields the source updates in place are classes:
- `MockFetch`;
- the three interfaces;
- `MockedSubscription`, whose result list `fireResult` drains in place, and
  which the by-key and by-id registries share.

The fetch and query methods (`Fetch`, `AddMockedResponse`, `Query`,
`Mutate`, `BatchQuery` and the constructors) are tied to pure step
functions (`FetchStep`, `QueryStep`, `BatchStep`, `Register`, `Consume`),
and the properties are proved as lemmas about those functions. The
subscription methods (`GenerateSubscriptionId`, `AddMockedSubscription`,
`Subscribe`, `FireResult`, `Unsubscribe`) state their whole new state in
their own postconditions, and `Scenarios` proves a whole run of them.

The network-interface family is given by its declarations
(`mockNetworkInterface.d.ts`) and by the tests that drive it. Where those do
not fix a behaviour, the model picks the one the tests rely on, and marks
the choice under "## Left out". Delays are kept as numbers: an outcome
records the fixture's delay value, 0 when it is unset, which is what the
source passes on unchanged to `setTimeout`; how the host's timer clamps
small or negative values is not part of this model.

`CanonicalKey.SameObject` is agreement of two objects up to property order
at every plain-object level. `SameObjectReflexive` (on well-formed objects),
`SameObjectSymmetric` and `SameObjectTransitive`, with their `SameValue`
companions, show that it is an equivalence, so "the same options" in
`FetchKeyIff` is a proper sameness of objects.

## Model

| member | source | states |
|---|---|---|
| `FetchMock.CreateMockedIResponse` | dist/src/mocks/mockFetch.js:2-8 | `json()` of the built response yields exactly the given result |
| `FetchMock.MockFetch.constructor` | dist/src/mocks/mockFetch.js:11-21 | after construction each key holds exactly the fixtures with that key, in argument order, and holds a list only if it has at least one |
| `FetchMock.MockFetch.AddMockedResponse` | dist/src/mocks/mockFetch.js:22-30 | the fixture is appended to its own key's list, and a missing list is created; no other key changes |
| `FetchMock.FetchStep` | dist/src/mocks/mockFetch.js:31-46 | empty or missing queue: throws "no more responses" for the url and changes nothing. Otherwise the head is removed, and the call throws "should contain a result" when the head has none, else resolves with the head's result after its delay (0 when unset) |
| `FetchMock.MockFetch.Fetch` | dist/src/mocks/mockFetch.js:31-46 | the outcome and the new dictionary are those of `FetchStep` on the old dictionary |
| `FetchMock.CreateMockFetch` | dist/src/mocks/mockFetch.js:67-73 | a fresh mock whose queues hold exactly the given fixtures per key, in order |
| `FetchMock.Served` | dist/src/mocks/mockFetch.js:37-45 | no contract of its own: what becomes of a dequeued fixture. `FetchStep`'s postcondition states it (throws "should contain a result" without a result, else resolves after the delay), and `FetchServesInOrder` states which fixtures are served |
| `FetchMock.FetchParamsToKey` | dist/src/mocks/mockFetch.js:47-52 | no contract of its own: the key is the url with the canonical options. `FetchKeyIff` states when two calls share a key |
| `FetchMock.KeyOfResponse` | dist/src/mocks/mockFetch.js:23 | no contract of its own: a fixture is filed under the key of its own url and options, as `addMockedResponse` computes it |
| `FetchMock.FetchKeyIff` | dist/src/mocks/mockFetch.js:47-52 | two calls build the same key if and only if their urls are equal and their options agree up to property order at every plain-object level |
| `FetchMock.FetchIgnoresOptionOrder` | dist/src/mocks/mockFetch.js:47-52 | reordering the properties of `opts` does not change the outcome of `fetch` or the state it leaves |
| `FetchMock.FetchServesInOrder` | dist/src/mocks/mockFetch.js:31-46 | with N fixtures pending for a key, N calls are served by them oldest first, call N+1 throws "no more responses", and the key's queue is then empty |
| `FetchMock.ConstructedServesInOrder` | dist/src/mocks/mockFetch.js:11-46 | fixtures given to the constructor for one key are served in argument order, then the next call throws |
| `CanonicalKey.SortByKey` | dist/src/mocks/mockFetch.js:59-66 | no contract of its own: reduce over the sorted property names. Its properties are stated by `SortByKeyLayout`, `SortByKeyKeepsContent`, `SortByKeyEqualIff` and `SortByKeyIdempotent` |
| `CanonicalKey.Reduce` | dist/src/mocks/mockFetch.js:60-65 | no contract of its own: the reduce callback, which puts the new property ahead of the accumulated ones. `ReduceReverses` states its effect |
| `CanonicalKey.ReduceReverses` | dist/src/mocks/mockFetch.js:60-65 | reducing over a list of names yields their properties in reverse order of the list, followed by the accumulated object |
| `CanonicalKey.Canon` | dist/src/mocks/mockFetch.js:61-63 | no contract of its own: the value copied for one property, rebuilt when its `toString` tag is `Object`. `SortByKeyValueAt` states it |
| `CanonicalKey.SortByKeyLayout` | dist/src/mocks/mockFetch.js:59-66 | the canonical object lists the sorted property names in reverse order, because the reduce prepends each one; each value is the canonical form of the original value under that name |
| `CanonicalKey.SortByKeyValueAt` | dist/src/mocks/mockFetch.js:60-64 | a plain-object property value is replaced by its own canonical form; arrays, scalars and non-plain objects are copied unchanged |
| `CanonicalKey.SortByKeyKeepsContent` | dist/src/mocks/mockFetch.js:59-66 | for well-formed input, the canonical object has the same properties with the same values, up to order at any depth |
| `CanonicalKey.SortByKeyIgnoresOrder` | dist/src/mocks/mockFetch.js:59-66 | objects that differ only in property order, at any plain-object depth, have equal canonical forms |
| `CanonicalKey.SortByKeyEqualIff` | dist/src/mocks/mockFetch.js:59-66 | for well-formed objects, equal canonical forms hold if and only if the objects agree up to property order |
| `CanonicalKey.SortByKeyIdempotent` | dist/src/mocks/mockFetch.js:59-66 | canonicalising a canonical object changes nothing |
| `KeyOrder.Below` | dist/src/mocks/mockFetch.js:60 | no contract of its own: the order of the default `sort()`, character by character, a proper prefix first. `BelowIrreflexive`, `BelowAsymmetric`, `BelowTransitive` and `BelowTotal` show it is a strict total order |
| `KeyOrder.Sort` | dist/src/mocks/mockFetch.js:60 | the sorted names are in ascending string order and are a permutation of the input |
| `KeyOrder.SortPermutationInvariant` | dist/src/mocks/mockFetch.js:60 | sorting depends only on the multiset of names, not on their original order |
| `Values.DelayOrZero` | dist/src/mocks/mockFetch.js:44 | an unset delay counts as 0 and a set delay as itself |
| `QueueStore.Register` | dist/src/mocks/mockFetch.js:22-30 | the value is appended to its key's queue, the key becomes present, and every other key is unchanged |
| `QueueStore.Consume` | dist/src/mocks/mockFetch.js:33-37 | nothing is returned exactly when the key's queue is empty or missing, and then the dictionary is unchanged; otherwise the head is returned and the key keeps only the tail |
| `QueueStore.RegisterAll` | dist/src/mocks/mockFetch.js:18-20 | no contract of its own: the constructor's `forEach`, registering each fixture in turn. `RegisterAllQueue` states the queues it builds, and `MatchingSound` that each queued entry is one of the fixtures and has that key |
| `QueueStore.RegisterAllQueue` | dist/src/mocks/mockFetch.js:11-21 | registering a list appends, to each key's queue, exactly the list's values with that key, in list order |
| `GraphQL.OperationDocument` | dist/src/mocks/mockNetworkInterface.d.ts:30-37 | no contract of its own: the document of a request is its `query`, or else its `mutation`. `MockNetworkInterface.Mutate` and `ConstructedQueryServesFirstMatch` state what it means for serving |
| `GraphQL.GQLRequestKey` | dist/src/mocks/mockNetworkInterface.d.ts:30-37 | no contract of its own: a request is keyed by its document and its variables; the debug name and operation name play no part. `ConstructedQueryServesFirstMatch` states which fixture then answers |
| `GraphQL.KeyOfMockedResponse` | dist/src/mocks/mockNetworkInterface.d.ts:14-15 | no contract of its own: a fixture is keyed by its request's query and variables |
| `GraphQL.WithoutEmptyErrors` | dist/tests/QueryManager.js:204-227 | an `errors` list that is present and empty is dropped; data and non-empty errors are kept |
| `GraphQL.Respond` | dist/tests/client.js:924-947 | a fixture's network error rejects the promise even when it also has a result; otherwise the promise resolves with the result after the fixture's delay |
| `NetworkMock.QueryStep` | dist/src/mocks/mockNetworkInterface.d.ts:42 | an empty queue for the request's key rejects with "no more mocked responses" naming the request and changes nothing; otherwise the head is answered, and removed from the queue |
| `NetworkMock.MockNetworkInterface.constructor` | dist/src/mocks/mockNetworkInterface.d.ts:40 | each key holds exactly the fixtures with that key, in argument order |
| `NetworkMock.MockNetworkInterface.AddMockedResponse` | dist/src/mocks/mockNetworkInterface.d.ts:41 | the fixture is appended to its key's queue; no other key changes |
| `NetworkMock.MockNetworkInterface.Query` | dist/src/mocks/mockNetworkInterface.d.ts:42 | the outcome and the new dictionary are those of `QueryStep` on the old dictionary |
| `NetworkMock.MockNetworkInterface.Mutate` | dist/src/mocks/mockNetworkInterface.d.ts:43 | a mutation is served exactly as a query for the same document and variables |
| `NetworkMock.ConstructedQueryServesFirstMatch` | dist/tests/QueryManager.js:515-553 | on a freshly built interface, a query is answered by the first registered fixture whose document is the request's query (or mutation) and whose variables are the request's; with no such fixture it rejects with "no more mocked responses". The same query with other variables is therefore answered by other fixtures |
| `NetworkMock.QueryServesInOrder` | dist/tests/client.js:636-660 | with N fixtures pending for a request, N queries get them oldest first, and query N+1 rejects |
| `NetworkMock.BatchStep` | dist/src/mocks/mockNetworkInterface.d.ts:63-65 | one outcome per member of the batch |
| `NetworkMock.BatchMemberOutcome` | dist/tests/batching.js:73-99 | member `i` of a batch gets what a lone query gets once members `0..i-1` have been served |
| `NetworkMock.BatchConsumesEachKeyOnce` | dist/src/mocks/mockNetworkInterface.d.ts:64 | when no two members share a key, a batch takes exactly one fixture from each key it names, whether that member resolves or rejects, and leaves other keys unchanged |
| `NetworkMock.BatchMembersIndependent` | dist/src/mocks/mockNetworkInterface.d.ts:64 | when no two members share a key, each member gets what a lone query on the initial fixtures would get |
| `NetworkMock.Combine` | dist/tests/batching.js:132-152 | the batch resolves if and only if every member resolves, with the members' results in input order; otherwise it rejects with the failure of the first failing member |
| `NetworkMock.MockBatchedNetworkInterface.constructor` | dist/src/mocks/mockNetworkInterface.d.ts:63-65 | each key holds exactly the fixtures with that key, in argument order |
| `NetworkMock.MockBatchedNetworkInterface.BatchQuery` | dist/src/mocks/mockNetworkInterface.d.ts:64 | the outcome is the combination of `BatchStep`'s member outcomes, and the new dictionary is `BatchStep`'s |
| `NetworkMock.CreateMockNetworkInterface` | dist/src/mocks/mockNetworkInterface.d.ts:6 | a fresh interface holding the given fixtures per key, in order |
| `NetworkMock.CreateMockBatchedNetworkInterface` | dist/src/mocks/mockNetworkInterface.d.ts:8 | a fresh batched interface holding the given fixtures per key, in order |
| `NetworkMock.QueryStepQueue` | dist/src/mocks/mockNetworkInterface.d.ts:42 | a query removes one fixture from its own key's queue and touches no other key |
| `SubscriptionMock.MockedSubscription.constructor` | dist/src/mocks/mockNetworkInterface.d.ts:25-29 | the fixture holds the given request, pending results and id |
| `SubscriptionMock.Deliver` | dist/src/mocks/mockNetworkInterface.d.ts:52-54 | an entry with an error calls the handler as `(error, undefined)`, any other entry as `(undefined, result)`, after the entry's delay (0 when unset) |
| `SubscriptionMock.MockSubscriptionNetworkInterface.constructor` | dist/tests/mockNetworkInterface.js:45-58 | each key holds exactly the subscription fixtures with that key, in order, including repeats; both id registries are empty and the counter is 0 |
| `SubscriptionMock.MockSubscriptionNetworkInterface.GenerateSubscriptionId` | dist/src/mocks/mockNetworkInterface.d.ts:57 | returns the counter, advances it by one, and the id returned is not live |
| `SubscriptionMock.MockSubscriptionNetworkInterface.AddMockedSubscription` | dist/src/mocks/mockNetworkInterface.d.ts:58 | the fixture is appended to its key's list |
| `SubscriptionMock.MockSubscriptionNetworkInterface.Subscribe` | dist/tests/mockNetworkInterface.js:91-106 | with no fixture for the key it throws and changes nothing; otherwise the first fixture for the key and the handler are stored under the next id, which is returned |
| `SubscriptionMock.MockSubscriptionNetworkInterface.FireResult` | dist/tests/mockNetworkInterface.js:59-90 | it throws for an id that is not live, and for a subscription with no results left; otherwise it drops the first pending result and hands it to that id's handler |
| `SubscriptionMock.MockSubscriptionNetworkInterface.Unsubscribe` | dist/tests/mockNetworkInterface.js:141-156 | removes the id from both id registries and keeps the counter, so the id stays unknown |
| `SubscriptionMock.CreateMockSubscriptionNetworkInterface` | dist/src/mocks/mockNetworkInterface.d.ts:7 | a fresh interface holding the subscription fixtures and the response fixtures per key, with no live subscriptions |
| `Scenarios.SubscribeFireUnsubscribe` | dist/tests/mockNetworkInterface.js:121-156 | on a fresh interface: the first id is 0; N fires deliver the N results to the handler in order; fire N+1 throws; after `unsubscribe` the id is unknown; a new subscription gets id 1 |

## Left out

- Time and promises: delays are recorded as numbers of milliseconds, and nothing is scheduled. A call that rejects is not told apart from one that throws synchronously, beyond what the outcome records.
- `FetchMock.FetchParamsToKey`: the key is the pair (url, canonical options), not the `JSON.stringify` text, and the two differ in both directions. The text can merge what the pair keeps apart: it drops properties whose value is `undefined` or a function, so options that differ only in such properties share a key in the source but not in the model; inside arrays it prints `undefined` as `null`, so `[undefined]` and `[null]` share a key in the source only; and it prints a non-plain object like a plain object with the same fields, so `Obj("Headers", [a: 1])` and `Obj("Object", [a: 1])` both print `{"a":1}` in the source while the model keeps their tags apart. The pair can merge what the text keeps apart: a non-plain object is modelled by its tag and its own enumerable properties only, so two `Date` values in the options are both `Obj("Date", [])` and share a key in the model, while their `toJSON` texts differ in the source.
- `CanonicalKey.SortByKeyLayout`: JavaScript objects list integer-like property names first, in ascending numeric order, whatever the insertion order. The real property order of `sortByKey`'s result therefore puts those names first, and only the other names come out in reverse sorted order as the lemma states for all of them. The key text stays deterministic either way, so which options share a key is unaffected.
- Numbers are modelled as integers. Fractional numbers, `NaN` and the infinities cannot be expressed, neither in option values nor in delays (`delay` is an optional integer, so `delay ? delay : 0` is not modelled for `NaN`).
- `KeyOrder.Below` and `KeyOrder.Sort`: property names are compared code point by code point, not by UTF-16 code unit. The two orders differ only for characters outside the Basic Multilingual Plane.
- `sortByKey` of `undefined` or `null` options, where `Object.keys` throws a `TypeError`: options are always an object here, as the declarations require.
- `getFetch` returns `fetch` bound to its mock. The model has no function values with state, so a caller of `CreateMockFetch` calls `MockFetch.Fetch` on the returned mock.
- The error messages are not modelled as text. A thrown error is named by its kind, plus the url or request its message shows.
- `NetworkMock.QueryStep`: the text form of a request key is not visible in the declarations. The key is the pair (document, variables), with the variables compared as ordered property lists, so two requests whose variables differ only in property order do not match in the model.
- `GraphQL.OperationDocument`: the declarations do not say which document a request that carries both `query` and `mutation` is keyed by. The model keys it by its `query`.
- `NetworkMock.QueryStep`: a request without `variables` and one with `variables: {}` get different keys in the model. The declarations do not fix whether the source treats them alike; the model keeps them apart.
- `GraphQL.WithoutEmptyErrors`: the tests do not show whether the mock or the client drops an `errors` list that is present and empty, since the client rebuilds the result it hands on. The model drops it in the mock.
- `SubscriptionMock.Deliver`: neither the declarations nor the tests say what a subscription entry with both an `error` and a `result` delivers. The model lets the error win and calls the handler as `(error, undefined)`.
- `GraphQL.Respond`: the declarations do not say what a query fixture with neither a result nor an error does. The model rejects it with `MissingResultOrError`, by analogy with `fetch`.
- `NetworkMock.Combine`: `Promise.all` rejects with the first member to fail in time. The model, which has no time, takes the first failing member in input order.
- `NetworkMock.MockBatchedNetworkInterface.BatchQuery` and `SubscriptionMock.MockSubscriptionNetworkInterface`: inheritance from `MockNetworkInterface` is modelled by composition, as a `network` field holding the inherited request side.
- `SubscriptionMock.MockSubscriptionNetworkInterface.Subscribe`: the request is matched by the same key as a query. A fixture is not removed when subscribed to, and its own `id` field is not consulted: ids come from the counter.
- `SubscriptionMock.MockedSubscription`: an omitted `results` list is modelled as an empty list; firing it throws in both cases.
- A handler timer already scheduled when `unsubscribe` runs still fires in the source. The model records the delivery at the moment of the fire, so that window does not arise.
- `mockQueryManager`, `mockWatchQuery`, `wrap`, `withWarning`, `subscribeAndCount`, `observableToPromise` and the package index are outside this model: they only bridge callbacks and promises.
- The reassignment of the global `fetch` in some callers is not part of this model.
