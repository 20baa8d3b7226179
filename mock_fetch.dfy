/** `MockFetch` (mockFetch.js): a stand-in for `fetch` that serves canned
    responses, per (url, options) key, in registration order. */
module FetchMock {

  import opened Values
  import opened CanonicalKey
  import opened QueueStore

  /** The response object a fixture carries; `json()` resolves to `body`. */
  datatype MockedIResponse = MockedIResponse(body: Value) {
    function Json(): Value {
      body
    }
  }

  /** `createMockedIResponse(result)`. */
  function CreateMockedIResponse(result: Value): (r: MockedIResponse)
    ensures r.Json() == result
  {
    MockedIResponse(result)
  }

  /** A fixture: `{ url, opts, result?, delay? }`. */
  datatype MockedFetchResponse = MockedFetchResponse(
    url: string,
    opts: seq<Field>,
    result: Option<MockedIResponse>,
    delay: Option<int>)

  /** The key `fetchParamsToKey` builds: the url and the canonical options.
      The source serialises this pair with `JSON.stringify`; the model keeps
      the pair itself. */
  datatype FetchKey = FetchKey(url: string, opts: seq<Field>)

  function FetchParamsToKey(url: string, opts: seq<Field>): FetchKey {
    FetchKey(url, SortByKey(opts))
  }

  function KeyOfResponse(r: MockedFetchResponse): FetchKey {
    FetchParamsToKey(r.url, r.opts)
  }

  /** The two errors `fetch` throws synchronously. The message of the first
      shows the url and `"" + opts`, which is "[object Object]" for every
      options object, so only the url is kept. */
  datatype FetchError = NoMoreMockedFetchResponses(url: string) | MissingResult

  /** What a call to `fetch` does: throw, or return a promise that resolves
      with `response` after `afterDelay` milliseconds. */
  datatype FetchOutcome = Threw(error: FetchError) | Resolves(response: MockedIResponse, afterDelay: int)

  type Responses = map<FetchKey, seq<MockedFetchResponse>>

  /** What `fetch` makes of a dequeued fixture: it throws when the fixture
      has no result, and otherwise resolves with it after the fixture's delay. */
  function Served(entry: MockedFetchResponse): FetchOutcome {
    if entry.result.None? then Threw(MissingResult)
    else Resolves(entry.result.value, DelayOrZero(entry.delay))
  }

  /** One call `fetch(url, opts)` against the dictionary `m`: the outcome and
      the dictionary afterwards. */
  function FetchStep(m: Responses, url: string, opts: seq<Field>): (r: (FetchOutcome, Responses))
    ensures var key := FetchParamsToKey(url, opts);
      var q := Queue(m, key);
      && (q == [] ==> r == (Threw(NoMoreMockedFetchResponses(url)), m))
      && (q != [] ==> r.1 == m[key := q[1..]])
      && (q != [] && q[0].result.None? ==> r.0 == Threw(MissingResult))
      && (q != [] && q[0].result.Some? ==> r.0 == Resolves(q[0].result.value, DelayOrZero(q[0].delay)))
  {
    var (taken, m') := Consume(m, FetchParamsToKey(url, opts));
    match taken
    case None => (Threw(NoMoreMockedFetchResponses(url)), m)
    case Some(entry) => (Served(entry), m')
  }

  class MockFetch {
    var mockedResponsesByKey: Responses

    /** `new MockFetch(...mockedResponses)`: registers the fixtures in
        argument order. */
    constructor (mockedResponses: seq<MockedFetchResponse>)
      ensures mockedResponsesByKey == RegisterAll(map[], mockedResponses, KeyOfResponse)
      ensures forall k :: Queue(mockedResponsesByKey, k) == Matching(mockedResponses, KeyOfResponse, k)
      ensures forall k :: k in mockedResponsesByKey <==> Matching(mockedResponses, KeyOfResponse, k) != []
    {
      mockedResponsesByKey := map[];
      new;
      var i := 0;
      while i < |mockedResponses|
        invariant 0 <= i <= |mockedResponses|
        invariant RegisterAll(mockedResponsesByKey, mockedResponses[i..], KeyOfResponse)
               == RegisterAll(map[], mockedResponses, KeyOfResponse)
      {
        assert mockedResponses[i..][1..] == mockedResponses[i + 1..];
        AddMockedResponse(mockedResponses[i]);
        i := i + 1;
      }
      forall k ensures Queue(mockedResponsesByKey, k) == Matching(mockedResponses, KeyOfResponse, k)
        && (k in mockedResponsesByKey <==> Matching(mockedResponses, KeyOfResponse, k) != [])
      {
        RegisterAllQueue(map[], mockedResponses, KeyOfResponse, k);
      }
    }

    /** Appends the fixture to its key's list, creating the list if absent. */
    method AddMockedResponse(mockedResponse: MockedFetchResponse)
      modifies this
      ensures mockedResponsesByKey
           == Register(old(mockedResponsesByKey), KeyOfResponse(mockedResponse), mockedResponse)
    {
      var key := FetchParamsToKey(mockedResponse.url, mockedResponse.opts);
      var responses := if key in mockedResponsesByKey then mockedResponsesByKey[key] else [];
      if key !in mockedResponsesByKey {
        mockedResponsesByKey := mockedResponsesByKey[key := responses];
      }
      mockedResponsesByKey := mockedResponsesByKey[key := responses + [mockedResponse]];
    }

    /** `fetch(url, opts)`. */
    method Fetch(url: string, opts: seq<Field>) returns (outcome: FetchOutcome)
      modifies this
      ensures (outcome, mockedResponsesByKey) == FetchStep(old(mockedResponsesByKey), url, opts)
    {
      var key := FetchParamsToKey(url, opts);
      if key !in mockedResponsesByKey || |mockedResponsesByKey[key]| == 0 {
        return Threw(NoMoreMockedFetchResponses(url));
      }
      var entry := mockedResponsesByKey[key][0];
      mockedResponsesByKey := mockedResponsesByKey[key := mockedResponsesByKey[key][1..]];
      if entry.result.None? {
        return Threw(MissingResult);
      }
      outcome := Resolves(entry.result.value, DelayOrZero(entry.delay));
    }
  }

  /** `createMockFetch(...mockedResponses)`: a fresh mock holding the
      fixtures; its `fetch` is what the factory hands out. */
  method CreateMockFetch(mockedResponses: seq<MockedFetchResponse>) returns (mock: MockFetch)
    ensures fresh(mock)
    ensures forall k :: Queue(mock.mockedResponsesByKey, k) == Matching(mockedResponses, KeyOfResponse, k)
  {
    mock := new MockFetch(mockedResponses);
  }

  /** Two calls build the same key exactly when they name the same url and
      their options agree up to property order at every level of plain
      objects. */
  lemma FetchKeyIff(url1: string, opts1: seq<Field>, url2: string, opts2: seq<Field>)
    requires WellFormedObject(opts1) && WellFormedObject(opts2)
    ensures FetchParamsToKey(url1, opts1) == FetchParamsToKey(url2, opts2)
        <==> url1 == url2 && SameObject(opts1, opts2)
  {
    SortByKeyEqualIff(opts1, opts2);
  }

  /** Reordering the properties of the options does not change what `fetch`
      does. */
  lemma FetchIgnoresOptionOrder(m: Responses, url: string, opts1: seq<Field>, opts2: seq<Field>)
    requires SameObject(opts1, opts2)
    ensures FetchStep(m, url, opts1) == FetchStep(m, url, opts2)
  {
    SortByKeyIgnoresOrder(opts1, opts2);
  }

  /** `n` calls `fetch(url, opts)` in a row. */
  function FetchRepeatedly(m: Responses, url: string, opts: seq<Field>, n: nat): (seq<FetchOutcome>, Responses)
    decreases n
  {
    if n == 0 then ([], m)
    else
      var (first, m1) := FetchStep(m, url, opts);
      var (rest, m2) := FetchRepeatedly(m1, url, opts, n - 1);
      ([first] + rest, m2)
  }

  /** With N fixtures pending for a key, N calls are served by them oldest
      first and call N+1 throws; a fixture without a result makes its own
      call throw after it has been removed. */
  lemma {:induction false} FetchServesInOrder(m: Responses, url: string, opts: seq<Field>)
    ensures var q := Queue(m, FetchParamsToKey(url, opts));
      var (outs, m') := FetchRepeatedly(m, url, opts, |q| + 1);
      && |outs| == |q| + 1
      && (forall i :: 0 <= i < |q| ==> outs[i] == Served(q[i]))
      && outs[|q|] == Threw(NoMoreMockedFetchResponses(url))
      && Queue(m', FetchParamsToKey(url, opts)) == []
    decreases |Queue(m, FetchParamsToKey(url, opts))|
  {
    var key := FetchParamsToKey(url, opts);
    var q := Queue(m, key);
    if q != [] {
      var (first, m1) := FetchStep(m, url, opts);
      assert first == Served(q[0]);
      assert Queue(m1, key) == q[1..];
      FetchServesInOrder(m1, url, opts);
      var (rest, m2) := FetchRepeatedly(m1, url, opts, |q|);
      assert FetchRepeatedly(m, url, opts, |q| + 1) == ([first] + rest, m2);
    }
  }

  /** The fixtures given to the constructor for one key are served in the
      order they were given. */
  lemma ConstructedServesInOrder(mockedResponses: seq<MockedFetchResponse>, url: string, opts: seq<Field>)
    ensures var rs := Matching(mockedResponses, KeyOfResponse, FetchParamsToKey(url, opts));
      var (outs, _) := FetchRepeatedly(RegisterAll(map[], mockedResponses, KeyOfResponse), url, opts, |rs| + 1);
      && |outs| == |rs| + 1
      && (forall i :: 0 <= i < |rs| ==> outs[i] == Served(rs[i]))
      && outs[|rs|] == Threw(NoMoreMockedFetchResponses(url))
  {
    var m := RegisterAll(map[], mockedResponses, KeyOfResponse);
    RegisterAllQueue(map[], mockedResponses, KeyOfResponse, FetchParamsToKey(url, opts));
    FetchServesInOrder(m, url, opts);
  }
}
