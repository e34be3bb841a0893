/** The per-exchange HTTP context of the filter: body capture on both directions
    and the transaction event assembled when the exchange is done. */
module Filter {
  import opened Wrappers
  import opened GoText
  import opened Fnv
  import opened Headers
  import opened Accumulator

  /** What a callback tells the proxy to do with the exchange. */
  datatype Action = Continue | Pause

  /** The tenant identifier every event carries. */
  const AccountId: nat := 1000000

  /** The text of the pending flag, which is always false at emission. */
  const FalseText: Bytes := Ascii("false")

  /** The keys of a transaction event; `Name` is the key as it is written. */
  datatype EventKey =
    | Path | RequestHeaders | ResponseHeaders | Method | RequestPayload | ResponsePayload
    | Ip | Time | StatusCode | Type | AktoAccountId | AktoVxlanId | IsPending | Source
  {
    function Name(): string {
      match this
      case Path => "path"
      case RequestHeaders => "requestHeaders"
      case ResponseHeaders => "responseHeaders"
      case Method => "method"
      case RequestPayload => "requestPayload"
      case ResponsePayload => "responsePayload"
      case Ip => "ip"
      case Time => "time"
      case StatusCode => "statusCode"
      case Type => "type"
      case AktoAccountId => "akto_account_id"
      case AktoVxlanId => "akto_vxlan_id"
      case IsPending => "is_pending"
      case Source => "source"
    }
  }

  /** Every key an event carries. */
  const EventKeys: set<EventKey> := {
    Path, RequestHeaders, ResponseHeaders, Method, RequestPayload, ResponsePayload,
    Ip, Time, StatusCode, Type, AktoAccountId, AktoVxlanId, IsPending, Source
  }

  /** The fourteen key names of the event, as the source writes them. */
  const EventKeyNames: set<string> := {
    "path", "requestHeaders", "responseHeaders", "method", "requestPayload", "responsePayload",
    "ip", "time", "statusCode", "type", "akto_account_id", "akto_vxlan_id", "is_pending", "source"
  }

  /** The key written as `name`. */
  function KeyNamed(name: string): (k: EventKey)
    requires name in EventKeyNames
    ensures k in EventKeys && k.Name() == name
  {
    if name == "path" then Path
    else if name == "requestHeaders" then RequestHeaders
    else if name == "responseHeaders" then ResponseHeaders
    else if name == "method" then Method
    else if name == "requestPayload" then RequestPayload
    else if name == "responsePayload" then ResponsePayload
    else if name == "ip" then Ip
    else if name == "time" then Time
    else if name == "statusCode" then StatusCode
    else if name == "type" then Type
    else if name == "akto_account_id" then AktoAccountId
    else if name == "akto_vxlan_id" then AktoVxlanId
    else if name == "is_pending" then IsPending
    else Source
  }

  /** Every key's name is one of the fourteen, and names that key. */
  lemma KeyNamedName(k: EventKey)
    ensures k.Name() in EventKeyNames && KeyNamed(k.Name()) == k
  {
  }

  /** The event map has fourteen distinct key names. */
  lemma EventKeyCount()
    ensures |EventKeyNames| == 14
  {
  }

  /** No two keys are written alike, so the event is a map of fourteen distinct names. */
  lemma EventKeyNamesDistinct(a: EventKey, b: EventKey)
    requires a.Name() == b.Name()
    ensures a == b
  {
  }

  /** The exchange properties the completion handler asks the host for, each
      lookup of which may fail on its own. */
  datatype HostProperties = HostProperties(
    path: HostResult<Bytes>,
    requestMethod: HostResult<Bytes>,
    protocol: HostResult<Bytes>,
    responseCode: HostResult<nat>,
    downstreamRemoteAddress: HostResult<Bytes>,
    upstreamAddress: HostResult<Bytes>,
    downstreamLocalAddress: HostResult<Bytes>)

  /** A transaction event: one field per key of the mapping the filter
      serialises and publishes. */
  datatype Event = Event(
    path: Bytes, requestHeaders: Bytes, responseHeaders: Bytes, requestMethod: Bytes,
    requestPayload: Bytes, responsePayload: Bytes, ip: Bytes, time: Bytes, statusCode: Bytes,
    protocol: Bytes, accountId: Bytes, vxlanId: Bytes, isPending: Bytes, source: Bytes)
  {
    /** The value the event holds under key `k`. */
    function Get(k: EventKey): Bytes {
      match k
      case Path => path
      case RequestHeaders => requestHeaders
      case ResponseHeaders => responseHeaders
      case Method => requestMethod
      case RequestPayload => requestPayload
      case ResponsePayload => responsePayload
      case Ip => ip
      case Time => time
      case StatusCode => statusCode
      case Type => protocol
      case AktoAccountId => accountId
      case AktoVxlanId => vxlanId
      case IsPending => isPending
      case Source => source
    }

    /** The flat mapping handed to the serialiser: the fourteen key names as
        written, each with its field. */
    function AsMap(): (m: map<string, Bytes>)
      ensures m.Keys == EventKeyNames
      ensures forall k :: k in EventKeys ==> k.Name() in m && m[k.Name()] == Get(k)
    {
      assert forall k :: k in EventKeys ==> k.Name() in EventKeyNames && KeyNamed(k.Name()) == k by {
        forall k | k in EventKeys
          ensures k.Name() in EventKeyNames && KeyNamed(k.Name()) == k
        {
          KeyNamedName(k);
        }
      }
      map name | name in EventKeyNames :: Get(KeyNamed(name))
    }
  }

  /** The event of one exchange, from the values retrieved for it. The numeric
      fields are `fmt.Sprint` renderings: each reads back as its number. */
  function TransactionEvent(
    path: Bytes, requestMethod: Bytes, protocol: Bytes, statusCode: nat,
    source: Bytes, destination: Bytes, localSource: Bytes,
    requestHeaders: Bytes, responseHeaders: Bytes,
    requestPayload: Bytes, responsePayload: Bytes, unixTime: int): (event: Event)
    ensures event.isPending == FalseText
    ensures event.accountId == Ascii("1000000")
    ensures Canonical(event.accountId) && DecimalValue(event.accountId) == 1000000
    ensures Canonical(event.vxlanId) && DecimalValue(event.vxlanId) == Hash(localSource) as nat
    ensures Canonical(event.statusCode) && DecimalValue(event.statusCode) == statusCode
    ensures CanonicalSigned(event.time) && SignedDecimal(event.time)
    ensures SignedDecimalValue(event.time) == unixTime
    ensures event.requestPayload == requestPayload && event.responsePayload == responsePayload
    ensures event.ip == destination && event.source == source
    ensures event.path == path && event.requestMethod == requestMethod && event.protocol == protocol
    ensures event.requestHeaders == requestHeaders && event.responseHeaders == responseHeaders
  {
    DecimalRoundTrip(statusCode);
    DecimalRoundTrip(AccountId);
    DecimalRoundTrip(Hash(localSource) as nat);
    AccountIdText();
    Event(path, requestHeaders, responseHeaders, requestMethod, requestPayload, responsePayload,
      destination, IntToDecimal(unixTime), NatToDecimal(statusCode), protocol,
      NatToDecimal(AccountId), NatToDecimal(Hash(localSource) as nat), FalseText, source)
  }

  /** `fmt.Sprint(1000000)`, digit by digit. */
  lemma AccountIdDigits()
    ensures NatToDecimal(AccountId) == [0x31, 0x30, 0x30, 0x30, 0x30, 0x30, 0x30]
  {
    assert NatToDecimal(1) == [0x31];
    assert NatToDecimal(10) == [0x31, 0x30];
    assert NatToDecimal(100) == [0x31, 0x30, 0x30];
    assert NatToDecimal(1000) == [0x31, 0x30, 0x30, 0x30];
    assert NatToDecimal(10000) == [0x31, 0x30, 0x30, 0x30, 0x30];
    assert NatToDecimal(100000) == [0x31, 0x30, 0x30, 0x30, 0x30, 0x30];
  }

  /** `fmt.Sprint(1000000)` is the literal "1000000". */
  lemma AccountIdText()
    ensures NatToDecimal(AccountId) == Ascii("1000000")
  {
    AccountIdDigits();
    AsciiMillion();
  }

  /** The bytes of the literal "1000000". */
  lemma AsciiMillion()
    ensures Ascii("1000000") == [0x31, 0x30, 0x30, 0x30, 0x30, 0x30, 0x30]
  {
  }

  class Handler {
    var totalRequestBodyReadSize: int
    var receivedChunks: int
    var reqBody: Bytes
    var totalResponseBodyReadSize: int
    var sentChunks: int
    var resBody: Bytes
    /** The `(offset, size)` of every body fetch asked of the host, per direction. */
    ghost var requestFetches: seq<(int, int)>
    ghost var responseFetches: seq<(int, int)>

    /** The request direction's accumulator state. */
    ghost function RequestState(): BodyState
      reads this
    {
      BodyState(totalRequestBodyReadSize, receivedChunks, reqBody)
    }

    /** The response direction's accumulator state. */
    ghost function ResponseState(): BodyState
      reads this
    {
      BodyState(totalResponseBodyReadSize, sentChunks, resBody)
    }

    /** Each buffer is as long as the count of bytes read in its direction. */
    ghost predicate Valid()
      reads this
    {
      Consistent(RequestState()) && Consistent(ResponseState())
    }

    /** A new context: every counter zero, both buffers empty. */
    constructor ()
      ensures Valid()
      ensures RequestState() == Initial && ResponseState() == Initial
      ensures requestFetches == [] && responseFetches == []
    {
      totalRequestBodyReadSize, receivedChunks, reqBody := 0, 0, [];
      totalResponseBodyReadSize, sentChunks, resBody := 0, 0, [];
      requestFetches, responseFetches := [], [];
    }

    /** Request body notification; `bodySize` is the cumulative size buffered by
        the host and `host` stands for `GetHttpRequestBody`. */
    method OnHttpRequestBody(bodySize: int, endOfStream: bool, host: BodyHost) returns (action: Action)
      requires Valid()
      modifies this`totalRequestBodyReadSize, this`receivedChunks, this`reqBody, this`requestFetches
      ensures Valid()
      ensures action == Continue
      // the host is asked once, for the bytes past those read, when there are any
      ensures requestFetches == old(requestFetches) +
                (if bodySize - old(totalRequestBodyReadSize) > 0
                 then [(old(totalRequestBodyReadSize), bodySize - old(totalRequestBodyReadSize))] else [])
      ensures responseFetches == old(responseFetches)
      ensures RequestState() == Accumulate(old(RequestState()), bodySize, host)
      ensures ResponseState() == old(ResponseState())
    {
      var chunkSize := bodySize - totalRequestBodyReadSize;
      if chunkSize > 0 {
        receivedChunks := receivedChunks + 1;
        requestFetches := requestFetches + [(totalRequestBodyReadSize, chunkSize)];
        var chunk := host(totalRequestBodyReadSize, chunkSize);
        if chunk.Failed? {
          return Continue;
        }
        // a chunk of another length than asked for is only logged
        totalRequestBodyReadSize := totalRequestBodyReadSize + |chunk.value|;
        reqBody := reqBody + chunk.value;
      }
      return Continue;
    }

    /** Response body notification, the mirror image on the response fields;
        `host` stands for `GetHttpResponseBody`. */
    method OnHttpResponseBody(bodySize: int, endOfStream: bool, host: BodyHost) returns (action: Action)
      requires Valid()
      modifies this`totalResponseBodyReadSize, this`sentChunks, this`resBody, this`responseFetches
      ensures Valid()
      ensures action == Continue
      // the host is asked once, for the bytes past those read, when there are any
      ensures responseFetches == old(responseFetches) +
                (if bodySize - old(totalResponseBodyReadSize) > 0
                 then [(old(totalResponseBodyReadSize), bodySize - old(totalResponseBodyReadSize))] else [])
      ensures requestFetches == old(requestFetches)
      ensures ResponseState() == Accumulate(old(ResponseState()), bodySize, host)
      ensures RequestState() == old(RequestState())
    {
      var chunkSize := bodySize - totalResponseBodyReadSize;
      if chunkSize > 0 {
        sentChunks := sentChunks + 1;
        responseFetches := responseFetches + [(totalResponseBodyReadSize, chunkSize)];
        var chunk := host(totalResponseBodyReadSize, chunkSize);
        if chunk.Failed? {
          return Continue;
        }
        // a chunk of another length than asked for is only logged
        totalResponseBodyReadSize := totalResponseBodyReadSize + |chunk.value|;
        resBody := resBody + chunk.value;
      }
      return Continue;
    }

    /** Exchange completion: normalise both header snapshots, look up the
        exchange properties, and assemble the event handed to the publisher.
        `marshal` stands for `json.Marshal` of a header map. */
    method OnHttpStreamDone(
      requestHeaders: HostResult<seq<Header>>, responseHeaders: HostResult<seq<Header>>,
      props: HostProperties, unixTime: int, marshal: map<Bytes, Bytes> -> Bytes)
      returns (event: Event)
      ensures event == TransactionEvent(
                props.path.GetOr([]), props.requestMethod.GetOr([]), props.protocol.GetOr([]),
                props.responseCode.GetOr(0), props.downstreamRemoteAddress.GetOr([]),
                props.upstreamAddress.GetOr([]), props.downstreamLocalAddress.GetOr([]),
                marshal(HeaderArrayToMap(requestHeaders.GetOr([]))),
                marshal(HeaderArrayToMap(responseHeaders.GetOr([]))),
                reqBody, resBody, unixTime)
      // a failed header snapshot degrades to the empty map
      ensures requestHeaders.Failed? ==> event.requestHeaders == marshal(map[])
      ensures responseHeaders.Failed? ==> event.responseHeaders == marshal(map[])
      // a failed property lookup degrades to the Go zero value
      ensures props.path.Failed? ==> event.path == []
      ensures props.responseCode.Failed? ==> DecimalValue(event.statusCode) == 0
      ensures props.downstreamLocalAddress.Failed? ==> DecimalValue(event.vxlanId) == 2166136261
    {
      var reqHeaderMap := HeaderArrayToMap(requestHeaders.GetOr([]));
      var resHeaderMap := HeaderArrayToMap(responseHeaders.GetOr([]));
      var reqHeaderString := marshal(reqHeaderMap);
      var respHeaderString := marshal(resHeaderMap);
      var path := props.path.GetOr([]);
      var requestMethod := props.requestMethod.GetOr([]);
      var protocol := props.protocol.GetOr([]);
      var statusCode := props.responseCode.GetOr(0);
      var source := props.downstreamRemoteAddress.GetOr([]);
      var destination := props.upstreamAddress.GetOr([]);
      var localSource := props.downstreamLocalAddress.GetOr([]);
      event := TransactionEvent(path, requestMethod, protocol, statusCode, source, destination, localSource,
        reqHeaderString, respHeaderString, reqBody, resBody, unixTime);
    }
  }

  /** `fmt.Sprint(200)`. */
  lemma StatusOkText()
    ensures NatToDecimal(200) == Ascii("200")
  {
    assert NatToDecimal(20) == [0x32, 0x30];
    assert Ascii("200") == [0x32, 0x30, 0x30];
  }

  /** A request whose body arrives in two chunks, a 200 response without a
      body: the event carries the whole request body, an empty response body,
      status "200" and is not pending. */
  method TwoChunkExchange(
    body: Bytes, split: int, requestHeaders: seq<Header>, props: HostProperties, unixTime: int,
    marshal: map<Bytes, Bytes> -> Bytes)
    returns (event: Event)
    requires 0 < split < |body|
    requires props.responseCode == Ok(200)
    ensures event.requestPayload == body
    ensures event.responsePayload == []
    ensures event.statusCode == Ascii("200")
    ensures event.isPending == FalseText
  {
    var h := new Handler();
    var _ := h.OnHttpRequestBody(split, false, HonestHost(body));
    HonestStep(body, Initial, split);
    var _ := h.OnHttpRequestBody(|body|, true, HonestHost(body));
    HonestStep(body, BodyState(split, 1, body[..split]), |body|);
    assert h.reqBody == body[..|body|] == body;
    event := h.OnHttpStreamDone(Ok(requestHeaders), Ok([]), props, unixTime, marshal);
    StatusOkText();
  }
}
