# Traffic-capture filter for an Envoy sidecar, modelled in Dafny

The filter is a proxy-wasm HTTP filter written in Go. For every HTTP exchange the
proxy creates one `Handler`. The host calls back with request and response body
notifications, each carrying a `bodySize`. The code treats `bodySize` as the
cumulative number of body bytes buffered so far: it pulls the bytes beyond those
it has already read and appends them to a per-direction buffer. The comments
beside that code say instead that `bodySize` is the size of the current chunk.
Under that reading the code loses bytes (see "## Findings"). When the exchange is done, it normalises both header lists, looks up the
exchange properties (path, method, protocol, status, addresses), and computes a
partition id: the 32-bit FNV-1a hash of the local address. It then assembles a
flat 14-key event and hands it to a Kafka producer.

The model has six modules:

- `Wrappers` (wrappers.dfy): `HostResult`, the outcome of a host call that may
  fail. `GetOr` gives the Go zero value the filter goes on with after a failure.
- `GoText` (text.dfy): Go strings as byte sequences, and the decimal rendering of
  integers by `fmt.Sprint`. Decimal strings read back to the number they render.
- `Fnv` (fnv.dfy): the partition `hash`, which is FNV-1a 32 over the bytes of a
  string, as a left fold over `bv32`.
- `Headers` (headers.dfy): `headerArrayToMap`, which turns ordered (name, value)
  pairs into a map where the last pair with a given name wins.
- `Accumulator` (accumulator.dfy): one body notification as a transition on one
  direction's state (bytes read, chunk counter, buffer). Also a replay of many
  notifications, and the behaviour with a host that serves the real body.
- `Filter` (handler.dfy): the `Handler` class with the six fields the Go struct
  updates in place. Its body callbacks are proved against `Accumulate`. The
  completion callback builds the event, and the event's keys are an enumeration.

Host calls are parameters of the callbacks. `GetHttpRequestBody` and
`GetHttpResponseBody` are functions `(offset, size) -> HostResult<Bytes>`, so the
contracts show which offset and size are asked for. A ghost log on the handler
records each fetch. The contracts state that a notification with no new bytes
adds nothing to the log, and that its result does not depend on the host. Header snapshots and property lookups are
`HostResult` values. `json.Marshal` of a header map is a function parameter
`marshal`. The Unix time is an integer parameter.

## Model

| member | source | states |
|---|---|---|
| `Accumulator.Accumulate` | internal/handler.go:135-148 | With no new bytes (`bodySize - total <= 0`) nothing changes, whatever the host would answer. Otherwise the chunk counter goes up by one even if the fetch fails. A failed fetch keeps the total and the buffer. A successful fetch appends exactly the returned bytes and adds their count to the total, even when that count differs from the size requested. The total and the buffer never shrink, and `|body| == total` is preserved. |
| `Accumulator.Replay` | internal/handler.go:129-154 | Over any series of notifications in host order, the total never decreases and the old buffer stays a prefix of the new one. `|body| == total` holds throughout, and the counter rises by at most one per notification. |
| `Accumulator.HonestStep` | internal/handler.go:135-147 | Suppose the host returns the bytes it announced and the buffer holds the first `total` bytes of the body. After one notification the buffer holds the first `max(total, bodySize)` bytes. |
| `Accumulator.HonestReplay` | internal/handler.go:129-154 | With such a host, whatever the number and sizes of the notifications, the buffer is the body's prefix up to the largest size announced. |
| `Accumulator.HonestReplayFromStart` | internal/handler.go:129-154 | From a fresh handler, with non-decreasing announced sizes, the final buffer is the body's first `last` bytes, where `last` is the last size announced. |
| `Accumulator.FaultyReplayPrefix` | internal/handler.go:135-148 | Take a host that may fail at any call, and may return fewer or more bytes than asked, but always returns the part of the body starting at the offset asked for. Over any series of notifications with such a host, the buffer is always the body's prefix up to the count of bytes read: no gaps and no overlaps. |
| `Accumulator.TwoChunkBody` | internal/handler.go:129-154 | The 7-byte body `{"a":1}`, announced as 2 and then 7 bytes, is reassembled whole. |
| `Filter.Handler.constructor` | main.go:57 | A new handler, Go's zero value: counters zero, buffers empty, no fetch logged, invariant holds. |
| `Filter.Handler.OnHttpRequestBody` | internal/handler.go:129-154 | Returns `Continue` on every path. The request fields become `Accumulate` of their old values. The request fetch log grows by exactly `(totalRequestBodyReadSize, chunkSize)` when `chunkSize > 0`, and by nothing otherwise. The response fields and log are unchanged. `endOfStream` has no effect. The invariant `|reqBody| == totalRequestBodyReadSize` is kept. |
| `Filter.Handler.OnHttpResponseBody` | internal/handler.go:156-186 | The mirror image of the request callback: only `totalResponseBodyReadSize`, `sentChunks`, `resBody` and the response fetch log change. It always returns `Continue` and keeps `|resBody| == totalResponseBodyReadSize`. |
| `Filter.Handler.OnHttpStreamDone` | internal/handler.go:48-118 | The event is assembled from the normalised and marshalled headers, both buffers, the looked-up properties and the time. A failed header snapshot gives the marshalled empty map. A failed property lookup gives the Go zero value: an empty path, status `0`, and for a failed local address the hash of the empty string (2166136261). |
| `Filter.TransactionEvent` | internal/handler.go:94-110 | `is_pending` is `false`. `akto_account_id` is the text `1000000`. `akto_vxlan_id`, `statusCode` and `time` are in the canonical shape `fmt.Sprint` gives: no leading zero, and a minus sign only before a non-zero magnitude. They read back as `hash(localSource)`, the status code and the signed Unix time. With `CanonicalUnique` and `SignedCanonicalUnique`, this fixes each field to exactly the `fmt.Sprint` rendering. The payloads are the two buffers. `ip` is the upstream (destination) address and `source` the downstream remote address. `path`, `method`, `type` (the protocol) and the header strings are the retrieved values. |
| `Filter.Event.AsMap` | internal/handler.go:94-110 | The `map[string]string` the source builds. Its keys are exactly the fourteen strings `path` … `source` as written, and each key's name maps to that key's field. |
| `Filter.KeyNamedName` | internal/handler.go:94-110 | Every key's name is one of the fourteen written names, and that name gives back the key. |
| `Filter.AccountIdText` | internal/handler.go:106 | `fmt.Sprint(1000000)` is `"1000000"`. |
| `Filter.EventKeyCount` | internal/handler.go:94-110 | The event map literal has fourteen distinct string keys. |
| `Filter.EventKeyNamesDistinct` | internal/handler.go:95-109 | The fourteen key names as written are pairwise distinct. |
| `Filter.StatusOkText` | internal/handler.go:103 | `fmt.Sprint(200)` is `"200"`. |
| `Filter.TwoChunkExchange` | internal/handler.go:48-154 | A body delivered in two chunks, followed by a 200 response without a body. The event's `requestPayload` is the whole body, `responsePayload` is empty, `statusCode` is `"200"` and `is_pending` is `"false"`. |
| `Accumulator.FrameSkipped` | internal/handler.go:134-148 | As written, under the per-frame reading of `bodySize`: a frame no longer than the bytes already read leaves the state unchanged, so the frame is dropped. |
| `Accumulator.FrameTruncated` | internal/handler.go:134-148 | As written, under the per-frame reading: a longer frame is appended without its first `total` bytes. |
| `Accumulator.FrameLossExample` | internal/handler.go:134-148 | As written: after the frame `ab`, the frame `cdefg` leaves the buffer `abefg`. |
| `Accumulator.AccumulateFrame` | internal/handler.go:134-148 | The per-frame step the comments describe. With `bodySize <= 0` nothing changes. Otherwise the counter goes up, and the whole frame fetched from offset 0 is appended, or nothing on failure. `|body| == total` is preserved. |
| `Accumulator.ReplayFramesConcat` | internal/handler.go:134-148 | With the per-frame step, the buffer after any series of frames is the old buffer followed by every frame in order, and the total grows by their combined length. |
| `Headers.HeaderArrayToMap` | internal/handler.go:121-127 | An empty header list (the nil list of a failed host call included) gives the empty map. |
| `Headers.HeaderKeys` | internal/handler.go:121-127 | The map's keys are exactly the names that occur in the input. |
| `Headers.HeaderLastWins` | internal/handler.go:123-125 | Each name maps to the value of the last pair with that name. |
| `Headers.HeaderMapUnique` | internal/handler.go:121-127 | A map whose keys are the input's names and in which the last pair wins is the normalised map. The two laws determine the result. |
| `Headers.DuplicateNameLastWins` | internal/handler.go:121-127 | `[(a, v1), (a, v2)]` gives `{a: v2}`. |
| `Fnv.Hash` | internal/handler.go:42-46 | The hash of the empty string is the offset basis 2166136261. |
| `Fnv.HashFromConcat` | internal/handler.go:42-46 | Hashing `s + t` is hashing `t` from the state left by `s`, so the hash is a left fold over the bytes. |
| `Fnv.HashSnoc` | internal/handler.go:42-46 | `hash(s + [b]) == (hash(s) ^ b) * 16777619`, computed in `bv32` (modulo 2^32). |
| `Fnv.HashOfA` | internal/handler.go:42-46 | `hash("a") == 0xe40c292c`, the published FNV-1a 32 value. |
| `Fnv.HashOfFoobar` | internal/handler.go:42-46 | `hash("foobar") == 0xbf9cf968`, the published FNV-1a 32 value. |
| `GoText.NatToDecimal` | internal/handler.go:103-107 | `fmt.Sprint` of an unsigned integer is canonical: a non-empty string of decimal digits with no leading zero, and `"0"` only for zero. |
| `GoText.IntToDecimal` | internal/handler.go:102 | `fmt.Sprint` of the signed Unix time is canonical: its magnitude has no leading zero, and it starts with `-` exactly when the time is negative. It reads back as the time. |
| `GoText.CanonicalUnique` | internal/handler.go:103-107 | A canonical digit string that reads back as `n` is the rendering of `n`, so canonical form plus read-back pins the string. |
| `GoText.SignedCanonicalUnique` | internal/handler.go:102 | The same for signed strings: a canonical signed string that reads back as `i` is the rendering of `i`. |
| `GoText.DecimalRoundTrip` | internal/handler.go:103-107 | The decimal rendering of `n` reads back as `n`. |
| `GoText.DecimalInjective` | internal/handler.go:103-107 | Distinct numbers render as distinct strings. |

## Left out

- main.go: VM and plugin lifecycle (`NewPluginContext`, `OnPluginStart`, `OnPluginDone`) and the Kafka writer configuration. They only wire up host contexts and a network client.
- `go gomiddleware.Produce(...)` (internal/handler.go:117): detached Kafka network I/O. `OnHttpStreamDone` returns the event instead of publishing it.
- `json.Marshal` of the event (internal/handler.go:112): the final serialised blob is not modelled. Header maps are marshalled by the opaque `marshal` parameter. Escaping, key order, and the replacement of invalid UTF-8 by the serialiser are not modelled.
- The `proxywasm` and `properties` host ABIs: their results are parameters. A failed property lookup is taken to return the Go zero value (`""`, `0`). The `properties` package is not part of this model.
- `time.Now().Unix()`: the wall clock is a parameter.
- Logging, including the size-mismatch message, and the diagnostic `Id`, `KafkaContext` and `KafkaWriter` fields.
- Filter.Handler.OnHttpRequestBody: Go's fixed-width `int` is an unbounded integer here, so overflow of `totalRequestBodyReadSize` is not modelled. The same holds for `OnHttpResponseBody` and its fields.
- Accumulator.HonestStep, Accumulator.HonestReplay, Accumulator.HonestReplayFromStart, Accumulator.TwoChunkBody and Filter.TwoChunkExchange assume the cumulative reading of `bodySize`: the host's buffer holds the whole body so far. The comments at internal/handler.go:134 and :164 describe the per-chunk reading. Under that reading the code loses bytes, as "## Findings" shows.
- Filter.Handler.OnHttpRequestBody and Filter.Handler.OnHttpResponseBody model the callbacks as written. They do not use the corrected `AccumulateFrame`, because which reading of `bodySize` the host follows is part of the host ABI, and that ABI is not part of this model.
- Filter.TransactionEvent: the event is a record with one field per key, and its `AsMap` view is the flat string-keyed map the source builds. Inside the model the keys are the enumeration `EventKey`, whose `Name` is each key as written. This is a representation choice and changes no value the event holds.
- Filter.Handler.OnHttpStreamDone: the status code is an unbounded natural. The width of the value `properties.GetResponseCode` returns is not modelled.

## Findings

| source | as written | input that shows it | evidently intended | confidence | as-written member | corrected member |
|---|---|---|---|---|---|---|
| internal/handler.go:134-148 (and :164-179 for responses) | fetches `bodySize - totalRead` bytes from offset `totalRead`, which treats `bodySize` as cumulative | the comment on the line above says `bodySize` is the current chunk's size. After the chunk `ab` (total 2), the chunk `cdefg` arrives with `bodySize` 5, and the buffer becomes `abefg`. A second chunk no longer than 2 bytes would be dropped whole. | append each whole chunk, fetched from offset 0, so the buffer becomes `abcdefg` | medium: depends on the host's `bodySize` semantics; not executed | `Accumulator.FrameLossExample` | `Accumulator.ReplayFramesConcat` |
