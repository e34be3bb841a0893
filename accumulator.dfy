/** The per-direction body chunk accumulator of `OnHttpRequestBody` and
    `OnHttpResponseBody`, as a transition on the three fields one direction owns. */
module Accumulator {
  import opened Wrappers
  import opened GoText

  /** `GetHttpRequestBody(start, maxSize)` / `GetHttpResponseBody(start, maxSize)`:
      the host either fails or returns some bytes, possibly fewer or more than asked. */
  type BodyHost = (int, int) -> HostResult<Bytes>

  /** One direction's state: bytes read so far, chunk counter, buffer. */
  datatype BodyState = BodyState(total: int, chunks: int, body: Bytes)

  /** The zero value every new handler starts from. */
  const Initial := BodyState(0, 0, [])

  /** The buffer holds exactly the bytes counted as read. */
  predicate Consistent(s: BodyState) {
    |s.body| == s.total
  }

  /** One body notification, as the callbacks are written: `bodySize` is taken
      to be the cumulative number of body bytes the host has buffered for this
      direction, and only the bytes beyond those already read are fetched. */
  function Accumulate(s: BodyState, bodySize: int, host: BodyHost): (r: BodyState)
    // nothing new: no field changes, whatever the host would answer
    ensures bodySize - s.total <= 0 ==> r == s
    // new bytes announced: the counter moves whether or not the fetch succeeds
    ensures bodySize - s.total > 0 ==> r.chunks == s.chunks + 1
    // a failed fetch leaves the bytes read and the buffer alone
    ensures bodySize - s.total > 0 && host(s.total, bodySize - s.total).Failed? ==>
              r.total == s.total && r.body == s.body
    // a successful fetch appends the returned bytes, whatever their number
    ensures bodySize - s.total > 0 && host(s.total, bodySize - s.total).Ok? ==>
              var chunk := host(s.total, bodySize - s.total).value;
              r.body == s.body + chunk && r.total == s.total + |chunk|
    ensures s.total <= r.total && s.body <= r.body && s.chunks <= r.chunks
    ensures Consistent(s) ==> Consistent(r)
  {
    var chunkSize := bodySize - s.total;
    if chunkSize <= 0 then s
    else
      match host(s.total, chunkSize)
      case Failed => s.(chunks := s.chunks + 1)
      case Ok(chunk) => BodyState(s.total + |chunk|, s.chunks + 1, s.body + chunk)
  }

  /** The state after a series of notifications, in the host's order. */
  function Replay(s: BodyState, sizes: seq<int>, host: BodyHost): (r: BodyState)
    ensures s.total <= r.total && s.body <= r.body && s.chunks <= r.chunks <= s.chunks + |sizes|
    ensures Consistent(s) ==> Consistent(r)
    decreases |sizes|
  {
    if sizes == [] then s else Replay(Accumulate(s, sizes[0], host), sizes[1..], host)
  }

  /** A host whose buffer holds `d` and serves any slice of it in range. With
      `d` the whole body this is the cumulative reading of `bodySize`; with `d`
      the current frame only, it is the per-frame reading. */
  function HonestHost(d: Bytes): BodyHost {
    (start: int, size: int) =>
      if 0 <= start && 0 <= size && start + size <= |d| then Ok(d[start..start + size]) else Failed
  }

  /** The largest of `a` and all of `sizes`. */
  function MaxOf(a: int, sizes: seq<int>): (m: int)
    ensures a <= m && forall k :: 0 <= k < |sizes| ==> sizes[k] <= m
    ensures m == a || exists k :: 0 <= k < |sizes| && m == sizes[k]
    decreases |sizes|
  {
    if sizes == [] then a
    else MaxOf(if sizes[0] > a then sizes[0] else a, sizes[1..])
  }

  /** One notification served by an honest host extends the buffer to the
      announced prefix of the body. */
  lemma HonestStep(d: Bytes, s: BodyState, size: int)
    requires 0 <= s.total <= |d| && s.body == d[..s.total] && size <= |d|
    ensures var r := Accumulate(s, size, HonestHost(d));
            r.total == (if size > s.total then size else s.total) && r.body == d[..r.total]
  {
  }

  /** With an honest host, whatever the number and sizes of the chunks, the
      buffer is always the prefix of the body up to the largest size announced. */
  lemma {:induction false} HonestReplay(d: Bytes, s: BodyState, sizes: seq<int>)
    requires 0 <= s.total <= |d| && s.body == d[..s.total]
    requires forall k :: 0 <= k < |sizes| ==> sizes[k] <= |d|
    ensures var r := Replay(s, sizes, HonestHost(d));
            r.total == MaxOf(s.total, sizes) && r.body == d[..r.total]
    decreases |sizes|
  {
    if sizes != [] {
      HonestStep(d, s, sizes[0]);
      var s' := Accumulate(s, sizes[0], HonestHost(d));
      HonestReplay(d, s', sizes[1..]);
    }
  }

  /** From a fresh handler, non-decreasing cumulative sizes served honestly
      leave exactly the first `last` bytes of the body in the buffer. */
  lemma HonestReplayFromStart(d: Bytes, sizes: seq<int>)
    requires |sizes| > 0
    requires forall k :: 0 <= k < |sizes| ==> 0 <= sizes[k] <= |d|
    requires forall j, k :: 0 <= j <= k < |sizes| ==> sizes[j] <= sizes[k]
    ensures Replay(Initial, sizes, HonestHost(d)).body == d[..sizes[|sizes| - 1]]
  {
    HonestReplay(d, Initial, sizes);
  }

  /** A JSON request body delivered as two chunks is reassembled whole. */
  lemma TwoChunkBody()
    ensures Replay(Initial, [2, 7], HonestHost(Ascii("{\"a\":1}"))).body == Ascii("{\"a\":1}")
  {
  }

  /** A host that may fail at any call, and may return fewer or more bytes than
      asked, but whatever it returns is the slice of the body `d` that starts at
      the offset asked for. */
  ghost predicate Truthful(d: Bytes, host: BodyHost) {
    forall o, n :: host(o, n).Ok? ==>
      0 <= o && o + |host(o, n).value| <= |d| && host(o, n).value == d[o..o + |host(o, n).value|]
  }

  /** Whatever the host's failures and short or long answers, as long as it
      answers truthfully the buffer has no gaps and no overlaps: it is always
      the prefix of the body up to the count of bytes read. */
  lemma {:induction false} FaultyReplayPrefix(d: Bytes, s: BodyState, sizes: seq<int>, host: BodyHost)
    requires Truthful(d, host)
    requires 0 <= s.total <= |d| && s.body == d[..s.total]
    ensures var r := Replay(s, sizes, host);
            0 <= r.total <= |d| && r.body == d[..r.total]
    decreases |sizes|
  {
    if sizes != [] {
      var s' := Accumulate(s, sizes[0], host);
      assert 0 <= s'.total <= |d| && s'.body == d[..s'.total] by {
        if sizes[0] - s.total > 0 && host(s.total, sizes[0] - s.total).Ok? {
          var chunk := host(s.total, sizes[0] - s.total).value;
          assert d[..s.total] + d[s.total..s.total + |chunk|] == d[..s.total + |chunk|];
        }
      }
      FaultyReplayPrefix(d, s', sizes[1..], host);
    }
  }

  /** As written, under the per-frame reading: once `total` bytes have been read,
      a frame no longer than `total` is skipped whole. */
  lemma FrameSkipped(s: BodyState, f: Bytes)
    requires |f| <= s.total
    ensures Accumulate(s, |f|, HonestHost(f)) == s
  {
  }

  /** As written, under the per-frame reading: a longer frame loses its first
      `total` bytes. */
  lemma FrameTruncated(s: BodyState, f: Bytes)
    requires 0 <= s.total < |f|
    ensures Accumulate(s, |f|, HonestHost(f)).body == s.body + f[s.total..]
  {
  }

  /** As written: after the frame "ab", the frame "cdefg" leaves "abefg". */
  lemma FrameLossExample()
    ensures var s := BodyState(2, 1, [0x61, 0x62]);
            Accumulate(s, 5, HonestHost([0x63, 0x64, 0x65, 0x66, 0x67])).body
              == [0x61, 0x62, 0x65, 0x66, 0x67]
  {
  }

  /** The per-frame step the callbacks' comments describe: the whole current
      frame is fetched from offset 0 and appended. */
  function AccumulateFrame(s: BodyState, bodySize: int, host: BodyHost): (r: BodyState)
    ensures bodySize <= 0 ==> r == s
    ensures bodySize > 0 ==> r.chunks == s.chunks + 1
    ensures bodySize > 0 && host(0, bodySize).Failed? ==> r.total == s.total && r.body == s.body
    ensures bodySize > 0 && host(0, bodySize).Ok? ==>
              var chunk := host(0, bodySize).value;
              r.body == s.body + chunk && r.total == s.total + |chunk|
    ensures Consistent(s) ==> Consistent(r)
  {
    if bodySize <= 0 then s
    else
      match host(0, bodySize)
      case Failed => s.(chunks := s.chunks + 1)
      case Ok(chunk) => BodyState(s.total + |chunk|, s.chunks + 1, s.body + chunk)
  }

  /** The frames one after the other. */
  function Flatten(frames: seq<Bytes>): (r: Bytes)
    decreases |frames|
  {
    if frames == [] then [] else frames[0] + Flatten(frames[1..])
  }

  /** The per-frame step over a series of frames, each announced with its own
      length and served from a buffer holding only that frame. */
  function ReplayFrames(s: BodyState, frames: seq<Bytes>): (r: BodyState)
    ensures Consistent(s) ==> Consistent(r)
    decreases |frames|
  {
    if frames == [] then s
    else ReplayFrames(AccumulateFrame(s, |frames[0]|, HonestHost(frames[0])), frames[1..])
  }

  /** With the per-frame step, no byte is lost: the buffer gains every frame,
      in order. */
  lemma {:induction false} ReplayFramesConcat(s: BodyState, frames: seq<Bytes>)
    ensures ReplayFrames(s, frames).body == s.body + Flatten(frames)
    ensures ReplayFrames(s, frames).total == s.total + |Flatten(frames)|
    decreases |frames|
  {
    if frames != [] {
      var f := frames[0];
      var s' := AccumulateFrame(s, |f|, HonestHost(f));
      assert f[0..|f|] == f;
      ReplayFramesConcat(s', frames[1..]);
      assert s.body + f + Flatten(frames[1..]) == s.body + (f + Flatten(frames[1..]));
    }
  }
}
