/** Whole request cycles driven the way the transport and the event loop drive
    the handlers: body chunks, then handleRequest, then timer ticks. */
module Scenarios {
  import opened Bytes
  import opened AsyncJsonConfig
  import opened JsonHandlerBase
  import opened CallbackJsonHandlers
  import opened JsonStreamHandlers

  /** A body sent in two consecutive chunks reaches the one-shot consumer once, as
      the concatenation of the chunks; a malformed body gets 400 and no call. */
  method OneShotTwoChunks(uri: string, methods: MethodMask, parse: seq<byte> -> bool, a: seq<byte>, b: seq<byte>)
    returns (o: Outcome, delivered: seq<Delivery>)
    requires 0 < |a| && 0 < |b| && |a| + |b| <= MAX_JSON_CONTENT_LENGTH
    ensures o == if parse(a + b) then Accepted else Sent(INVALID_BODY)
    ensures delivered == if parse(a + b) then [Delivery(1, a + b)] else []
  {
    var h := new CallbackJsonHandler(uri, methods, true);
    var total := |a| + |b|;
    h.body.HandleBody(Some(a), 0, total, true);
    ghost var afterFirst := h.body.buffer[..];
    assert afterFirst[..|a|] == a;
    h.body.HandleBody(Some(b), |a|, total, true);
    assert h.body.buffer[..] == a + b by {
      PlaceConsecutive(afterFirst, 0, a, b);
      assert Place(afterFirst, 0, a) == afterFirst;
      assert Place(afterFirst, 0, a + b) == a + b;
    }
    o := h.HandleRequest(1, parse);
    delivered := h.deliveries;
  }

  /** A body announced larger than the limit is refused with 413 before any parse. */
  method OversizeRejected(uri: string, methods: MethodMask, parse: seq<byte> -> bool,
                          chunk: seq<byte>, total: nat, allocOk: bool)
    returns (o: Outcome, delivered: seq<Delivery>)
    requires 0 < |chunk| && total > MAX_JSON_CONTENT_LENGTH
    ensures o == Sent(CONTENT_TOO_LARGE) && delivered == []
  {
    var h := new CallbackJsonHandler(uri, methods, true);
    h.body.HandleBody(Some(chunk), 0, total, allocOk);
    o := h.HandleRequest(1, parse);
    delivered := h.deliveries;
  }

  /** As written, handleBody allocates only while no buffer exists, and every
      completed request clears readiness: the second request on a handler is
      refused with 400 whatever its body, and its consumer is never called. */
  method SecondRequestRejected(uri: string, methods: MethodMask, parse: seq<byte> -> bool,
                               data: seq<byte>, allocOk: bool)
    returns (first: Outcome, second: Outcome, delivered: seq<Delivery>)
    requires 0 < |data| <= MAX_JSON_CONTENT_LENGTH
    ensures first == if !allocOk then Sent(INVALID_BODY)
                     else if parse(data) then Accepted else Sent(INVALID_BODY)
    ensures allocOk ==> second == Sent(INVALID_BODY)
    ensures allocOk ==> delivered == if parse(data) then [Delivery(1, data)] else []
  {
    var h := new CallbackJsonHandler(uri, methods, true);
    h.body.HandleBody(Some(data), 0, |data|, allocOk);
    assert allocOk ==> h.body.buffer[..] == data;
    first := h.HandleRequest(1, parse);
    h.body.HandleBody(Some(data), 0, |data|, allocOk);
    second := h.HandleRequest(2, parse);
    delivered := h.deliveries;
  }

  /** With allocation re-armed per request, the second request is served like the
      first: the same body reaches the consumer again. */
  method SecondRequestServed(uri: string, methods: MethodMask, parse: seq<byte> -> bool, data: seq<byte>)
    returns (first: Outcome, second: Outcome, delivered: seq<Delivery>)
    requires 0 < |data| <= MAX_JSON_CONTENT_LENGTH
    ensures first == second == if parse(data) then Accepted else Sent(INVALID_BODY)
    ensures delivered == if parse(data) then [Delivery(1, data), Delivery(2, data)] else []
  {
    var h := new CallbackJsonHandler(uri, methods, true);
    h.body.HandleBodyRearmed(Some(data), 0, |data|, true);
    assert h.body.buffer[..] == data;
    first := h.HandleRequest(1, parse);
    ghost var buf := h.body.buffer;
    // the allocator may refuse now: the buffer from the first request is reused
    h.body.HandleBodyRearmed(Some(data), 0, |data|, false);
    assert h.body.buffer == buf;
    assert h.body.buffer[..] == data by {
      assert Place(data, 0, data) == data;
    }
    second := h.HandleRequest(2, parse);
    delivered := h.deliveries;
  }

  /** A request whose body arrived but that was never handled leaves the buffer
      ready; a larger second body then keeps the small buffer, and handleRequest
      hands the parser more bytes than were allocated. */
  method AbandonedRequestReadsPastBuffer(uri: string, methods: MethodMask, parse: seq<byte> -> bool,
                                         small: seq<byte>, large: seq<byte>)
    returns (o: Outcome)
    requires 0 < |small| < |large| <= MAX_JSON_CONTENT_LENGTH
    ensures o == ReadsPastBuffer
  {
    var h := new CallbackJsonHandler(uri, methods, true);
    h.body.HandleBody(Some(small), 0, |small|, true);
    h.body.HandleBody(Some(large[..|small|]), 0, |large|, true);
    o := h.HandleRequest(2, parse);
  }

  /** One timer event of a stream in progress for request `r` whose body `data`
      fills the front of the buffer, with the slices `rest` still to come: the
      consumer gets the first of them, and the stream advances past it or ends. */
  method TickInStream(h: JsonStreamHandler, ghost data: seq<byte>, ghost r: RequestId, ghost rest: seq<seq<byte>>)
    returns (ghost rest': seq<seq<byte>>)
    requires h.Valid() && h.sliced && h.tickPending && h.currentRequest == Some(r)
    requires h.body.buffer != null && h.body.contentLength == |data| <= h.body.buffer.Length
    requires h.body.buffer[..|data|] == data
    requires 0 < h.processIndex < |data| && rest == Slices(data, h.processIndex, CHUNK_OBJ_SIZE)
    modifies h, h.body
    ensures h.Valid() && h.body.buffer == old(h.body.buffer) && h.body.contentLength == |data|
    ensures h.deliveries + Tagged(r, rest') == old(h.deliveries) + Tagged(r, rest)
    ensures |rest'| + 1 == |rest|
    ensures h.tickPending ==> h.currentRequest == Some(r) && 0 < h.processIndex < |data| &&
                              rest' == Slices(data, h.processIndex, CHUNK_OBJ_SIZE)
    ensures !h.tickPending ==> h.Idle() && rest' == []
  {
    ghost var i := h.processIndex;
    ghost var w := Window(data, i, CHUNK_OBJ_SIZE);
    rest' := Slices(data, i + |w|, CHUNK_OBJ_SIZE);
    assert rest == [w] + rest';
    TaggedCons(r, w, rest');
    assert i + |w| <= h.body.buffer.Length && h.body.buffer[i..i + |w|] == data[i..i + |w|] == w;
    var _ := h.Tick();
  }

  /** The event loop: fire the timer until no tick is pending. A stream in
      progress at index `i` hands its consumer the remaining slices from `i`
      on, one per tick, and leaves the handler idle. */
  method DrainTicks(h: JsonStreamHandler, ghost data: seq<byte>) returns (ticks: nat)
    requires h.Valid() && h.sliced && h.tickPending
    requires h.body.buffer != null && h.body.contentLength == |data| <= h.body.buffer.Length
    requires h.body.buffer[..|data|] == data
    requires 0 < h.processIndex < |data|
    modifies h, h.body
    ensures h.Valid() && h.Idle()
    ensures h.body.buffer == old(h.body.buffer) && h.body.contentLength == old(h.body.contentLength)
    ensures h.deliveries == old(h.deliveries) +
              Tagged(old(h.currentRequest).value, Slices(data, old(h.processIndex), CHUNK_OBJ_SIZE))
    ensures ticks == |Slices(data, old(h.processIndex), CHUNK_OBJ_SIZE)|
  {
    ghost var r := h.currentRequest.value;
    ghost var buf := h.body.buffer;
    ghost var todo := Slices(data, h.processIndex, CHUNK_OBJ_SIZE);
    ghost var goal := h.deliveries + Tagged(r, todo);
    ghost var rest := todo;
    ticks := 0;
    while h.tickPending
      invariant h.Valid() && h.sliced && h.body.buffer == buf && buf[..|data|] == data
      invariant h.body.contentLength == |data| <= buf.Length
      invariant h.tickPending ==> h.currentRequest == Some(r) && 0 < h.processIndex < |data| &&
                                  rest == Slices(data, h.processIndex, CHUNK_OBJ_SIZE)
      invariant !h.tickPending ==> h.Idle() && rest == []
      invariant h.deliveries + Tagged(r, rest) == goal
      invariant ticks + |rest| == |todo|
      decreases |rest|
    {
      rest := TickInStream(h, data, r, rest);
      ticks := ticks + 1;
    }
    assert h.deliveries + Tagged(r, rest) == h.deliveries;
  }

  /** The ESP8266 stream: after handleRequest, the event loop fires the timer until
      none is pending; the consumer gets the body's CHUNK_OBJ_SIZE slices in order,
      ceil(|data| / CHUNK_OBJ_SIZE) of them, together the whole body, one per tick
      after the first, and the handler ends idle. */
  method StreamSliced(uri: string, methods: MethodMask, data: seq<byte>)
    returns (o: Outcome, delivered: seq<Delivery>, ticks: nat)
    requires 0 < |data| <= MAX_JSON_CONTENT_LENGTH
    ensures o == Accepted
    ensures delivered == Tagged(7, Slices(data, 0, CHUNK_OBJ_SIZE))
    ensures |delivered| == CeilDiv(|data|, CHUNK_OBJ_SIZE) == ticks + 1
    ensures Flatten(Slices(data, 0, CHUNK_OBJ_SIZE)) == data
  {
    var h := new JsonStreamHandler(uri, methods, true, true);
    h.body.HandleBody(Some(data), 0, |data|, true);
    assert h.body.buffer[..] == data;
    o := h.HandleRequest(7);
    var w := Window(data, 0, CHUNK_OBJ_SIZE);
    var rest := Slices(data, |w|, CHUNK_OBJ_SIZE);
    assert Slices(data, 0, CHUNK_OBJ_SIZE) == [w] + rest;
    assert h.deliveries == [Delivery(7, w)];
    if h.tickPending {
      ticks := DrainTicks(h, data);
    } else {
      assert rest == [] && Tagged(7, rest) == [];
      ticks := 0;
    }
    assert h.deliveries == [Delivery(7, w)] + Tagged(7, rest);
    TaggedCons(7, w, rest);
    delivered := h.deliveries;
    SlicesCount(data, 0, CHUNK_OBJ_SIZE);
    SlicesFlatten(data, 0, CHUNK_OBJ_SIZE);
  }

  /** A body announced larger than the one that follows, and never handled,
      leaves a larger buffer behind; a stream over the following body still hands
      its consumer exactly that body's slices, read from the front of the buffer. */
  method StreamOverLargerBuffer(uri: string, methods: MethodMask, first: seq<byte>, data: seq<byte>)
    returns (o: Outcome, delivered: seq<Delivery>)
    requires 0 < |first| && 0 < |data| && |data| < |first| <= MAX_JSON_CONTENT_LENGTH
    ensures o == Accepted
    ensures delivered == Tagged(7, Slices(data, 0, CHUNK_OBJ_SIZE))
  {
    var h := new JsonStreamHandler(uri, methods, true, true);
    h.body.HandleBody(Some(first), 0, |first|, true);
    h.body.HandleBody(Some(data), 0, |data|, true);
    assert h.body.buffer.Length == |first| && h.body.buffer[..|data|] == data;
    o := h.HandleRequest(7);
    var w := Window(data, 0, CHUNK_OBJ_SIZE);
    var rest := Slices(data, |w|, CHUNK_OBJ_SIZE);
    assert Slices(data, 0, CHUNK_OBJ_SIZE) == [w] + rest;
    assert h.body.buffer[0..|w|] == w;
    if h.tickPending {
      var _ := DrainTicks(h, data);
    } else {
      assert rest == [] && Tagged(7, rest) == [];
    }
    TaggedCons(7, w, rest);
    delivered := h.deliveries;
  }

  /** The ESP32 stream: the consumer gets the whole body in one call, the same bytes
      the sliced build hands over in pieces. */
  method StreamAtOnce(uri: string, methods: MethodMask, data: seq<byte>)
    returns (o: Outcome, delivered: seq<Delivery>)
    requires 0 < |data| <= MAX_JSON_CONTENT_LENGTH
    ensures o == Accepted
    ensures delivered == [Delivery(7, Flatten(Slices(data, 0, CHUNK_OBJ_SIZE)))]
  {
    var h := new JsonStreamHandler(uri, methods, true, false);
    h.body.HandleBody(Some(data), 0, |data|, true);
    assert h.body.buffer[..] == data;
    o := h.HandleRequest(7);
    delivered := h.deliveries;
    SlicesFlatten(data, 0, CHUNK_OBJ_SIZE);
  }

  /** The handler is torn down (cleanup) after the first slice of a long body: a
      timer event that still arrives calls nothing, and only the first slice was
      ever delivered. */
  method StreamAbortedAfterFirstSlice(uri: string, methods: MethodMask, data: seq<byte>)
    returns (delivered: seq<Delivery>)
    requires CHUNK_OBJ_SIZE < |data| <= MAX_JSON_CONTENT_LENGTH
    ensures delivered == [Delivery(7, data[..CHUNK_OBJ_SIZE])]
  {
    var h := new JsonStreamHandler(uri, methods, true, true);
    h.body.HandleBody(Some(data), 0, |data|, true);
    assert h.body.buffer[..] == data;
    var _ := h.HandleRequest(7);
    h.Cleanup();
    var _ := h.Tick();
    delivered := h.deliveries;
  }

  /** With CHUNK_OBJ_SIZE at its default of 1024, a 2500-byte body reaches the
      stream consumer in three calls of 1024, 1024 and 452 bytes, in order, the
      last two on timer ticks. */
  method StreamOf2500Bytes(uri: string, methods: MethodMask, data: seq<byte>)
    returns (delivered: seq<Delivery>, ticks: nat)
    requires |data| == 2500
    ensures |delivered| == 3 && ticks == 2
    ensures delivered[0] == Delivery(7, data[..1024])
    ensures delivered[1] == Delivery(7, data[1024..2048])
    ensures delivered[2] == Delivery(7, data[2048..])
  {
    var o;
    o, delivered, ticks := StreamSliced(uri, methods, data);
    var s := Slices(data, 0, CHUNK_OBJ_SIZE);
    assert Slices(data, 2500, 1024) == [] && data[2048..2500] == data[2048..];
    assert Slices(data, 2048, 1024) == [data[2048..]];
    assert Slices(data, 1024, 1024) == [data[1024..2048]] + Slices(data, 2048, 1024);
    assert s == [data[0..1024]] + Slices(data, 1024, 1024);
    assert s == [data[..1024], data[1024..2048], data[2048..]];
    assert |delivered| == 3 && delivered[0] == Delivery(7, s[0]) &&
           delivered[1] == Delivery(7, s[1]) && delivered[2] == Delivery(7, s[2]);
  }

  /** The read past the buffer also reaches the stream: a never handled small
      body, shorter than one slice, then a larger one, and the first slice
      handleRequest takes already reaches beyond the allocation. */
  method AbandonedStreamReadsPastBuffer(uri: string, methods: MethodMask, small: seq<byte>, large: seq<byte>)
    returns (o: Outcome, delivered: seq<Delivery>)
    requires 0 < |small| < |large| <= MAX_JSON_CONTENT_LENGTH && |small| < CHUNK_OBJ_SIZE
    ensures o == ReadsPastBuffer && delivered == []
  {
    var h := new JsonStreamHandler(uri, methods, true, true);
    h.body.HandleBody(Some(small), 0, |small|, true);
    h.body.HandleBody(Some(large[..|small|]), 0, |large|, true);
    o := h.HandleRequest(2);
    delivered := h.deliveries;
  }

  /** A stream's buffer is also read past when another request's body arrives
      while it runs: a body of one to two slices has had its first slice
      delivered, a body announced at two slices or more then arrives, and the
      next tick would read a full slice beyond the allocation. */
  method BodyDuringStreamReadsPastBuffer(uri: string, methods: MethodMask, data: seq<byte>, c: seq<byte>, total: nat)
    returns (o: Outcome, overran: bool, delivered: seq<Delivery>)
    requires CHUNK_OBJ_SIZE < |data| < 2 * CHUNK_OBJ_SIZE <= total <= MAX_JSON_CONTENT_LENGTH && 0 < |c|
    ensures o == Accepted && overran
    ensures delivered == [Delivery(7, data[..CHUNK_OBJ_SIZE])]
  {
    var h := new JsonStreamHandler(uri, methods, true, true);
    h.body.HandleBody(Some(data), 0, |data|, true);
    assert h.body.buffer[..] == data;
    o := h.HandleRequest(7);
    h.body.HandleBody(Some(c), 0, total, true);
    overran := h.Tick();
    delivered := h.deliveries;
  }

  /** With the length checked on every tick, the stream of the same inputs ends
      after its first slice instead: only that slice is delivered, and the
      handler is left idle with no tick pending. */
  method BodyDuringStreamEndsBounded(uri: string, methods: MethodMask, data: seq<byte>, c: seq<byte>, total: nat)
    returns (o: Outcome, delivered: seq<Delivery>, pending: bool, idle: bool)
    requires CHUNK_OBJ_SIZE < |data| < 2 * CHUNK_OBJ_SIZE <= total <= MAX_JSON_CONTENT_LENGTH && 0 < |c|
    ensures o == Accepted
    ensures delivered == [Delivery(7, data[..CHUNK_OBJ_SIZE])]
    ensures !pending && idle
  {
    var h := new JsonStreamHandler(uri, methods, true, true);
    h.body.HandleBody(Some(data), 0, |data|, true);
    assert h.body.buffer[..] == data;
    o := h.HandleRequestBounded(7);
    h.body.HandleBody(Some(c), 0, total, true);
    h.TickBounded();
    delivered := h.deliveries;
    pending := h.tickPending;
    idle := h.currentRequest.None? && h.processIndex == 0 && !h.body.bufferReady;
  }

  /** With the length checked against the buffer, the same requests to the
      one-shot handler are refused with 400 and the consumer is never called. */
  method AbandonedRequestRefused(uri: string, methods: MethodMask, parse: seq<byte> -> bool,
                                 small: seq<byte>, large: seq<byte>)
    returns (o: Outcome, delivered: seq<Delivery>)
    requires 0 < |small| < |large| <= MAX_JSON_CONTENT_LENGTH
    ensures o == Sent(INVALID_BODY) && delivered == []
  {
    var h := new CallbackJsonHandler(uri, methods, true);
    h.body.HandleBody(Some(small), 0, |small|, true);
    h.body.HandleBody(Some(large[..|small|]), 0, |large|, true);
    o := h.HandleRequestBounded(2, parse);
    delivered := h.deliveries;
  }

  /** With the length checked against the buffer, the stream refuses the same
      requests with 400 and delivers nothing. */
  method AbandonedStreamRefused(uri: string, methods: MethodMask, small: seq<byte>, large: seq<byte>)
    returns (o: Outcome, delivered: seq<Delivery>)
    requires 0 < |small| < |large| <= MAX_JSON_CONTENT_LENGTH
    ensures o == Sent(INVALID_BODY) && delivered == []
  {
    var h := new JsonStreamHandler(uri, methods, true, true);
    h.body.HandleBody(Some(small), 0, |small|, true);
    h.body.HandleBody(Some(large[..|small|]), 0, |large|, true);
    o := h.HandleRequestBounded(2);
    delivered := h.deliveries;
  }
}
