/** AsyncJsonStreamCallback: re-emits the accumulated body to its consumer in
    CHUNK_OBJ_SIZE slices, one slice per tick of a one-shot timer. */
module JsonStreamHandlers {
  import opened Bytes
  import opened AsyncJsonConfig
  import opened JsonHandlerBase

  class JsonStreamHandler {
    /** The state inherited from AsyncJsonHandlerBase. */
    const body: BodyAccumulator
    /** Whether `_onJsonStreamRequest` holds a callable consumer. */
    const hasConsumer: bool
    /** The ESP8266 build (slice per tick) rather than the ESP32 build (all at once). */
    const sliced: bool
    /** `_currentRequest`; None is nullptr. */
    var currentRequest: Option<RequestId>
    var processIndex: nat
    /** Whether `_chunkTimer` is armed to call processNextChunk. */
    var tickPending: bool
    /** Every call of the consumer so far, with the view it was given. */
    var deliveries: seq<Delivery>

    /** What holds in every state, also inside handleRequest before its first slice. */
    ghost predicate Consistent()
      reads this, body
    {
      body.Valid() &&
      (currentRequest.None? ==> processIndex == 0 && !tickPending) &&
      (tickPending ==> sliced && currentRequest.Some?) &&
      (!sliced ==> processIndex == 0) &&
      processIndex % CHUNK_OBJ_SIZE == 0
    }

    /** Between calls: a request is in progress exactly when a tick is pending. */
    ghost predicate Valid()
      reads this, body
    {
      Consistent() && (currentRequest.Some? ==> tickPending)
    }

    /** The state cleanup() leaves. */
    ghost predicate Idle()
      reads this, body
    {
      currentRequest.None? && processIndex == 0 && !tickPending && !body.bufferReady
    }

    constructor (uri: string, methods: MethodMask, hasConsumer: bool, sliced: bool)
      ensures Valid() && fresh(body) && this.hasConsumer == hasConsumer && this.sliced == sliced
      ensures body.uri == uri && body.methods == methods
      ensures body.maxContentLength == MAX_JSON_CONTENT_LENGTH
      ensures body.contentLength == 0 && body.buffer == null && !body.bufferReady
      ensures currentRequest.None? && processIndex == 0 && !tickPending && deliveries == []
    {
      body := new BodyAccumulator(uri, methods);
      this.hasConsumer := hasConsumer;
      this.sliced := sliced;
      currentRequest := None;
      processIndex := 0;
      tickPending := false;
      deliveries := [];
    }

    /** canHandle: only with a consumer, and only requests with a configured
        method, a URL at or below the URI, and the JSON content type. */
    function CanHandle(req: Request): (r: bool)
      ensures r <==> hasConsumer && (body.methods & req.httpMethod) != 0 &&
                     (|body.uri| == 0 ||
                      (body.uri <= req.url && (|req.url| == |body.uri| || req.url[|body.uri|] == '/'))) &&
                     EqualsIgnoreCase(req.contentType, JSON_MIMETYPE)
    {
      var v := body.ValidateRequest(req);
      assert v <==> (body.methods & req.httpMethod) != 0 && UriMatches(body.uri, req.url) &&
                    EqualsIgnoreCase(req.contentType, JSON_MIMETYPE);
      assert UriMatches(body.uri, req.url) <==>
               (|body.uri| == 0 ||
                (body.uri <= req.url && (|req.url| == |body.uri| || req.url[|body.uri|] == '/'))) by {
        if |body.uri| > 0 { UriMatchIsPathPrefix(body.uri, req.url); }
      }
      hasConsumer && v
    }

    /** cleanup(): forget the request, rewind, drop readiness, detach the timer.
        The handler's destructor calls it too. A second call changes nothing. */
    method Cleanup()
      requires body.Valid()
      modifies this`currentRequest, this`processIndex, this`tickPending, body`bufferReady
      ensures Valid() && Idle()
      ensures old(Idle()) ==> unchanged(this) && unchanged(body)
    {
      currentRequest := None;
      processIndex := 0;
      body.bufferReady := false;
      tickPending := false;
    }

    /** What one processNextChunk() does when it starts with request `req` at index
        `i`; `overran` says that the slice it would read reaches past the buffer. */
    twostate predicate NextChunk(req: Option<RequestId>, i: nat, overran: bool)
      reads this, body, body.buffer
    {
      var cl := body.contentLength;
      var buf := body.buffer;
      if req.None? || buf == null || i >= cl then
        Idle() && deliveries == old(deliveries) && !overran
      else if sliced then
        var n := Min(CHUNK_OBJ_SIZE, cl - i);
        if i + n > buf.Length then
          overran && Idle() && deliveries == old(deliveries)
        else
          !overran && deliveries == old(deliveries) + [Delivery(req.value, buf[i..i + n])] &&
          if i + n < cl then
            currentRequest == req && processIndex == i + n && tickPending &&
            body.bufferReady == old(body.bufferReady)
          else Idle()
      else if cl > buf.Length then
        overran && Idle() && deliveries == old(deliveries)
      else
        !overran && deliveries == old(deliveries) + [Delivery(req.value, buf[..cl])] && Idle()
    }

    /** processNextChunk(): deliver the slice at `processIndex` and re-arm the timer
        while bytes remain (ESP8266), or deliver the whole body at once (ESP32). */
    method ProcessNextChunk() returns (overran: bool)
      requires Consistent()
      modifies this`currentRequest, this`processIndex, this`tickPending, this`deliveries, body`bufferReady
      ensures Valid()
      ensures NextChunk(old(currentRequest), old(processIndex), overran)
    {
      if currentRequest.None? || body.buffer == null || processIndex >= body.contentLength {
        Cleanup();
        return false;
      }
      if sliced {
        var chunkSize := Min(CHUNK_OBJ_SIZE, body.contentLength - processIndex);
        if processIndex + chunkSize > body.buffer.Length {
          // The slice would be read past the allocation: undefined in C++.
          Cleanup();
          return true;
        }
        var rawJson := body.buffer[processIndex..processIndex + chunkSize];
        deliveries := deliveries + [Delivery(currentRequest.value, rawJson)];
        processIndex := processIndex + chunkSize;
        if processIndex < body.contentLength {
          tickPending := true;
        } else {
          Cleanup();
        }
        return false;
      } else {
        if body.contentLength > body.buffer.Length {
          Cleanup();
          return true;
        }
        var rawJson := body.buffer[..body.contentLength];
        deliveries := deliveries + [Delivery(currentRequest.value, rawJson)];
        Cleanup();
        return false;
      }
    }

    /** The timer fires: a pending tick runs processNextChunk(); with none pending
        nothing happens. */
    method Tick() returns (overran: bool)
      requires Valid()
      modifies this`currentRequest, this`processIndex, this`tickPending, this`deliveries, body`bufferReady
      ensures Valid()
      ensures !old(tickPending) ==> !overran && unchanged(this) && unchanged(body)
      ensures old(tickPending) ==> NextChunk(old(currentRequest), old(processIndex), overran)
      ensures old(tickPending) && tickPending ==> processIndex > old(processIndex)
    {
      if !tickPending {
        return false;
      }
      tickPending := false;
      overran := ProcessNextChunk();
    }

    /** handleRequest: the guards of the one-shot handler plus an empty body (400),
        then the stream starts at index 0 with the first slice delivered at once. */
    method HandleRequest(request: RequestId) returns (o: Outcome)
      requires Valid()
      modifies this`currentRequest, this`processIndex, this`tickPending, this`deliveries, body`bufferReady
      ensures Valid()
      ensures !hasConsumer ==> o == Sent(NO_HANDLER_CONFIGURED)
      ensures hasConsumer && body.contentLength > body.maxContentLength ==> o == Sent(CONTENT_TOO_LARGE)
      ensures (hasConsumer && body.contentLength <= body.maxContentLength &&
               !(old(body.bufferReady) && body.buffer != null && body.contentLength > 0)) ==>
                o == Sent(INVALID_BODY)
      ensures (hasConsumer && body.contentLength <= body.maxContentLength && old(body.bufferReady) &&
               body.buffer != null && body.contentLength > 0) ==> !o.Sent?
      ensures o.Sent? ==> unchanged(this) && unchanged(body)
      ensures !o.Sent? ==> NextChunk(Some(request), 0, o == ReadsPastBuffer)
    {
      if !hasConsumer {
        return Sent(NO_HANDLER_CONFIGURED);
      }
      if body.contentLength > body.maxContentLength {
        return Sent(CONTENT_TOO_LARGE);
      }
      if !body.bufferReady || body.buffer == null || body.contentLength == 0 {
        return Sent(INVALID_BODY);
      }
      currentRequest := Some(request);
      processIndex := 0;
      var overran := ProcessNextChunk();
      o := if overran then ReadsPastBuffer else Accepted;
    }

    /** processNextChunk with the announced length also checked against the
        buffer: a body the buffer cannot hold ends the stream instead of being read. */
    method ProcessNextChunkBounded()
      requires Consistent()
      modifies this`currentRequest, this`processIndex, this`tickPending, this`deliveries, body`bufferReady
      ensures Valid()
      ensures body.contentLength <= body.bufferSize ==> NextChunk(old(currentRequest), old(processIndex), false)
      ensures body.contentLength > body.bufferSize ==> Idle() && deliveries == old(deliveries)
    {
      if body.contentLength > body.bufferSize {
        Cleanup();
        return;
      }
      var overran := ProcessNextChunk();
    }

    /** The timer fires on the bounded stream: a pending tick runs
        ProcessNextChunkBounded; with none pending nothing happens. */
    method TickBounded()
      requires Valid()
      modifies this`currentRequest, this`processIndex, this`tickPending, this`deliveries, body`bufferReady
      ensures Valid()
      ensures !old(tickPending) ==> unchanged(this) && unchanged(body)
      ensures old(tickPending) && body.contentLength <= body.bufferSize ==>
                NextChunk(old(currentRequest), old(processIndex), false)
      ensures old(tickPending) && body.contentLength > body.bufferSize ==> Idle() && deliveries == old(deliveries)
    {
      if !tickPending {
        return;
      }
      tickPending := false;
      ProcessNextChunkBounded();
    }

    /** handleRequest with the announced length also checked against the buffer:
        a body the buffer cannot hold is refused with 400 like a missing buffer. */
    method HandleRequestBounded(request: RequestId) returns (o: Outcome)
      requires Valid()
      modifies this`currentRequest, this`processIndex, this`tickPending, this`deliveries, body`bufferReady
      ensures Valid()
      ensures o != ReadsPastBuffer
      ensures !hasConsumer ==> o == Sent(NO_HANDLER_CONFIGURED)
      ensures hasConsumer && body.contentLength > body.maxContentLength ==> o == Sent(CONTENT_TOO_LARGE)
      ensures (hasConsumer && body.contentLength <= body.maxContentLength &&
               !(old(body.bufferReady) && body.buffer != null && 0 < body.contentLength <= body.bufferSize)) ==>
                o == Sent(INVALID_BODY)
      ensures (hasConsumer && body.contentLength <= body.maxContentLength && old(body.bufferReady) &&
               body.buffer != null && 0 < body.contentLength <= body.bufferSize) ==> o == Accepted
      ensures o.Sent? ==> unchanged(this) && unchanged(body)
      ensures o == Accepted ==> NextChunk(Some(request), 0, false)
    {
      if hasConsumer && body.contentLength <= body.maxContentLength && body.bufferReady &&
         body.buffer != null && body.contentLength > body.bufferSize {
        return Sent(INVALID_BODY);
      }
      o := HandleRequest(request);
    }
  }
}
