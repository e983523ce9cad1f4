/** AsyncCallbackJsonWebHandler: parses the accumulated body once and hands the
    result to its consumer callback once. */
module CallbackJsonHandlers {
  import opened Bytes
  import opened AsyncJsonConfig
  import opened JsonHandlerBase

  class CallbackJsonHandler {
    /** The state inherited from AsyncJsonHandlerBase. */
    const body: BodyAccumulator
    /** Whether `_onRequest` holds a callable consumer. */
    const hasConsumer: bool
    /** Every call of the consumer so far, with the bytes that were parsed for it. */
    var deliveries: seq<Delivery>

    ghost predicate Valid()
      reads this, body
    {
      body.Valid()
    }

    constructor (uri: string, methods: MethodMask, hasConsumer: bool)
      ensures Valid() && fresh(body) && this.hasConsumer == hasConsumer && deliveries == []
      ensures body.uri == uri && body.methods == methods
      ensures body.maxContentLength == MAX_JSON_CONTENT_LENGTH
      ensures body.contentLength == 0 && body.buffer == null && !body.bufferReady
    {
      body := new BodyAccumulator(uri, methods);
      this.hasConsumer := hasConsumer;
      deliveries := [];
    }

    /** canHandle: only with a consumer, and only requests with a configured
        method, a URL at or below the URI, and the JSON content type. */
    function CanHandle(req: Request): (r: bool)
      ensures r <==> hasConsumer && (body.methods & req.httpMethod) != 0 &&
                     (|body.uri| == 0 ||
                      (body.uri <= req.url && (|req.url| == |body.uri| || req.url[|body.uri|] == '/'))) &&
                     EqualsIgnoreCase(req.contentType, JSON_MIMETYPE)
    {
      var v := body.ValidateRequest(req);
      assert v <==> (body.methods & req.httpMethod) != 0 && UriMatches(body.uri, req.url) &&
                    EqualsIgnoreCase(req.contentType, JSON_MIMETYPE);
      assert UriMatches(body.uri, req.url) <==>
               (|body.uri| == 0 ||
                (body.uri <= req.url && (|req.url| == |body.uri| || req.url[|body.uri|] == '/'))) by {
        if |body.uri| > 0 { UriMatchIsPathPrefix(body.uri, req.url); }
      }
      hasConsumer && v
    }

    /** handleRequest: the guards in their fixed order (no consumer 500, too large
        413, no ready buffer 400), then one parse of the announced `contentLength`
        bytes; the consumer is called once, and only when the parse succeeds.
        `parse` stands for the JSON parser's verdict on the bytes it is given. */
    method HandleRequest(request: RequestId, parse: seq<byte> -> bool) returns (o: Outcome)
      requires Valid()
      modifies this`deliveries, body`bufferReady
      ensures Valid()
      ensures !hasConsumer ==> o == Sent(NO_HANDLER_CONFIGURED)
      ensures hasConsumer && body.contentLength > body.maxContentLength ==> o == Sent(CONTENT_TOO_LARGE)
      ensures (hasConsumer && body.contentLength <= body.maxContentLength &&
               !(old(body.bufferReady) && body.buffer != null)) ==> o == Sent(INVALID_BODY)
      ensures o == Accepted || o == ReadsPastBuffer ==>
                hasConsumer && body.contentLength <= body.maxContentLength &&
                old(body.bufferReady) && body.buffer != null
      ensures o == ReadsPastBuffer <==>
                hasConsumer && body.contentLength <= body.maxContentLength &&
                old(body.bufferReady) && body.buffer != null && body.contentLength > body.bufferSize
      ensures (hasConsumer && body.contentLength <= body.maxContentLength && old(body.bufferReady) &&
               body.buffer != null && body.contentLength <= body.bufferSize) ==>
                o == if parse(body.buffer[..body.contentLength]) then Accepted else Sent(INVALID_BODY)
      ensures o == Accepted ==> body.contentLength <= body.bufferSize && parse(body.buffer[..body.contentLength])
      ensures deliveries == old(deliveries) +
                (if o == Accepted then [Delivery(request, body.buffer[..body.contentLength])] else [])
      ensures body.bufferReady == (old(body.bufferReady) && ((o.Sent? && o.code != INVALID_BODY) || o == ReadsPastBuffer))
    {
      if !hasConsumer {
        return Sent(NO_HANDLER_CONFIGURED);
      }
      if body.contentLength > body.maxContentLength {
        return Sent(CONTENT_TOO_LARGE);
      }
      if !body.bufferReady || body.buffer == null {
        return Sent(INVALID_BODY);
      }
      if body.contentLength > body.buffer.Length {
        // The parser would read past the allocation: undefined in C++.
        return ReadsPastBuffer;
      }
      var view := body.buffer[..body.contentLength];
      if !parse(view) {
        body.bufferReady := false;
        return Sent(INVALID_BODY);
      }
      deliveries := deliveries + [Delivery(request, view)];
      body.bufferReady := false;
      return Accepted;
    }

    /** handleRequest with the announced length also checked against the buffer:
        a body the buffer cannot hold is refused with 400 like a missing buffer, so
        the parser is never handed more bytes than were allocated. */
    method HandleRequestBounded(request: RequestId, parse: seq<byte> -> bool) returns (o: Outcome)
      requires Valid()
      modifies this`deliveries, body`bufferReady
      ensures Valid()
      ensures o != ReadsPastBuffer
      ensures !hasConsumer ==> o == Sent(NO_HANDLER_CONFIGURED)
      ensures hasConsumer && body.contentLength > body.maxContentLength ==> o == Sent(CONTENT_TOO_LARGE)
      ensures (hasConsumer && body.contentLength <= body.maxContentLength &&
               !(old(body.bufferReady) && body.buffer != null && body.contentLength <= body.bufferSize)) ==>
                o == Sent(INVALID_BODY)
      ensures (hasConsumer && body.contentLength <= body.maxContentLength && old(body.bufferReady) &&
               body.buffer != null && body.contentLength <= body.bufferSize) ==>
                o == if parse(body.buffer[..body.contentLength]) then Accepted else Sent(INVALID_BODY)
      ensures deliveries == old(deliveries) +
                (if o == Accepted then [Delivery(request, body.buffer[..body.contentLength])] else [])
      ensures body.bufferReady == (old(body.bufferReady) &&
                !(hasConsumer && body.contentLength <= body.maxContentLength &&
                  body.buffer != null && body.contentLength <= body.bufferSize))
    {
      if hasConsumer && body.contentLength <= body.maxContentLength && body.bufferReady &&
         body.buffer != null && body.contentLength > body.bufferSize {
        return Sent(INVALID_BODY);
      }
      o := HandleRequest(request, parse);
    }
  }
}
