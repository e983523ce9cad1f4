# AsyncJson handlers, modelled in Dafny

A model of `src/AsyncJson.h`, the JSON layer of an asynchronous embedded web
server. It has four parts:

- **ChunkPrint** is a print sink. It first discards a number of bytes (the
  offset) and then copies at most `length` bytes into a destination buffer.
- **AsyncJsonResponse** hands a finished JSON text to the transport in windows
  of the size the transport asks for. `_fillBuffer` goes through a ChunkPrint.
- **AsyncJsonHandlerBase** matches requests by method mask, URL and content
  type. It also accumulates the request body into one owned buffer. The buffer
  is allocated lazily and capped at `MAX_JSON_CONTENT_LENGTH`, and every copy
  into it is bounds-checked.
- **The two request processors** share that buffer:
  - `AsyncCallbackJsonWebHandler` parses the body once and calls its consumer
    once.
  - `AsyncJsonStreamCallback` re-emits the body in `CHUNK_OBJ_SIZE` slices,
    the first during handleRequest and the rest one per tick of a one-shot
    timer. That is the ESP8266 build. The ESP32
    build delivers everything in a single call.

Modules, one per component:

- `AsyncJsonConfig` holds the constants.
- `Bytes` holds bytes, windows, slices, and placement of chunks into a buffer
  (the memcpy).
- `ChunkPrinting` holds the sink as a value (`Copier`, `Step`) and as a class
  over an array (`ChunkPrint`).
- `JsonResponses` holds `JsonResponse`.
- `JsonHandlerBase` holds `BodyAccumulator`, the base class's state and
  operations.
- `CallbackJsonHandlers` and `JsonStreamHandlers` hold the two processors.
  Each owns a `BodyAccumulator` in place of C++ inheritance.
- `Scenarios` drives whole request cycles the way the transport and the event
  loop do.

Stand-ins for what the header gets from outside:

- The environment's choices are parameters:
  - `allocOk` is what `malloc` answers.
  - `parse` is the JSON parser's verdict on the bytes it is handed.
  - `sliced` chooses the ESP8266 or the ESP32 branch.
- The timer is a `tickPending` flag that `Tick()` consumes.
- A response the handler sends is recorded as an `Outcome`: `Sent(code)`, or
  `Accepted` when the consumer was called.
- Each consumer call is recorded as a `Delivery` of the bytes it was given.

The source itself shows that the buffer is meant to be re-armed for each
request:

- The handleBody comment at line 195 says "Allocate buffer on first call".
- The handleRequest comment at line 260 says "Reset buffer for next request".
- `allocateBuffer` has a branch that regrows a buffer that is too small
  (`_bufferSize < size`, line 169). handleBody's `!_buffer` guard at line 196
  means that branch can never run.

The code does not do this. `handleBody` allocates only while no buffer exists,
and the model follows the code. So once an earlier request got a buffer and then
cleared readiness, every later request within the limit fails with 400 at line
239 or 347; one announced above the limit still gets 413 first. A first request that got no
buffer does not count: allocation refused at line 168 (413) or malloc failed.
See Findings.

There is also a read past the buffer. After a request whose body arrived but
was never handled, the buffer stays ready. A larger second body then keeps the
small buffer, and both processors would read `_contentLength` bytes from it.
C++ leaves that undefined. The model stops there instead:

- the one-shot handler returns `ReadsPastBuffer`;
- the stream reports `overran` and cleans up.

`Scenarios.AbandonedRequestReadsPastBuffer` and
`Scenarios.AbandonedStreamReadsPastBuffer` exhibit it. The `...Bounded` members
are the corrected handlers: they also check the announced length against the
buffer (see Findings).

## Model

| member | source | states |
|---|---|---|
| `ChunkPrinting.Step` | src/AsyncJson.h:37-75 | One write, as a value: written bytes plus room left is conserved, the written bytes only grow as a prefix, and the skip offset never grows. |
| `ChunkPrinting.StepAppend` | src/AsyncJson.h:50-75 | Writing `a` and then `b` leaves the sink exactly as writing `a + b` at once, including when the skip offset ends inside `a`, inside `b` or beyond both. |
| `ChunkPrinting.FeedIsOneWrite` | src/AsyncJson.h:50-75 | Any split of a payload into successive writes leaves the same sink as one write of the whole payload. |
| `ChunkPrinting.WindowedCopy` | src/AsyncJson.h:34-75 | A fresh sink with skip `s` and room `n` ends up holding exactly the window of the payload starting at `min(s, size)` of at most `n` bytes, however the payload was split into writes. |
| `ChunkPrinting.ChunkPrint.constructor` | src/AsyncJson.h:34-35 | A new sink starts at position 0 with the given offset and all of `length` as room. |
| `ChunkPrinting.ChunkPrint.WriteByte` | src/AsyncJson.h:37-48 | Skips the byte while the offset is positive, else stores it at `position` if room remains. Returns 1 unless both offset and room are 0. Keeps `position + remaining == length`, and leaves the destination beyond `position` untouched. |
| `ChunkPrinting.ChunkPrint.Write` | src/AsyncJson.h:50-75 | A null buffer or size 0 changes nothing and returns 0. An offset at least `size` only shrinks the offset and returns `size`. Otherwise it copies `min(size - offset, remaining)` bytes of `buffer[offset..]` at `position`, zeroes the offset and returns `size - offset`. Keeps `position + remaining == length`, and writes nothing beyond `position`. |
| `ChunkPrinting.ChunkPrint.WrittenBytes` | src/AsyncJson.h:77 | The written count plus the remaining room is the length granted at construction. |
| `ChunkPrinting.ChunkPrint.RemainingBytes` | src/AsyncJson.h:78 | The remaining room plus the written count is the length granted at construction. |
| `JsonResponses.JsonResponse.constructor` | src/AsyncJson.h:87-91 | Status 200, content type `application/json`, length 0, not valid. |
| `JsonResponses.JsonResponse.SetLength` | src/AsyncJson.h:118-122 | Publishes and returns the body length. The response is valid iff the body is non-empty. |
| `JsonResponses.JsonResponse.FillBuffer` | src/AsyncJson.h:127-139 | Returns 0 and writes nothing for a null buffer, `len == 0`, an invalid response or a fully sent body. Otherwise it writes exactly `min(len, size - sentLength)` bytes, equal to the body's window at `sentLength`, to the front of `data`, leaves the rest of `data` alone, and returns that count. |
| `JsonResponses.FillBufferWindowsCoverBody` | src/AsyncJson.h:127-139 | The pull protocol from `sentLength` on, when the caller advances `sentLength` by each returned count and asks with the same `len` each time. The next pull writes the first slice of the rest of the body, which is FillBuffer's window at `sentLength`, and the later pulls write the remaining slices. That is `ceil((size - sentLength) / len)` pulls in all, whose concatenation is the rest of the body. |
| `Bytes.SlicesFlatten` | src/AsyncJson.h:285-298 | `Bytes.Slices` lists the windows a reader gets when it advances by the length of each window, as processNextChunk does. Those slices read back to back are the rest of the buffer from the start index. None is skipped or repeated. |
| `Bytes.SlicesCount` | src/AsyncJson.h:285-298 | There are `ceil((contentLength - i) / CHUNK_OBJ_SIZE)` slices from index `i`. |
| `Bytes.SlicesShape` | src/AsyncJson.h:285-287 | Every slice is non-empty and at most `CHUNK_OBJ_SIZE` long. All but the last are exactly `CHUNK_OBJ_SIZE`, so the `chunkSize > 0` test always passes. |
| `Bytes.CeilDivIsCeiling` | src/AsyncJson.h:285-294 | The slice count is the least number of `CHUNK_OBJ_SIZE` pieces that cover the body: `n <= count * size < n + size`. |
| `Bytes.Place` | src/AsyncJson.h:201-202 | After the copy, the bytes at `index .. index + len` are the chunk's and every other byte is as before. |
| `Bytes.CopyInto` | src/AsyncJson.h:202 | The memcpy on the array leaves exactly `Place` of the old contents. |
| `Bytes.PlaceDisjointCommute` | src/AsyncJson.h:200-203 | Two bounds-checked copies into non-overlapping ranges commute. |
| `Bytes.PlaceConsecutive` | src/AsyncJson.h:200-203 | Copying `x` at `at` and then `y` right behind it is copying `x + y` at `at`. |
| `Bytes.PlaceAllAt` | src/AsyncJson.h:191-204 | After a sequence of disjoint chunks is copied in, each byte is that of the chunk covering it, or the original byte if none does. |
| `Bytes.PlacementOrderIrrelevant` | src/AsyncJson.h:191-204 | Two arrival orders of the same disjoint, fitting chunks leave the same buffer. |
| `Bytes.PlaceAllConsecutive` | src/AsyncJson.h:191-204 | Body chunks that arrive back to back, each at the index where the previous ended, leave their concatenation in the buffer. |
| `JsonHandlerBase.EqualsIgnoreCase` | src/AsyncJson.h:163 | True iff both strings have the same length and agree position by position after ASCII lower-casing. |
| `JsonHandlerBase.UriMatchIsPathPrefix` | src/AsyncJson.h:162 | `UriMatches` is the URL test of line 162. A non-empty URI matches a URL iff it is a prefix of the URL ending at the URL's end or at a `/` ("/api" takes "/api" and "/api/x" but not "/apix"). |
| `JsonHandlerBase.BodyAccumulator.constructor` | src/AsyncJson.h:180-182 | Limit `MAX_JSON_CONTENT_LENGTH`, no buffer, size 0, not ready, length 0. |
| `JsonHandlerBase.BodyAccumulator.ValidateRequest` | src/AsyncJson.h:160-165 | True iff the method mask meets the request's method, the URI is empty or equal to the URL or a path prefix of it, and the content type is `application/json` ignoring case. |
| `JsonHandlerBase.BodyAccumulator.AllocateBuffer` | src/AsyncJson.h:167-177 | Succeeds iff the size is within the limit and either the current buffer is large enough or malloc succeeds. On failure nothing changes. On success the buffer is ready and at least `size` long. A large enough buffer is kept, a new one is exactly `size` long, and the size never shrinks. |
| `JsonHandlerBase.BodyAccumulator.Store` | src/AsyncJson.h:200-203 | The chunk is copied at `index` when it fits entirely. Otherwise the buffer is untouched, with no partial write. |
| `JsonHandlerBase.BodyAccumulator.HandleBody` | src/AsyncJson.h:191-204 | Always records `total`. Nothing else happens for `total == 0`, no data or an empty chunk. Allocation is attempted only when no buffer exists. An existing buffer keeps its size and readiness, and receives the bounds-checked copy. |
| `JsonHandlerBase.BodyAccumulator.HandleBodyRearmed` | src/AsyncJson.h:191-204 | The corrected handleBody: it allocates whenever the buffer is not ready, so readiness afterwards is "within the limit, and the old buffer is large enough or malloc succeeds". A ready buffer is kept, and is replaced only when it was not ready and too small. |
| `CallbackJsonHandlers.CallbackJsonHandler.constructor` | src/AsyncJson.h:216-217 | A fresh accumulator with the given URI, and nothing delivered. The source constructor takes no method mask and uses the default mask of POST, PUT and PATCH (line 180). The `methods` parameter stands for that default or for a later `setMethod`. |
| `CallbackJsonHandlers.CallbackJsonHandler.CanHandle` | src/AsyncJson.h:221-226 | True iff all of these hold: a consumer is set, the method mask meets the request's method, the URI is empty or is a prefix of the URL ending at the URL's end or at a `/`, and the content type equals `application/json` ignoring case. |
| `CallbackJsonHandlers.CallbackJsonHandler.HandleRequest` | src/AsyncJson.h:228-262 | The guards in order: no consumer gives 500, too large gives 413, no ready buffer gives 400. Then one parse of `contentLength` bytes: failure gives 400, success gives exactly one consumer call with those bytes. Both clear readiness. No failure path calls the consumer. The read-past-buffer case holds exactly when the guards pass and the body exceeds the buffer. |
| `CallbackJsonHandlers.CallbackJsonHandler.HandleRequestBounded` | src/AsyncJson.h:239-246 | Corrected handleRequest: a body longer than the buffer is refused with 400 like a missing buffer, so the result is never `ReadsPastBuffer`. Otherwise it has the same guards, the same one parse and the same single delivery. |
| `JsonStreamHandlers.JsonStreamHandler.constructor` | src/AsyncJson.h:319-321 | No current request, index 0, no tick pending, a fresh accumulator. As for the one-shot handler, `methods` stands for the default mask or a later `setMethod`. |
| `JsonStreamHandlers.JsonStreamHandler.CanHandle` | src/AsyncJson.h:329-334 | The same conditions as the one-shot canHandle: a consumer is set, the method mask meets the request's method, the URI is empty or a path prefix of the URL, and the content type is `application/json` ignoring case. |
| `JsonStreamHandlers.JsonStreamHandler.Cleanup` | src/AsyncJson.h:311-316 | Leaves no current request, index 0, not ready and no tick pending. A second call changes nothing. |
| `JsonStreamHandlers.JsonStreamHandler.ProcessNextChunk` | src/AsyncJson.h:277-309 | The step is given by the two-state predicate `NextChunk`. With no request, no buffer or the index at the end, it cleans up. In the sliced build it delivers `buffer[i .. i + min(CHUNK_OBJ_SIZE, contentLength - i))`, advances the index by that much, and re-arms the timer while bytes remain, else cleans up. In the other build it delivers `buffer[..contentLength]` once and cleans up. |
| `JsonStreamHandlers.JsonStreamHandler.Tick` | src/AsyncJson.h:295 | A pending tick runs processNextChunk, and a tick that re-arms has strictly increased the index. With none pending nothing changes. |
| `JsonStreamHandlers.JsonStreamHandler.HandleRequest` | src/AsyncJson.h:336-355 | The one-shot guards plus `contentLength == 0` gives 400, none of which changes anything. Once they pass, the stream starts at index 0 for this request and the first slice is delivered at once. |
| `JsonStreamHandlers.JsonStreamHandler.ProcessNextChunkBounded` | src/AsyncJson.h:278-289 | Corrected processNextChunk: a body longer than the buffer ends the stream in the cleaned-up state with nothing delivered. Otherwise it is processNextChunk without an overrun. |
| `JsonStreamHandlers.JsonStreamHandler.TickBounded` | src/AsyncJson.h:295 | The timer of the corrected stream: a pending tick runs ProcessNextChunkBounded, and with none pending nothing changes. |
| `JsonStreamHandlers.JsonStreamHandler.HandleRequestBounded` | src/AsyncJson.h:347-354 | Corrected handleRequest of the stream: a body longer than the buffer is refused with 400, and the result is never `ReadsPastBuffer`. A body that passes the guards is accepted and its first slice delivered without an overrun. |
| `Scenarios.OneShotTwoChunks` | src/AsyncJson.h:191-262 | A body sent in two back-to-back chunks reaches the consumer once, as their concatenation, when it parses. It gets 400 and no call otherwise. |
| `Scenarios.OversizeRejected` | src/AsyncJson.h:234-237 | A body announced above the limit gets 413 and the consumer is not called. |
| `Scenarios.SecondRequestRejected` | src/AsyncJson.h:191-262 | As written: after one completed request, an identical second request gets 400 and the consumer is not called again. |
| `Scenarios.SecondRequestServed` | src/AsyncJson.h:191-262 | With the corrected handleBody, the second request is served like the first, reusing the buffer even when malloc would fail. |
| `Scenarios.AbandonedRequestReadsPastBuffer` | src/AsyncJson.h:239-246 | A body that was never handled, followed by a larger one, makes handleRequest read past the allocation. |
| `Scenarios.AbandonedStreamReadsPastBuffer` | src/AsyncJson.h:285-289 | The same two bodies on the stream, the first shorter than one slice: the first slice handleRequest takes reaches past the allocation, and nothing is delivered. |
| `Scenarios.AbandonedRequestRefused` | src/AsyncJson.h:239-246 | With the corrected one-shot handler, those two bodies get 400 and the consumer is never called. |
| `Scenarios.AbandonedStreamRefused` | src/AsyncJson.h:347-350 | With the corrected stream, those two bodies get 400 and nothing is delivered. |
| `Scenarios.BodyDuringStreamReadsPastBuffer` | src/AsyncJson.h:285-289 | A stream of one to two slices has delivered its first slice. Then another request's body arrives, announced at two slices or more, and the next tick reads past the allocation. |
| `Scenarios.BodyDuringStreamEndsBounded` | src/AsyncJson.h:278-281 | With the corrected stream, checked on every tick, the same inputs end the stream after its first slice: only that slice is delivered, and the handler is left idle (no request, index 0, buffer not ready) with no tick pending. |
| `Scenarios.TickInStream` | src/AsyncJson.h:283-301 | One timer event of a running stream whose body fills the front of a buffer at least as long delivers the next slice, then advances or ends idle. |
| `Scenarios.DrainTicks` | src/AsyncJson.h:277-316 | For any buffer at least as long as the body, firing the timer until none is pending delivers the remaining slices in order, one per tick, and ends in the cleaned-up state. |
| `Scenarios.StreamOverLargerBuffer` | src/AsyncJson.h:277-355 | A larger buffer left behind by a never handled body still streams exactly the slices of the following, shorter body. |
| `Scenarios.StreamSliced` | src/AsyncJson.h:336-355 | The ESP8266 stream hands over the `CHUNK_OBJ_SIZE` slices of the body in order: `ceil(contentLength / CHUNK_OBJ_SIZE)` deliveries totalling the body, one at handleRequest and one per tick after it. |
| `Scenarios.StreamAtOnce` | src/AsyncJson.h:302-308 | The ESP32 stream hands the whole body over in one call, the same bytes the sliced build hands over in pieces. |
| `Scenarios.StreamAbortedAfterFirstSlice` | src/AsyncJson.h:311-325 | Tearing the handler down after the first slice cancels the rest: a late tick calls nothing. |
| `Scenarios.StreamOf2500Bytes` | src/AsyncJson.h:283-298 | With `CHUNK_OBJ_SIZE` at its default of 1024, a 2500-byte body reaches the stream consumer in three calls, in order: bytes 0-1023, 1024-2047 and 2048-2499. The last two come on timer ticks. |

## Left out

- `AsyncWebServerRequest` is represented only by an id. Its `send(...)` is the recorded `Outcome`, and `addInterestingHeader` has no effect here. The transport is not part of this model.
- The GSON parser, `gson::Entry` and `gson::string::addTextRaw` are left out. The parser's verdict is the `parse` parameter, and a consumer receives the raw bytes rather than a parsed entry or a `gson::string`.
- `Ticker` timing and `CHUNK_PROCESS_PERIOD_MS` are left out. Only "a tick is pending" is modelled, and real time and the event loop's other work are not.
- `malloc`, `free` and `MallocDeleter` are left out. Allocation success is the `allocOk` parameter, the old buffer is dropped when replaced, and a fresh buffer's contents are unspecified.
- The move constructor and move assignment of `AsyncJsonResponse`, `getRoot` and `getSize` are left out. The body the application builds is the field `json`.
- `setMethod`, `setMaxContentLength`, the `onRequest` setters, `isRequestHandlerTrivial` and the empty `handleUpload` are left out. The method mask, the limit and the presence of a consumer are therefore fixed at construction. The constructors' `methods` parameter stands for the default mask or one `setMethod` call made before any request.
- `size_t` is 32 bits on the targets, so `index + len` in handleBody (line 201) could wrap in C++. The model uses unbounded naturals, and there an oversized `index` is always refused. (`_processIndex + chunkSize` cannot wrap, because `chunkSize <= _contentLength - _processIndex`.)
- The build options `CHUNK_OBJ_SIZE`, `CHUNK_PROCESS_PERIOD_MS` and `MAX_JSON_CONTENT_LENGTH` (`#ifndef` at lines 14-24) are fixed at their defaults, 1024, 3 and 16384.
- The method mask is taken to be 32 bits wide.
- `String::equalsIgnoreCase` is modelled on character sequences with ASCII lower-casing. Embedded NUL characters are not modelled.
- `_fillBuffer`'s caller, the response base class (not part of this model), is assumed to pass a `data` buffer of at least `len` bytes. That is FillBuffer's `requires data != null ==> len <= data.Length`. ChunkPrint's one use (line 133) inherits it, so its `_destination` is taken to hold at least `length` bytes.
- The `chunkSize == 0` branch of processNextChunk is unreachable after its guard, and the model has no separate path for it (`Bytes.SlicesShape` shows every slice is non-empty).
- Reading past the allocation is undefined in C++. It is modelled as the `ReadsPastBuffer` outcome, or `overran` followed by cleanup, and not as any particular bytes.
- Only the handler's destructor cancels a running stream (`Cleanup`). Nothing cancels it when the request object goes away mid-stream, and the model has no hook for that either.
- `Bytes.PlacementOrderIrrelevant`: requires both arrival orders to be pairwise disjoint and to fit, rather than deriving the second from the first.

## Findings

| source | as written | input that shows it | evidently intended | confidence | as-written member | corrected member |
|---|---|---|---|---|---|---|
| src/AsyncJson.h:196 | `handleBody` calls `allocateBuffer` only when no buffer exists, and `handleRequest` clears `_bufferReady` after every parse (lines 250 and 261). A second request therefore never makes the buffer ready again. | Two identical valid requests on one handler: the first is delivered and the second gets 400. | Re-arm the buffer for each request: call `allocateBuffer` whenever the buffer is not ready, reusing it when large enough. | high (not executed) | `Scenarios.SecondRequestRejected` | `JsonHandlerBase.BodyAccumulator.HandleBodyRearmed` |
| src/AsyncJson.h:246 | After the 400 guard at line 239, the parser reads `_contentLength` bytes of the buffer. Nothing checks that against `_bufferSize`. A buffer left ready by a body that was never handled keeps its size when a larger body follows (line 196). | A 10-byte body that is never handled, then a 20-byte body: the parser is handed 20 bytes of a 10-byte allocation. Two interleaved requests on one handler, the smaller body arriving first, reach line 246 the same way. | Refuse a body the buffer cannot hold with 400, like a missing buffer. | medium (not executed) | `Scenarios.AbandonedRequestReadsPastBuffer` | `CallbackJsonHandlers.CallbackJsonHandler.HandleRequestBounded` |
| src/AsyncJson.h:289 | The stream slices `_buffer + _processIndex` for `chunkSize` bytes, bounded by `_contentLength` only. The same two bodies make it read past the allocation. | A 10-byte body that is never handled, then a 20-byte body on the stream handler: the first slice reads 20 bytes of a 10-byte allocation. The read can also come later: another request's 5000-byte body arrives during a 1500-byte stream at index 1024, and the next tick reads 1024 bytes from index 1024 of the 1500-byte buffer (`Scenarios.BodyDuringStreamReadsPastBuffer`). | Refuse or end a stream whose body the buffer cannot hold. | medium (not executed) | `Scenarios.AbandonedStreamReadsPastBuffer` | `JsonStreamHandlers.JsonStreamHandler.HandleRequestBounded`, `JsonStreamHandlers.JsonStreamHandler.ProcessNextChunkBounded`, `JsonStreamHandlers.JsonStreamHandler.TickBounded` |
