/** AsyncJsonHandlerBase: request matching and the one owned body buffer that
    both JSON handlers accumulate a request body into. */
module JsonHandlerBase {
  import opened Bytes
  import opened AsyncJsonConfig

  /** A set of HTTP methods as a bit mask (WebRequestMethodComposite). */
  type MethodMask = bv32

  /** Identifies a request object of the transport. */
  type RequestId = nat

  /** What the transport tells a handler about a request. */
  datatype Request = Request(id: RequestId, httpMethod: MethodMask, url: string, contentType: string)

  /** One call of a consumer callback: the request it was for and the bytes it was given. */
  datatype Delivery = Delivery(request: RequestId, view: seq<byte>)

  /** The consumer calls for request `r`, one per view, in order. */
  function Tagged(r: RequestId, views: seq<seq<byte>>): (ds: seq<Delivery>)
  {
    seq(|views|, i requires 0 <= i < |views| => Delivery(r, views[i]))
  }

  lemma TaggedCons(r: RequestId, w: seq<byte>, rest: seq<seq<byte>>)
    ensures Tagged(r, [w] + rest) == [Delivery(r, w)] + Tagged(r, rest)
  {
  }

  /** What a handler did with a request: sent a refusal with a status code, handed
      the body to its consumer, or would read past its buffer (undefined in C++). */
  datatype Outcome = Sent(code: int) | Accepted | ReadsPastBuffer

  /** tolower() of the C locale. */
  function ToLowerAscii(c: char): (l: char)
  {
    if 'A' <= c <= 'Z' then (c as int + 32) as char else c
  }

  /** String::equalsIgnoreCase: same length and equal after ASCII lower-casing. */
  function EqualsIgnoreCase(a: string, b: string): (r: bool)
    ensures r <==> |a| == |b| && forall i :: 0 <= i < |a| ==> ToLowerAscii(a[i]) == ToLowerAscii(b[i])
  {
    if |a| != |b| then false
    else if |a| == 0 then true
    else ToLowerAscii(a[0]) == ToLowerAscii(b[0]) && EqualsIgnoreCase(a[1..], b[1..])
  }

  /** The URL test of validateRequest: no configured URI, the URI itself, or a path below it. */
  predicate UriMatches(uri: string, url: string)
  {
    |uri| == 0 || url == uri || uri + "/" <= url
  }

  /** A non-empty URI matches exactly the URLs it prefixes at a path boundary:
      "/api" takes "/api" and "/api/x" but not "/apix". */
  lemma UriMatchIsPathPrefix(uri: string, url: string)
    requires |uri| > 0
    ensures UriMatches(uri, url) <==> uri <= url && (|url| == |uri| || url[|uri|] == '/')
  {
    if uri <= url && |url| > |uri| && url[|uri|] == '/' {
      assert url[..|uri| + 1] == uri + "/";
    }
    if uri + "/" <= url {
      assert url[..|uri|] == (uri + "/")[..|uri|] == uri;
    }
  }

  /** The base class's state: the owned buffer (`_buffer`, null until the first
      allocation), its size, whether it is ready, and the announced body length. */
  class BodyAccumulator {
    const uri: string
    const methods: MethodMask
    const maxContentLength: nat
    var contentLength: nat
    var buffer: array?<byte>
    var bufferSize: nat
    var bufferReady: bool

    /** `bufferSize` is the size of `buffer`, never above the configured maximum,
        and the buffer is only ready once it exists. */
    ghost predicate Valid()
      reads this
    {
      (buffer == null ==> bufferSize == 0 && !bufferReady) &&
      (buffer != null ==> buffer.Length == bufferSize) &&
      bufferSize <= maxContentLength
    }

    constructor (uri: string, methods: MethodMask)
      ensures Valid() && this.uri == uri && this.methods == methods
      ensures maxContentLength == MAX_JSON_CONTENT_LENGTH
      ensures contentLength == 0 && buffer == null && bufferSize == 0 && !bufferReady
    {
      this.uri := uri;
      this.methods := methods;
      maxContentLength := MAX_JSON_CONTENT_LENGTH;
      contentLength := 0;
      buffer := null;
      bufferSize := 0;
      bufferReady := false;
    }

    /** validateRequest: a configured method, a matching URL and the JSON content type. */
    function ValidateRequest(req: Request): (ok: bool)
      ensures ok <==> (methods & req.httpMethod) != 0 && UriMatches(uri, req.url) &&
                      |req.contentType| == |JSON_MIMETYPE| &&
                      forall i :: 0 <= i < |JSON_MIMETYPE| ==>
                        ToLowerAscii(req.contentType[i]) == JSON_MIMETYPE[i]
    {
      assert forall i :: 0 <= i < |JSON_MIMETYPE| ==> ToLowerAscii(JSON_MIMETYPE[i]) == JSON_MIMETYPE[i];
      if (methods & req.httpMethod) == 0 then false
      else if |uri| > 0 && uri != req.url && !(uri + "/" <= req.url) then false
      else if !EqualsIgnoreCase(req.contentType, JSON_MIMETYPE) then false
      else true
    }

    /** allocateBuffer(size): make sure a ready buffer of at least `size` bytes
        exists. `allocOk` is what malloc would answer; it is consulted only when a
        new buffer is needed. */
    method AllocateBuffer(size: nat, allocOk: bool) returns (ok: bool)
      requires Valid()
      modifies this`buffer, this`bufferSize, this`bufferReady
      ensures Valid()
      ensures ok <==> size <= maxContentLength && ((old(buffer) != null && old(bufferSize) >= size) || allocOk)
      ensures !ok ==> buffer == old(buffer) && bufferSize == old(bufferSize) && bufferReady == old(bufferReady)
      ensures ok ==> bufferReady && size <= bufferSize && old(bufferSize) <= bufferSize
      ensures ok && old(buffer) != null && old(bufferSize) >= size ==> buffer == old(buffer)
      ensures ok && !(old(buffer) != null && old(bufferSize) >= size) ==> fresh(buffer) && bufferSize == size
    {
      if size > maxContentLength {
        return false;
      }
      if buffer == null || bufferSize < size {
        if !allocOk {
          return false;
        }
        buffer := new byte[size];
        bufferSize := size;
      }
      bufferReady := true;
      return true;
    }

    /** The bounds-checked memcpy of handleBody: store `data` at `index` only if
        all of it fits, otherwise leave the buffer untouched. */
    method Store(data: seq<byte>, index: nat)
      requires Valid() && buffer != null
      modifies buffer
      ensures buffer[..] == if index + |data| <= bufferSize then Place(old(buffer[..]), index, data)
                            else old(buffer[..])
    {
      if index + |data| <= bufferSize {
        CopyInto(buffer, index, data);
      }
    }

    /** handleBody(data, len, index, total), as written: the announced total is
        always recorded; a buffer is allocated only when none exists yet. */
    method HandleBody(data: Option<seq<byte>>, index: nat, total: nat, allocOk: bool)
      requires Valid()
      modifies this`contentLength, this`buffer, this`bufferSize, this`bufferReady, buffer
      ensures Valid() && contentLength == total
      ensures total == 0 || data.None? || |data.value| == 0 || old(buffer) != null ==>
                buffer == old(buffer) && bufferSize == old(bufferSize) && bufferReady == old(bufferReady)
      ensures total == 0 || data.None? || |data.value| == 0 ==>
                old(buffer) != null ==> buffer[..] == old(buffer[..])
      ensures total > 0 && data.Some? && |data.value| > 0 && old(buffer) != null ==>
                buffer[..] == if index + |data.value| <= bufferSize then Place(old(buffer[..]), index, data.value)
                              else old(buffer[..])
      ensures total > 0 && data.Some? && |data.value| > 0 && old(buffer) == null ==>
                if total <= maxContentLength && allocOk then
                  fresh(buffer) && bufferSize == total && bufferReady &&
                  (index + |data.value| <= total ==> buffer[index..index + |data.value|] == data.value)
                else buffer == null && bufferSize == 0 && !bufferReady
    {
      contentLength := total;
      if total == 0 || data.None? || |data.value| == 0 {
        return;
      }
      if buffer == null {
        var ok := AllocateBuffer(total, allocOk);
        if !ok {
          return;
        }
      }
      Store(data.value, index);
    }

    /** handleBody with the allocation re-armed for every request: allocateBuffer
        runs whenever the buffer is not ready, so a buffer left from an earlier
        request is re-marked ready (and grown when too small). */
    method HandleBodyRearmed(data: Option<seq<byte>>, index: nat, total: nat, allocOk: bool)
      requires Valid()
      modifies this`contentLength, this`buffer, this`bufferSize, this`bufferReady, buffer
      ensures Valid() && contentLength == total
      ensures total == 0 || data.None? || |data.value| == 0 ==>
                buffer == old(buffer) && bufferSize == old(bufferSize) && bufferReady == old(bufferReady) &&
                (old(buffer) != null ==> buffer[..] == old(buffer[..]))
      ensures total > 0 && data.Some? && |data.value| > 0 && !old(bufferReady) ==>
                bufferReady == (total <= maxContentLength && (old(bufferSize) >= total || allocOk))
      ensures total > 0 && data.Some? && |data.value| > 0 && !old(bufferReady) && bufferReady ==>
                total <= bufferSize
      ensures total > 0 && data.Some? && |data.value| > 0 && buffer == old(buffer) && buffer != null ==>
                bufferSize == old(bufferSize) &&
                buffer[..] == if bufferReady && index + |data.value| <= bufferSize
                              then Place(old(buffer[..]), index, data.value)
                              else old(buffer[..])
      ensures total > 0 && data.Some? && |data.value| > 0 && buffer != old(buffer) ==>
                fresh(buffer) && bufferSize == total && bufferReady &&
                (index + |data.value| <= total ==> buffer[index..index + |data.value|] == data.value)
      ensures old(bufferReady) ==> bufferReady && buffer == old(buffer)
      ensures buffer != old(buffer) ==> !old(bufferReady) && (old(buffer) == null || old(bufferSize) < total)
    {
      contentLength := total;
      if total == 0 || data.None? || |data.value| == 0 {
        return;
      }
      if !bufferReady {
        var ok := AllocateBuffer(total, allocOk);
        if !ok {
          return;
        }
      }
      Store(data.value, index);
    }
  }
}
