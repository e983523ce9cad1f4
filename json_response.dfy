/** AsyncJsonResponse: a response whose body is a JSON text, handed to the
    transport in windows of the size the transport asks for. */
module JsonResponses {
  import opened Bytes
  import opened AsyncJsonConfig
  import opened ChunkPrinting

  class JsonResponse {
    /** The JSON text the application builds through getRoot(). */
    var json: seq<byte>
    var isValid: bool
    var code: int
    var contentType: string
    var contentLength: nat
    /** How much of the body the response base class has already sent. */
    var sentLength: nat

    constructor ()
      ensures json == [] && !isValid && code == 200 && contentType == JSON_MIMETYPE
      ensures contentLength == 0 && sentLength == 0
    {
      json := [];
      isValid := false;
      code := 200;
      contentType := JSON_MIMETYPE;
      contentLength := 0;
      sentLength := 0;
    }

    /** setLength(): publish the body length; the response is valid iff it has a body. */
    method SetLength() returns (n: nat)
      modifies this`contentLength, this`isValid
      ensures n == |json| && contentLength == |json|
      ensures isValid <==> |json| > 0
    {
      contentLength := |json|;
      isValid := contentLength > 0;
      n := contentLength;
    }

    /** _fillBuffer(data, len): copy the next window of the body into the caller's
        buffer of `len` bytes (`null` stands for nullptr) and return its length. */
    method FillBuffer(data: array?<byte>, len: nat) returns (n: nat)
      requires data != null ==> len <= data.Length
      modifies data
      ensures data == null || len == 0 || !isValid || sentLength >= |json| ==>
                n == 0 && (data != null ==> data[..] == old(data[..]))
      ensures data != null && len > 0 && isValid && sentLength < |json| ==>
                n == Min(len, |json| - sentLength) &&
                data[..n] == Window(json, sentLength, len) &&
                data[n..] == old(data[n..])
    {
      if data == null || len == 0 || !isValid {
        return 0;
      }
      var jsonSize := |json|;
      if sentLength >= jsonSize {
        return 0;
      }
      var dest := new ChunkPrint(data, 0, len);
      var remainingData := jsonSize - sentLength;
      var bytesToWrite := Min(len, remainingData);
      var chunk := json[sentLength..sentLength + bytesToWrite];
      var _ := dest.Write(Some(chunk));
      assert dest.Model() == Copier(0, len - bytesToWrite, chunk) by {
        assert chunk[0..][..bytesToWrite] == chunk;
      }
      n := dest.WrittenBytes();
    }
  }

  /** The pull protocol: the response base class advances `sentLength` by each
      count FillBuffer returns and asks with the same `len` every time. From
      `sentLength` on, the pulls receive the slices of the rest of the body: the
      next pull writes the first of them (the window of FillBuffer's contract),
      the pulls after it the rest, ceil((|json| - sentLength) / len) pulls in all,
      together the rest of the body. */
  lemma FillBufferWindowsCoverBody(json: seq<byte>, sentLength: nat, len: nat)
    requires len > 0 && sentLength <= |json|
    ensures sentLength < |json| ==>
              Slices(json, sentLength, len) ==
                [Window(json, sentLength, len)] +
                Slices(json, sentLength + Min(len, |json| - sentLength), len)
    ensures Flatten(Slices(json, sentLength, len)) == json[sentLength..]
    ensures |Slices(json, sentLength, len)| == CeilDiv(|json| - sentLength, len)
  {
    SlicesFlatten(json, sentLength, len);
    SlicesCount(json, sentLength, len);
  }
}
