/** ChunkPrint: a print sink that first discards a number of bytes and then
    copies at most a fixed number of bytes into a destination buffer. */
module ChunkPrinting {
  import opened Bytes

  /** The sink as a value: bytes still to skip, room left, and what was copied so far. */
  datatype Copier = Copier(offset: nat, remaining: nat, written: seq<byte>)

  /** What one write of `chunk` does to the sink; both write overloads act like this. */
  function Step(c: Copier, chunk: seq<byte>): (r: Copier)
    ensures |r.written| + r.remaining == |c.written| + c.remaining
    ensures c.written <= r.written
    ensures r.offset <= c.offset
  {
    if |chunk| == 0 then c
    else if c.offset >= |chunk| then c.(offset := c.offset - |chunk|)
    else
      var n := Min(|chunk| - c.offset, c.remaining);
      Copier(0, c.remaining - n, c.written + chunk[c.offset..][..n])
  }

  /** Writing `a` and then `b` leaves the sink exactly as writing `a + b` at once. */
  lemma StepAppend(c: Copier, a: seq<byte>, b: seq<byte>)
    ensures Step(Step(c, a), b) == Step(c, a + b)
  {
    if |a| == 0 {
      assert a + b == b;
    } else if |b| == 0 {
      assert a + b == a;
    } else if c.offset >= |a| + |b| {
    } else if c.offset >= |a| {
      assert (a + b)[c.offset..] == b[c.offset - |a|..];
    } else {
      var ab := a + b;
      var n1 := Min(|a| - c.offset, c.remaining);
      var c1 := Step(c, a);
      assert c1 == Copier(0, c.remaining - n1, c.written + a[c.offset..][..n1]);
      var n2 := Min(|b|, c1.remaining);
      assert Step(c1, b) == Copier(0, c1.remaining - n2, c1.written + b[..n2]);
      var n := Min(|ab| - c.offset, c.remaining);
      assert n == n1 + n2;
      assert ab[c.offset..][..n] == a[c.offset..][..n1] + b[..n2];
    }
  }

  /** The sink after each of `parts`, in order, was written to it. */
  function Feed(c: Copier, parts: seq<seq<byte>>): (r: Copier)
    decreases |parts|
  {
    if parts == [] then c else Feed(Step(c, parts[0]), parts[1..])
  }

  /** Any partition of a payload into successive writes gives the same sink as one write. */
  lemma {:induction false} FeedIsOneWrite(c: Copier, parts: seq<seq<byte>>)
    ensures Feed(c, parts) == Step(c, Flatten(parts))
    decreases |parts|
  {
    if parts != [] {
      FeedIsOneWrite(Step(c, parts[0]), parts[1..]);
      StepAppend(c, parts[0], Flatten(parts[1..]));
    }
  }

  /** A fresh sink that skips `skip` bytes into a destination of room `room` ends up
      holding exactly the window of the payload that starts at `skip`, however the
      payload was split into writes. */
  lemma WindowedCopy(data: seq<byte>, parts: seq<seq<byte>>, skip: nat, room: nat)
    requires Flatten(parts) == data
    ensures Feed(Copier(skip, room, []), parts).written == Window(data, Min(skip, |data|), room)
  {
    FeedIsOneWrite(Copier(skip, room, []), parts);
  }

  /** The Print sink over a caller's destination buffer. `length` is the room the
      caller granted at construction; the bytes written are destination[..position]. */
  class ChunkPrint {
    const destination: array<byte>
    ghost const length: nat
    var offset: nat
    var remaining: nat
    var position: nat

    /** Bytes are only ever written to destination[0 .. length). */
    ghost predicate Valid()
      reads this
    {
      position + remaining == length <= destination.Length
    }

    ghost function Model(): Copier
      reads this, destination
      requires Valid()
    {
      Copier(offset, remaining, destination[..position])
    }

    constructor (destination: array<byte>, offset: nat, length: nat)
      requires length <= destination.Length
      ensures Valid() && this.destination == destination && this.length == length
      ensures Model() == Copier(offset, length, [])
    {
      this.destination := destination;
      this.length := length;
      this.offset := offset;
      this.remaining := length;
      this.position := 0;
    }

    /** write(uint8_t): skip one byte, or store it if there is room. */
    method WriteByte(b: byte) returns (n: nat)
      requires Valid()
      modifies this, destination
      ensures Valid()
      ensures Model() == Step(old(Model()), [b])
      ensures destination[position..] == old(destination[..])[position..]
      ensures n == if old(offset) > 0 || old(remaining) > 0 then 1 else 0
    {
      if offset > 0 {
        offset := offset - 1;
        return 1;
      }
      if remaining == 0 {
        return 0;
      }
      destination[position] := b;
      position := position + 1;
      remaining := remaining - 1;
      return 1;
    }

    /** write(const uint8_t*, size): the caller's buffer is given by value, None
        standing for nullptr and the sequence's length for `size`. */
    method Write(buffer: Option<seq<byte>>) returns (n: nat)
      requires Valid()
      modifies this, destination
      ensures Valid()
      ensures Model() == Step(old(Model()), if buffer.Some? then buffer.value else [])
      ensures destination[position..] == old(destination[..])[position..]
      ensures n == if buffer.None? then 0
                   else if old(offset) >= |buffer.value| then |buffer.value|
                   else |buffer.value| - old(offset)
    {
      if buffer.None? || |buffer.value| == 0 {
        return 0;
      }
      var data := buffer.value;
      var size := |data|;
      if offset >= size {
        offset := offset - size;
        return size;
      }
      if offset > 0 {
        data := data[offset..];
        size := size - offset;
        offset := 0;
      }
      var copySize := Min(size, remaining);
      if copySize > 0 {
        CopyInto(destination, position, data[..copySize]);
        position := position + copySize;
        remaining := remaining - copySize;
      }
      return size;
    }

    /** getWrittenBytes(): how many bytes have landed in the destination. */
    function WrittenBytes(): (n: nat)
      reads this
      requires Valid()
      ensures n + remaining == length
    {
      position
    }

    /** getRemainingBytes(): how much room is left. */
    function RemainingBytes(): (n: nat)
      reads this
      requires Valid()
      ensures position + n == length
    {
      remaining
    }
  }
}
