/** The reader stack of an upload: a byte counter over a size limit over the client's stream. */
module Upload {
  import opened Base

  datatype ReadError = EndOfFile | BrokenStream | TooLarge

  /** How a client's stream can end by itself. */
  type StreamEnd = e: ReadError | e != TooLarge witness EndOfFile

  /**
   * The client's stream. `Read` hands out any non-empty part of what is left that fits,
   * may report the end together with the last bytes, and never returns (0, nil).
   */
  class Source {
    const data: Bytes
    const ending: StreamEnd
    var position: nat

    constructor (data: Bytes, ending: StreamEnd)
      ensures this.data == data && this.ending == ending && position == 0
    {
      this.data, this.ending, position := data, ending, 0;
    }

    method Read(buffer: array<byte>, room: int) returns (n: int, end: Option<ReadError>)
      requires position <= |data| && 0 < room <= buffer.Length
      modifies this, buffer
      ensures 0 <= n <= room && position == old(position) + n <= |data|
      ensures buffer[..] == data[old(position)..position] + old(buffer[n..])
      ensures n == 0 <==> old(position) == |data|
      ensures n == 0 ==> end.Some?
      ensures end.Some? ==> position == |data| && end.value == ending
    {
      var left := |data| - position;
      if left == 0 {
        assert buffer[..] == data[position..position] + old(buffer[0..]);
        return 0, Some(ending);
      }
      n :| 0 < n <= room && n <= left;
      ghost var before := buffer[..];
      forall k | 0 <= k < n {
        buffer[k] := data[position + k];
      }
      position := position + n;
      var together: bool := *;
      end := if n == left && together then Some(ending) else None;
      assert buffer[..] == data[position - n..position] + before[n..];
    }
  }

  class MaxBytesReader {
    const reader: Source
    const limit: int
    var remaining: int
    var checkedOverflow: bool

    constructor (reader: Source, limit: int)
      requires 0 < limit && reader.position == 0
      ensures this.reader == reader && this.limit == limit && InStep()
    {
      this.reader, this.limit := reader, limit;
      remaining, checkedOverflow := limit, false;
    }

    predicate Valid()
      reads this, reader
    {
      && 0 < limit && 0 <= remaining <= limit && reader.position <= |reader.data|
      && if checkedOverflow then remaining == 0 else reader.position == limit - remaining
    }

    /** Nothing beyond the limit has been asked for yet. */
    predicate InStep()
      reads this, reader
    {
      Valid() && !checkedOverflow
    }

    /** Below the limit a read hands on; at the limit the first probes for one byte more; later ones end. */
    method Read(buffer: array<byte>, room: int) returns (n: int, end: Option<ReadError>)
      requires Valid() && 0 < room <= buffer.Length
      modifies this, reader, buffer
      ensures Valid() && 0 <= n <= room
      ensures checkedOverflow <==> old(remaining) == 0
      ensures old(remaining) > 0 ==>
        && reader.position == old(reader.position) + n
        && buffer[..n] == reader.data[old(reader.position)..reader.position]
        && (n == 0 ==> end.Some?)
        && (end.Some? ==> reader.position == |reader.data| && end.value == reader.ending)
      ensures old(remaining) == 0 ==> n == 0 && end.Some?
      ensures old(remaining) == 0 && !old(checkedOverflow) ==>
        end.value == if |reader.data| > limit then TooLarge else reader.ending
      ensures old(checkedOverflow) ==> end.value == EndOfFile && reader.position == old(reader.position)
    {
      if remaining == 0 {
        if checkedOverflow {
          return 0, Some(EndOfFile);
        }
        checkedOverflow := true;
        var extra := new byte[1];
        n, end := reader.Read(extra, 1);
        if n > 0 {
          return 0, Some(TooLarge);
        }
        return 0, end;
      }
      var space := if room > remaining then remaining else room;
      n, end := reader.Read(buffer, space);
      remaining := remaining - n;
    }
  }

  class CountingReader {
    const reader: MaxBytesReader
    var count: int

    constructor (reader: MaxBytesReader)
      ensures this.reader == reader && count == 0
    {
      this.reader, count := reader, 0;
    }

    method Read(buffer: array<byte>, room: int) returns (n: int, end: Option<ReadError>)
      requires reader.Valid() && 0 < room <= buffer.Length
      modifies this, reader, reader.reader, buffer
      ensures count == old(count) + n
      ensures reader.Valid() && 0 <= n <= room
      ensures reader.checkedOverflow <==> old(reader.remaining) == 0
      ensures old(reader.remaining) > 0 ==>
        && reader.reader.position == old(reader.reader.position) + n
        && buffer[..n] == reader.reader.data[old(reader.reader.position)..reader.reader.position]
        && (n == 0 ==> end.Some?)
        && (end.Some? ==> reader.reader.position == |reader.reader.data| && end.value == reader.reader.ending)
      ensures old(reader.remaining) == 0 ==> n == 0 && end.Some?
      ensures old(reader.remaining) == 0 && !old(reader.checkedOverflow) ==>
        end.value == if |reader.reader.data| > reader.limit then TooLarge else reader.reader.ending
      ensures old(reader.checkedOverflow) ==> end.value == EndOfFile
    {
      n, end := reader.Read(buffer, room);
      count := count + n;
    }
  }

  /**
   * Copying through the stack, with any buffer and any chunking of the source: the whole
   * stream if it fits, else exactly the first `limit` bytes. It succeeds exactly if the stream
   * fits and ends properly; else it fails with TooLarge or the stream's own error. The
   * counter agrees with what was delivered.
   */
  method Copy(counter: CountingReader, bufferSize: int) returns (written: Bytes, failure: Option<ReadError>)
    requires bufferSize > 0
    requires counter.count == 0 && counter.reader.InStep() && counter.reader.reader.position == 0
    modifies counter, counter.reader, counter.reader.reader
    ensures
      var stream, limit := counter.reader.reader, counter.reader.limit;
      && (|stream.data| <= limit ==> written == stream.data)
      && (|stream.data| > limit ==> written == stream.data[..limit] && failure == Some(TooLarge))
      && (failure.None? <==> |stream.data| <= limit && stream.ending == EndOfFile)
      && (|stream.data| <= limit && failure.Some? ==> failure.value == stream.ending)
    ensures counter.count == |written|
  {
    var limiter := counter.reader;
    var source := limiter.reader;
    var buffer := new byte[bufferSize];
    written := [];
    while true
      invariant fresh(buffer) && buffer.Length == bufferSize
      invariant limiter.InStep() && written == source.data[..source.position]
      invariant counter.count == |written|
      invariant |source.data| <= limiter.limit || source.position < |source.data|
      decreases limiter.remaining
    {
      var n, end := counter.Read(buffer, bufferSize);
      written := written + buffer[..n];
      if end.Some? {
        failure := if end.value == EndOfFile then None else end;
        return;
      }
    }
  }
}
