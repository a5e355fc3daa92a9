/** The chunked transfer coding (section 7.1 of RFC 9112), decoded byte for byte. */
module Chunked {
  import opened Basics
  import opened Search
  import opened Text
  import opened Codecs

  const CRLF: bytes := [13, 10]
  const BLANK_LINE: bytes := [13, 10, 13, 10]
  const MAX_DECODED_BODY: nat := 32 * 1024 * 1024

  datatype Decoded = Decoded(body: bytes, consumed: nat)

  /** The size at the front of a chunk line; extensions after `;` are ignored. */
  function ChunkSize(codec: Codec, line: bytes): Option<nat> {
    match codec.text(line)
    case None => None
    case Some(text) => ParseUnsigned(Trim(Before(text, ';')), 16, U64_MAX)
  }

  datatype ChunkLine = ChunkLine(size: nat, start: nat)

  /** The chunk line at the front: its size and where the chunk's data start. */
  function ReadLine(codec: Codec, input: bytes): (r: Option<ChunkLine>)
    ensures r.Some? ==> 2 <= r.value.start <= |input|
  {
    match Find(input, CRLF)
    case None => None
    case Some(e) =>
      match ChunkSize(codec, input[..e])
      case None => None
      case Some(size) => Some(ChunkLine(size, e + 2))
  }

  /** The end of the trailer section that follows the last chunk's line. */
  function TrailersEnd(input: bytes, start: nat): (r: Option<nat>)
    requires start <= |input|
    ensures r.Some? ==> start < r.value <= |input|
  {
    if At(input, CRLF, start) then Some(start + 2)
    else match Find(input[start..], BLANK_LINE)
      case None => None
      case Some(t) => Some(start + t + 4)
  }

  /** What stands at the front of the input: nothing usable yet (or ever), the
      last chunk ending at `end`, or a data chunk. */
  datatype Item = Stuck | Last(end: nat) | Data(start: nat, size: nat)

  function Next(codec: Codec, input: bytes, done: nat): (r: Item)
    ensures r.Last? ==> 0 < r.end <= |input|
    ensures r.Data? ==> 2 <= r.start && 0 < r.size && r.start + r.size + 2 <= |input|
  {
    match ReadLine(codec, input)
    case None => Stuck
    case Some(ChunkLine(size, start)) =>
      if size == 0 then
        match TrailersEnd(input, start)
        case None => Stuck
        case Some(end) => Last(end)
      else if done + size > MAX_DECODED_BODY || |input| < start + size + 2 then Stuck
      else if !At(input, CRLF, start + size) then Stuck
      else Data(start, size)
  }

  /** Decodes from the front of `input`, with `done` bytes of body already out. */
  function Decode(codec: Codec, input: bytes, done: nat): (r: Option<Decoded>)
    ensures r.Some? ==> 0 < r.value.consumed <= |input|
    decreases |input|
  {
    match Next(codec, input, done)
    case Stuck => None
    case Last(end) => Some(Decoded([], end))
    case Data(start, size) =>
      Prepend(input[start..start + size], start + size + 2,
              Decode(codec, input[start + size + 2..], done + size))
  }

  function Prepend(body: bytes, consumed: nat, r: Option<Decoded>): Option<Decoded> {
    match r
    case None => None
    case Some(d) => Some(Decoded(body + d.body, consumed + d.consumed))
  }

  lemma PrependNothing(r: Option<Decoded>)
    ensures Prepend([], 0, r) == r
  {
    if r.Some? {
      assert [] + r.value.body == r.value.body;
    }
  }

  lemma PrependPrepend(b1: bytes, n1: nat, b2: bytes, n2: nat, r: Option<Decoded>)
    ensures Prepend(b1, n1, Prepend(b2, n2, r)) == Prepend(b1 + b2, n1 + n2, r)
  {
    if r.Some? {
      assert b1 + (b2 + r.value.body) == b1 + b2 + r.value.body;
    }
  }

  /** One turn of the source's loop, reading at `cursor` in the whole input. */
  method ReadItem(codec: Codec, input: bytes, cursor: nat, done: nat) returns (item: Item)
    requires cursor <= |input|
    ensures item == Next(codec, input[cursor..], done)
  {
    ghost var tail := input[cursor..];
    var found := Find(input[cursor..], CRLF);
    if found.None? { return Stuck; }
    var lineEnd := found.value + cursor;
    assert tail[..found.value] == input[cursor..lineEnd];
    var parsed := ChunkSize(codec, input[cursor..lineEnd]);
    if parsed.None? { return Stuck; }
    var size, start := parsed.value, lineEnd + 2;
    assert ReadLine(codec, tail) == Some(ChunkLine(size, start - cursor));
    if size == 0 {
      AtDrop(input, CRLF, cursor, start - cursor);
      assert tail[start - cursor..] == input[start..];
      if At(input, CRLF, start) { return Last(start - cursor + 2); }
      var trailers := Find(input[start..], BLANK_LINE);
      return if trailers.None? then Stuck else Last(start - cursor + trailers.value + 4);
    }
    if done + size > MAX_DECODED_BODY || |input| < start + size + 2 { return Stuck; }
    AtDrop(input, CRLF, cursor, start - cursor + size);
    return if At(input, CRLF, start + size) then Data(start - cursor, size) else Stuck;
  }

  /** The decoder as the source runs it: one cursor over the whole input. */
  method DecodeChunked(codec: Codec, input: bytes) returns (r: Option<Decoded>)
    ensures r == Decode(codec, input, 0)
  {
    hide Decode, Next;
    var cursor: nat, output: bytes := 0, [];
    assert input[0..] == input;
    PrependNothing(Decode(codec, input, 0));
    while true
      invariant cursor <= |input|
      invariant Decode(codec, input, 0)
             == Prepend(output, cursor, Decode(codec, input[cursor..], |output|))
      decreases |input| - cursor
    {
      Unfold(codec, input, cursor, output);
      var item := ReadItem(codec, input, cursor, |output|);
      match item
      case Stuck => return None;
      case Last(end) => return Some(Decoded(output, cursor + end));
      case Data(start, size) =>
        output := output + input[cursor + start..cursor + start + size];
        cursor := cursor + start + size + 2;
    }
  }

  /** One turn of the loop: it either settles the result or moves the cursor
      past one data chunk. */
  lemma Unfold(codec: Codec, input: bytes, cursor: nat, output: bytes)
    requires cursor <= |input|
    ensures
      Prepend(output, cursor, Decode(codec, input[cursor..], |output|))
      == match Next(codec, input[cursor..], |output|)
         case Stuck => None
         case Last(end) => Some(Decoded(output, cursor + end))
         case Data(start, size) =>
           Prepend(output + input[cursor + start..cursor + start + size], cursor + start + size + 2,
                   Decode(codec, input[cursor + start + size + 2..], |output| + size))
  {
    hide Next;
    match Next(codec, input[cursor..], |output|)
    case Stuck =>
    case Last(end) => assert output + [] == output;
    case Data(start, size) =>
      var tail := input[cursor..];
      var front := cursor + start;
      assert tail[start..start + size] == input[front..front + size];
      assert tail[start + size + 2..] == input[front + size + 2..];
      PrependPrepend(output, cursor, input[front..front + size], start + size + 2,
                     Decode(codec, input[front + size + 2..], |output| + size));
  }

  lemma ReadLineStable(codec: Codec, input: bytes, more: bytes)
    requires ReadLine(codec, input).Some?
    ensures ReadLine(codec, input + more) == ReadLine(codec, input)
  {
    var e := Find(input, CRLF).value;
    FindStable(input, more, CRLF);
    assert (input + more)[..e] == input[..e];
  }

  lemma TrailersEndStable(input: bytes, more: bytes, start: nat)
    requires start <= |input| && TrailersEnd(input, start).Some?
    ensures TrailersEnd(input + more, start) == TrailersEnd(input, start)
  {
    assert (input + more)[start..] == input[start..] + more;
    if start + 2 <= |input| {
      AtAppend(input, more, CRLF, start);
    }
    if !At(input, CRLF, start) {
      FindStable(input[start..], more, BLANK_LINE);
    }
  }

  lemma NextStable(codec: Codec, input: bytes, more: bytes, done: nat)
    requires Next(codec, input, done) != Stuck
    ensures Next(codec, input + more, done) == Next(codec, input, done)
  {
    hide TrailersEnd, ReadLine;
    var ChunkLine(size, start) := ReadLine(codec, input).value;
    ReadLineStable(codec, input, more);
    if size == 0 {
      TrailersEndStable(input, more, start);
    } else {
      AtAppend(input, more, CRLF, start + size);
    }
  }

  /** A finished decoding is not changed by anything that follows it. */
  lemma {:induction false} DecodeStable(codec: Codec, input: bytes, more: bytes, done: nat)
    requires Decode(codec, input, done).Some?
    ensures Decode(codec, input + more, done) == Decode(codec, input, done)
    decreases |input|
  {
    hide Next;
    NextStable(codec, input, more, done);
    match Next(codec, input, done)
    case Last(end) =>
    case Data(start, size) =>
      assert (input + more)[start..start + size] == input[start..start + size];
      assert (input + more)[start + size + 2..] == input[start + size + 2..] + more;
      DecodeStable(codec, input[start + size + 2..], more, done + size);
  }

  lemma ReadLineOfPrefix(codec: Codec, input: bytes, n: nat)
    requires ReadLine(codec, input).Some? && ReadLine(codec, input).value.start <= n <= |input|
    ensures ReadLine(codec, input[..n]) == ReadLine(codec, input)
  {
    var e := Find(input, CRLF).value;
    FindInPrefix(input, CRLF, n);
    assert input[..n][..e] == input[..e];
  }

  lemma TrailersEndOfPrefix(input: bytes, n: nat, start: nat)
    requires start <= n <= |input| && TrailersEnd(input, start).Some?
    requires TrailersEnd(input, start).value <= n
    ensures TrailersEnd(input[..n], start) == TrailersEnd(input, start)
  {
    var front := input[..n];
    assert front + input[n..] == input;
    assert front[start..] == input[start..][..n - start];
    if start + 2 <= n {
      AtAppend(front, input[n..], CRLF, start);
    }
    if !At(input, CRLF, start) {
      FindInPrefix(input[start..], BLANK_LINE, n - start);
    }
  }

  lemma NextOfPrefix(codec: Codec, input: bytes, n: nat, done: nat)
    requires n <= |input|
    requires match Next(codec, input, done)
             case Stuck => false
             case Last(end) => end <= n
             case Data(start, size) => start + size + 2 <= n
    ensures Next(codec, input[..n], done) == Next(codec, input, done)
  {
    hide TrailersEnd, ReadLine;
    var front := input[..n];
    var ChunkLine(size, start) := ReadLine(codec, input).value;
    ReadLineOfPrefix(codec, input, n);
    if size == 0 {
      TrailersEndOfPrefix(input, n, start);
    } else {
      assert front + input[n..] == input;
      AtAppend(front, input[n..], CRLF, start + size);
    }
  }

  /** The decoder looks at nothing beyond what it consumes. */
  lemma {:induction false} DecodeOfPrefix(codec: Codec, input: bytes, n: nat, done: nat)
    requires Decode(codec, input, done).Some? && Decode(codec, input, done).value.consumed <= n <= |input|
    ensures Decode(codec, input[..n], done) == Decode(codec, input, done)
    decreases |input|
  {
    hide Next;
    NextOfPrefix(codec, input, n, done);
    match Next(codec, input, done)
    case Last(end) =>
    case Data(start, size) =>
      var c := start + size + 2;
      assert input[..n][start..start + size] == input[start..start + size];
      assert input[..n][c..] == input[c..][..n - c];
      DecodeOfPrefix(codec, input[c..], n - c, done + size);
  }
}
