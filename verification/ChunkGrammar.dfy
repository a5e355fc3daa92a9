/** The chunked coding as a grammar (section 7.1 of RFC 9112), byte for byte, and that
    the decoder accepts exactly its sentences. */
module ChunkGrammar {
  import opened Basics
  import opened Search
  import opened Codecs
  import opened Chunked

  /** A chunk as it stands on the wire: its line, and its data. */
  datatype Raw = Raw(line: bytes, data: bytes)

  /** The last chunk's line, and the trailer section behind it. */
  datatype Ending = Ending(line: bytes, trailers: bytes)

  /** The line has no line end, and its size is that of the data. */
  predicate ValidRaw(codec: Codec, r: Raw) {
    Find(r.line, CRLF).None? && r.data != [] && ChunkSize(codec, r.line) == Some(|r.data|)
  }

  /** The trailers are an empty line, or some lines up to the first empty one. */
  predicate ValidEnding(codec: Codec, e: Ending) {
    Find(e.line, CRLF).None? && ChunkSize(codec, e.line) == Some(0)
    && (e.trailers == CRLF
        || (!At(e.trailers, CRLF, 0) && |e.trailers| >= 4 && Find(e.trailers, BLANK_LINE) == Some(|e.trailers| - 4)))
  }

  predicate AllValid(codec: Codec, raws: seq<Raw>) { forall i :: 0 <= i < |raws| ==> ValidRaw(codec, raws[i]) }

  function RawChunk(r: Raw): bytes { r.line + CRLF + r.data + CRLF }

  function RawBytes(raws: seq<Raw>): bytes {
    if raws == [] then [] else RawChunk(raws[0]) + RawBytes(raws[1..])
  }

  function RawData(raws: seq<Raw>): bytes {
    if raws == [] then [] else raws[0].data + RawData(raws[1..])
  }

  function EndBytes(e: Ending): bytes { e.line + CRLF + e.trailers }

  /** The first line end behind a line without one. */
  lemma LineIs(line: bytes, tail: bytes)
    requires Find(line, CRLF).None?
    ensures Find(line + CRLF + tail, CRLF) == Some(|line|) && (line + CRLF + tail)[..|line|] == line
    ensures (line + CRLF + tail)[|line| + 2..] == tail
  {
    var all := line + CRLF + tail;
    forall j | 0 <= j < |line|
      ensures !At(all, CRLF, j)
    {
      if j + 2 <= |line| {
        AtAppend(line, CRLF + tail, CRLF, j);
        assert line + (CRLF + tail) == all;
      } else {
        assert all[j..j + 2][1] == all[j + 1] == 13;
      }
    }
    assert At(all, CRLF, |line|);
    FindIs(all, CRLF, |line|);
  }

  lemma FrontIsLine(input: bytes, e: nat)
    requires Find(input, CRLF) == Some(e)
    ensures e + 2 <= |input| && Find(input[..e], CRLF).None?
    ensures input == input[..e] + CRLF + input[e + 2..]
  {
    assert input[e..e + 2] == CRLF && input[..e] + input[e..] == input;
    if Find(input[..e], CRLF).Some? {
      AtAppend(input[..e], input[e..], CRLF, Find(input[..e], CRLF).value);
    }
  }

  lemma RawStep(codec: Codec, r: Raw, tail: bytes, done: nat)
    requires ValidRaw(codec, r)
    ensures Next(codec, RawChunk(r) + tail, done)
         == if done + |r.data| > MAX_DECODED_BODY then Stuck else Data(|r.line| + 2, |r.data|)
    ensures (RawChunk(r) + tail)[|r.line| + 2..|r.line| + 2 + |r.data|] == r.data
    ensures (RawChunk(r) + tail)[|r.line| + 4 + |r.data|..] == tail
  {
    hide ChunkSize, TrailersEnd, Find;
    RawSlices(r, tail);
    LineIs(r.line, r.data + CRLF + tail);
  }

  lemma RawSlices(r: Raw, tail: bytes)
    ensures
      var all, start, n := RawChunk(r) + tail, |r.line| + 2, |r.data|;
      all == r.line + CRLF + (r.data + CRLF + tail) && |all| >= start + n + 2
      && all[start..start + n] == r.data && At(all, CRLF, start + n) && all[start + n + 2..] == tail
  {
    var all, start, n := RawChunk(r) + tail, |r.line| + 2, |r.data|;
    assert all[start + n..start + n + 2] == CRLF;
  }

  lemma EndStep(codec: Codec, e: Ending, tail: bytes, done: nat)
    requires ValidEnding(codec, e)
    ensures Next(codec, EndBytes(e) + tail, done) == Last(|EndBytes(e)|)
  {
    hide ChunkSize, Find, TrailersEnd;
    assert EndBytes(e) + tail == e.line + CRLF + (e.trailers + tail);
    LineIs(e.line, e.trailers + tail);
    TrailersStay(e, tail, codec);
  }

  lemma TrailersStay(e: Ending, tail: bytes, codec: Codec)
    requires ValidEnding(codec, e)
    ensures
      var all, start := e.line + CRLF + (e.trailers + tail), |e.line| + 2;
      TrailersEnd(all, start) == Some(start + |e.trailers|)
  {
    hide ChunkSize;
    var all, start := e.line + CRLF + (e.trailers + tail), |e.line| + 2;
    assert all[start..] == e.trailers + tail;
    if e.trailers == CRLF {
      assert all[start..start + 2] == CRLF;
    } else {
      assert e.trailers[0..2] == all[start..start + 2];
      FindStable(e.trailers, tail, BLANK_LINE);
    }
  }

  /** What the grammar gives, the decoder takes: up to the limit on the decoded body. */
  lemma {:induction false} SentenceDecodes(codec: Codec, raws: seq<Raw>, e: Ending, tail: bytes, done: nat)
    requires AllValid(codec, raws) && ValidEnding(codec, e)
    ensures Decode(codec, RawBytes(raws) + EndBytes(e) + tail, done)
         == if raws != [] && done + |RawData(raws)| > MAX_DECODED_BODY then None
            else Some(Decoded(RawData(raws), |RawBytes(raws) + EndBytes(e)|))
    decreases |raws|
  {
    hide Next, ValidRaw, ValidEnding, RawChunk, EndBytes;
    if raws == [] {
      assert RawBytes(raws) + EndBytes(e) == EndBytes(e);
      EndStep(codec, e, tail, done);
    } else {
      var r, rest := raws[0], RawBytes(raws[1..]) + EndBytes(e) + tail;
      assert RawBytes(raws) + EndBytes(e) + tail == RawChunk(r) + rest;
      RawStep(codec, r, rest, done);
      SentenceDecodes(codec, raws[1..], e, tail, done + |r.data|);
      ChunkSizes(r);
    }
  }

  lemma ChunkSizes(r: Raw)
    ensures |RawChunk(r)| == |r.line| + 4 + |r.data|
  {
  }

  /** What the decoder takes is a sentence of the grammar. */
  lemma {:induction false} DecodedIsSentence(codec: Codec, input: bytes, done: nat)
    returns (raws: seq<Raw>, e: Ending)
    requires Decode(codec, input, done).Some?
    ensures AllValid(codec, raws) && ValidEnding(codec, e)
    ensures
      var d := Decode(codec, input, done).value;
      RawBytes(raws) + EndBytes(e) == input[..d.consumed] && RawData(raws) == d.body
    decreases |input|
  {
    hide ValidRaw, ValidEnding, RawChunk, EndBytes, Next, RawBytes, RawData;
    match Next(codec, input, done)
    case Last(end) =>
      e := EndingAtFront(codec, input, done);
      raws := [];
      NothingThenEnd(e);
    case Data(start, size) =>
      var r := RawAtFront(codec, input, done);
      var cut := start + size + 2;
      var others;
      others, e := DecodedIsSentence(codec, input[cut..], done + size);
      raws := [r] + others;
      OneMoreRaw(r, others, e);
      FrontGrows(input, cut, Decode(codec, input[cut..], done + size).value.consumed);
  }

  lemma NothingThenEnd(e: Ending)
    ensures RawBytes([]) + EndBytes(e) == EndBytes(e) && RawData([]) == []
  {
  }

  lemma OneMoreRaw(r: Raw, others: seq<Raw>, e: Ending)
    ensures RawBytes([r] + others) + EndBytes(e) == RawChunk(r) + (RawBytes(others) + EndBytes(e))
    ensures RawData([r] + others) == r.data + RawData(others)
  {
    hide RawChunk, EndBytes;
    assert ([r] + others)[1..] == others;
  }

  lemma FrontGrows(input: bytes, cut: nat, n: nat)
    requires cut + n <= |input|
    ensures input[..cut] + input[cut..][..n] == input[..cut + n]
  {
  }

  lemma RawAtFront(codec: Codec, input: bytes, done: nat) returns (r: Raw)
    requires Next(codec, input, done).Data?
    ensures
      var Data(start, size) := Next(codec, input, done);
      ValidRaw(codec, r) && r.data == input[start..start + size] && RawChunk(r) == input[..start + size + 2]
  {
    hide ChunkSize, TrailersEnd;
    var Data(start, size) := Next(codec, input, done);
    var line := Find(input, CRLF).value;
    FrontIsLine(input, line);
    r := Raw(input[..line], input[start..start + size]);
    FrontIsRaw(input, line, size);
  }

  lemma FrontIsRaw(input: bytes, line: nat, size: nat)
    requires line + 2 + size + 2 <= |input| && input == input[..line] + CRLF + input[line + 2..]
    requires At(input, CRLF, line + 2 + size)
    ensures input[..line] + CRLF + input[line + 2..line + 2 + size] + CRLF == input[..line + 2 + size + 2]
  {
    var end := line + 2 + size;
    assert input[end..end + 2] == CRLF;
    assert input[..line + 2] == input[..line] + CRLF;
    assert input[..end + 2] == input[..line + 2] + input[line + 2..end] + input[end..end + 2];
  }

  lemma EndingAtFront(codec: Codec, input: bytes, done: nat) returns (e: Ending)
    requires Next(codec, input, done).Last?
    ensures ValidEnding(codec, e) && EndBytes(e) == input[..Next(codec, input, done).end]
  {
    hide ChunkSize;
    var end := Next(codec, input, done).end;
    var line := Find(input, CRLF).value;
    var start := line + 2;
    FrontIsLine(input, line);
    e := Ending(input[..line], input[start..end]);
    assert input[..end] == input[..line] + CRLF + input[start..end];
    if At(input, CRLF, start) {
      assert e.trailers == CRLF;
    } else {
      TrailersAtFront(input, start, end);
    }
  }

  lemma TrailersAtFront(input: bytes, start: nat, end: nat)
    requires start <= |input| && !At(input, CRLF, start)
    requires Find(input[start..], BLANK_LINE).Some? && end == start + Find(input[start..], BLANK_LINE).value + 4
    ensures end <= |input| && !At(input[start..end], CRLF, 0)
    ensures |input[start..end]| >= 4 && Find(input[start..end], BLANK_LINE) == Some(end - start - 4)
  {
    var rest := input[start..];
    FindInPrefix(rest, BLANK_LINE, end - start);
    assert rest[..end - start] == input[start..end];
    assert input[start..end][0..2] == input[start..start + 2];
  }

  /** Exactly: a result means a sentence at the front whose data are the body, and the other
      way round, if the body is within the limit. */
  lemma DecodesExactly(codec: Codec, input: bytes, d: Decoded)
    ensures Decode(codec, input, 0) == Some(d) <==>
      exists raws, e :: AllValid(codec, raws) && ValidEnding(codec, e)
                        && RawBytes(raws) + EndBytes(e) <= input && |RawData(raws)| <= MAX_DECODED_BODY
                        && d == Decoded(RawData(raws), |RawBytes(raws) + EndBytes(e)|)
  {
    hide Decode, ValidRaw, ValidEnding, EndBytes, RawBytes, RawData;
    if Decode(codec, input, 0) == Some(d) {
      var raws, e := DecodedIsSentence(codec, input, 0);
      var printed := RawBytes(raws) + EndBytes(e);
      assert input == printed + input[|printed|..];
      SentenceDecodes(codec, raws, e, input[|printed|..], 0);
      NothingIsNoData();
    }
    if raws, e :| AllValid(codec, raws) && ValidEnding(codec, e)
                  && RawBytes(raws) + EndBytes(e) <= input && |RawData(raws)| <= MAX_DECODED_BODY
                  && d == Decoded(RawData(raws), |RawBytes(raws) + EndBytes(e)|) {
      var printed := RawBytes(raws) + EndBytes(e);
      assert input == printed + input[|printed|..];
      SentenceDecodes(codec, raws, e, input[|printed|..], 0);
    }
  }

  lemma NothingIsNoData()
    ensures RawData([]) == []
  {
  }
}
