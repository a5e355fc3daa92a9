/** What is printed is what is read back, however the bytes are cut. */
module RoundTrip {
  import opened Basics
  import opened Search
  import opened Text
  import opened Codecs
  import opened Chunked
  import opened Framing
  import opened Segmentation
  import opened Printing

  // ----- header blocks -----

  predicate AreLines(lines: seq<string>) {
    lines != [] && forall l :: l in lines ==> IsLine(l) && l != []
  }

  lemma {:induction false} JoinStart(lines: seq<string>)
    requires AreLines(lines)
    ensures lines[0] != [] && Join(lines) != [] && Join(lines)[0] == lines[0][0] != '\r'
  {
    assert lines[0] in lines;
  }

  /** Between two lines there is never an empty one. */
  lemma {:induction false} JoinHasNoBlank(lines: seq<string>, i: nat)
    requires AreLines(lines) && i < |Join(lines)| && Join(lines)[i] == '\r'
    ensures i + 2 < |Join(lines)| && Join(lines)[i + 2] != '\r'
  {
    assert lines[0] in lines;
    if |lines| > 1 {
      var first, others := lines[0], lines[1..];
      assert AreLines(others);
      assert Join(lines) == first + "\r\n" + Join(others);
      JoinStart(others);
      if i >= |first| + 2 {
        JoinHasNoBlank(others, i - |first| - 2);
      }
    }
  }

  /** The blank line after joined lines is the first one there is. */
  lemma FindAfterLines(lines: seq<string>, tail: bytes)
    requires AreLines(lines) && IsAsciiText(Join(lines))
    ensures Find(ToBytes(Join(lines)) + BLANK_LINE + tail, BLANK_LINE) == Some(|Join(lines)|)
  {
    var text := Join(lines);
    var all := ToBytes(text) + BLANK_LINE + tail;
    forall j | 0 <= j < |text|
      ensures !At(all, BLANK_LINE, j)
    {
      if At(all, BLANK_LINE, j) {
        var window := all[j..j + 4];
        assert window[0] == 13 && window[2] == 13;
        assert all[j] == 13 && text[j] == '\r';
        JoinHasNoBlank(lines, j);
      }
    }
    assert At(all, BLANK_LINE, |text|);
    FindIs(all, BLANK_LINE, |text|);
  }

  lemma FindLineEnd(line: string, others: string)
    requires IsLine(line)
    ensures Find(line + "\r\n" + others, "\r\n") == Some(|line|)
  {
    var all := line + "\r\n" + others;
    forall j | 0 <= j < |line|
      ensures !At(all, "\r\n", j)
    {
      assert all[j] == line[j] != '\r';
    }
    assert At(all, "\r\n", |line|);
    FindIs(all, "\r\n", |line|);
  }

  lemma NoLineEnd(line: string)
    requires IsLine(line)
    ensures Find(line, "\r\n").None?
  {
    FindNothing(line, "\r\n");
  }

  lemma {:induction false} SplitJoined(lines: seq<string>)
    requires AreLines(lines)
    ensures Split(Join(lines), "\r\n") == lines
  {
    var first, others := lines[0], lines[1..];
    assert first in lines;
    if |lines| == 1 {
      NoLineEnd(first);
    } else {
      assert AreLines(others);
      FindLineEnd(first, Join(others));
      var text := first + "\r\n" + Join(others);
      assert text[..|first|] == first && text[|first| + 2..] == Join(others);
      SplitJoined(others);
    }
  }

  lemma {:induction false} TrimStartBlank(blanks: string, s: string)
    requires IsBlank(blanks)
    ensures TrimStart(blanks + s) == TrimStart(s)
  {
    if blanks == [] {
      assert blanks + s == s;
    } else {
      assert (blanks + s)[1..] == blanks[1..] + s;
      TrimStartBlank(blanks[1..], s);
    }
  }

  lemma {:induction false} TrimEndBlank(s: string, blanks: string)
    requires IsBlank(blanks)
    ensures TrimEnd(s + blanks) == TrimEnd(s)
    decreases |blanks|
  {
    if blanks == [] {
      assert s + blanks == s;
    } else {
      var n := |blanks| - 1;
      assert (s + blanks)[..|s| + n] == s + blanks[..n];
      TrimEndBlank(s, blanks[..n]);
    }
  }

  lemma {:induction false} TrimStartLength(s: string)
    ensures |TrimStart(s)| <= |s|
  {
    if s != [] { TrimStartLength(s[1..]); }
  }

  lemma {:induction false} TrimEndLength(s: string)
    ensures |TrimEnd(s)| <= |s|
  {
    if s != [] { TrimEndLength(s[..|s| - 1]); }
  }

  lemma TrimmedStart(s: string)
    requires IsTrimmed(s) && s != ""
    ensures !IsWhitespace(s[0]) && TrimEnd(s) == s
  {
    TrimEndLength(TrimStart(s));
    if IsWhitespace(s[0]) { TrimStartLength(s[1..]); }
  }

  /** Blanks around a value are not part of it. */
  lemma TrimAround(before: string, value: string, after: string)
    requires IsBlank(before) && IsBlank(after) && IsTrimmed(value)
    ensures Trim(before + value + after) == value
  {
    hide IsBlank, IsWhitespace;
    assert before + value + after == before + (value + after);
    TrimStartBlank(before, value + after);
    if value == "" {
      assert value + after == after + "" && after == after + "";
      TrimStartBlank(after, "");
    } else {
      TrimmedStart(value);
      assert (value + after)[0] == value[0];
      TrimEndBlank(value, after);
    }
  }

  lemma AddPrintedField(headers: map<string, string>, f: Field)
    requires ValidField(f)
    ensures AddHeader(headers, FieldLine(f)) == headers[Lower(f.name) := f.value]
  {
    hide Trim, IsBlank;
    var line, e := FieldLine(f), |f.name|;
    forall j | 0 <= j < e
      ensures !At(line, ":", j)
    {
      assert !At(f.name, ":", j);
      assert line[j..j + 1] == f.name[j..j + 1];
    }
    assert At(line, ":", e);
    FindIs(line, ":", e);
    assert line[..e] == f.name && line[e + 1..] == f.before + f.value + f.after;
    TrimAround(f.before, f.value, f.after);
  }

  lemma {:induction false} HeaderMapOfFields(fields: seq<Field>)
    requires forall f :: f in fields ==> ValidField(f)
    ensures HeaderMap(FieldLines(fields)) == FieldMap(fields)
  {
    if fields != [] {
      var n := |fields| - 1;
      assert FieldLines(fields)[..n] == FieldLines(fields[..n]);
      HeaderMapOfFields(fields[..n]);
      AddPrintedField(FieldMap(fields[..n]), fields[n]);
    }
  }

  lemma DigitsAreTrimmed(n: nat, radix: Radix)
    ensures IsTrimmed(Digits(n, radix))
  {
    var s := Digits(n, radix);
    assert !IsWhitespace(s[0]) && !IsWhitespace(s[|s| - 1]);
  }

  lemma FramingTexts()
    ensures IsLine("Content-Length") && IsTrimmed("Content-Length") && Find("Content-Length", ":").None?
    ensures IsLine("Transfer-Encoding") && IsTrimmed("Transfer-Encoding") && Find("Transfer-Encoding", ":").None?
    ensures IsLine("chunked") && IsTrimmed("chunked") && IsBlank(" ") && IsBlank("")
  {
    hide IsLine, IsTrimmed, Find;
    PlainText("Content-Length");
    PlainText("Transfer-Encoding");
    PlainText("chunked");
  }

  predicate IsPlain(s: string) {
    s != "" && forall c :: c in s ==> 'a' <= c <= 'z' || 'A' <= c <= 'Z' || c == '-'
  }

  lemma PlainText(s: string)
    requires IsPlain(s)
    ensures IsLine(s) && IsTrimmed(s) && Find(s, ":").None?
  {
    forall i | 0 <= i < |s|
      ensures s[i] as int < 128 && s[i] != '\r' && s[i] != '\n' && !IsWhitespace(s[i])
    {
      assert s[i] in s;
    }
    FindNothing(s, ":");
  }

  lemma FramingFieldIsValid(p: Payload)
    ensures ValidField(FramingField(p))
  {
    hide IsLine, IsTrimmed, IsBlank, Find, Digits;
    FramingTexts();
    if p.Sized? {
      DigitsAreLine(|p.data|, 10);
      DigitsAreTrimmed(|p.data|, 10);
    }
  }

  /** The usual field behind any others announces the body. */
  lemma UsualFraming(fields: seq<Field>, p: Payload)
    requires ValidPayload(p) && (p.Sized? ==> NoneOf(fields, "transfer-encoding"))
    ensures Announces(fields + [FramingField(p)], p) && ValidField(FramingField(p))
  {
    hide Digits, ParseUnsigned, Contains, Lower;
    FramingFieldIsValid(p);
    LowerContentLength();
    LowerTransferEncoding();
    var all, n := fields + [FramingField(p)], |fields|;
    assert all[n] == FramingField(p);
    match p
    case Sized(data) =>
      ParsePrinted(|data|, 10, U64_MAX);
      assert LastOf(all, n, "content-length");
      assert all[n] in all && !NoneOf(all, "content-length");
      assert "content-length" != "transfer-encoding" by { assert |"content-length"| != |"transfer-encoding"|; }
    case Chunks(_, _, _) =>
      assert LastOf(all, n, "transfer-encoding");
  }

  lemma HeadOfPrinted(w: Wire)
    requires Printable(w)
    ensures HeadOf(HeadText(w)) == FrameOf(w).head
  {
    hide Announces, ValidField;
    HeadLinesAreLines(w);
    SplitJoined(HeadLines(w));
    assert HeadLines(w)[1..] == FieldLines(w.fields);
    HeaderMapOfFields(w.fields);
  }

  // ----- chunked bodies -----

  lemma SizeText(c: Chunk)
    requires ValidChunk(c)
    ensures IsLine(SizeLine(c)) && Before(SizeLine(c), ';') == c.size
  {
    hide ParseUnsigned, Trim;
    LinesConcat(c.size, c.extension);
    var text := SizeLine(c);
    if c.extension == [] {
      assert text == c.size;
      FindNothing(text, ";");
    } else {
      forall j | 0 <= j < |c.size|
        ensures !At(text, ";", j)
      {
        assert text[j] == c.size[j] != ';';
      }
      assert At(text, ";", |c.size|);
      FindIs(text, ";", |c.size|);
      assert text[..|c.size|] == c.size;
    }
  }

  /** Sizes as they are usually printed. */
  lemma PlainSize(size: nat)
    requires size <= U64_MAX
    ensures ValidSize(Digits(size, 16), size)
  {
    hide ParseUnsigned, Trim;
    DigitsAreLine(size, 16);
    DigitsAreTrimmed(size, 16);
    ParsePrinted(size, 16, U64_MAX);
  }

  lemma SizeOfLine(codec: Codec, c: Chunk)
    requires AsciiLaw(codec) && ValidChunk(c) && IsLine(SizeLine(c))
    ensures ChunkSize(codec, ToBytes(SizeLine(c))) == Some(|c.data|)
  {
    hide ParseUnsigned, Trim, Before, SizeLine, AsciiLaw, IsLine;
    SizeText(c);
    assert IsAsciiText(SizeLine(c)) by { LineIsAscii(SizeLine(c)); }
    DecodeAscii(codec, SizeLine(c));
  }

  lemma LineIsAscii(s: string)
    requires IsLine(s)
    ensures IsAsciiText(s) && 13 !in ToBytes(s)
  {
  }

  lemma FindAfterLine(line: bytes, tail: bytes)
    requires 13 !in line
    ensures Find(line + CRLF + tail, CRLF) == Some(|line|) && (line + CRLF + tail)[..|line|] == line
  {
    var all := line + CRLF + tail;
    forall j | 0 <= j < |line|
      ensures !At(all, CRLF, j)
    {
      assert all[j] == line[j] && line[j] in line;
      NotAt(all, CRLF, j);
    }
    assert At(all, CRLF, |line|);
    FindIs(all, CRLF, |line|);
  }

  lemma ReadPrintedLine(codec: Codec, c: Chunk, tail: bytes)
    requires AsciiLaw(codec) && ValidChunk(c) && IsLine(SizeLine(c))
    ensures
      var line := ToBytes(SizeLine(c));
      ReadLine(codec, line + CRLF + tail) == Some(ChunkLine(|c.data|, |line| + 2))
  {
    hide ChunkSize, ValidChunk, SizeLine, AsciiLaw, Find, ToBytes;
    LineIsAscii(SizeLine(c));
    SizeOfLine(codec, c);
    FindAfterLine(ToBytes(SizeLine(c)), tail);
  }

  lemma NextOfChunk(codec: Codec, c: Chunk, tail: bytes, done: nat)
    requires AsciiLaw(codec) && c.data != [] && ValidChunk(c) && IsLine(SizeLine(c))
    requires done + |c.data| <= MAX_DECODED_BODY
    ensures
      var start := |SizeLine(c)| + 2;
      Next(codec, PrintChunk(c) + tail, done) == Data(start, |c.data|)
      && (PrintChunk(c) + tail)[start..start + |c.data|] == c.data
      && (PrintChunk(c) + tail)[start + |c.data| + 2..] == tail
  {
    hide ValidChunk, ReadLine, SizeLine;
    var size := |c.data|;
    var line := ToBytes(SizeLine(c));
    var start := |line| + 2;
    var all := PrintChunk(c) + tail;
    assert all == line + CRLF + (c.data + CRLF + tail);
    ReadPrintedLine(codec, c, c.data + CRLF + tail);
    assert all[start + size..start + size + 2] == CRLF;
  }

  lemma NextOfLast(codec: Codec, last: Chunk, trailers: seq<string>, tail: bytes, done: nat)
    requires AsciiLaw(codec) && ValidChunk(last) && last.data == []
    requires forall t :: t in trailers ==> t != [] && IsLine(t)
    ensures Next(codec, PrintLast(last, trailers) + tail, done) == Last(|PrintLast(last, trailers)|)
  {
    hide ReadLine, ValidChunk, SizeLine, PrintTrailers, TrailersEnd;
    SizeText(last);
    var line, section := ToBytes(SizeLine(last)), PrintTrailers(trailers);
    Behind(line, section, tail);
    ReadPrintedLine(codec, last, section + tail);
    TrailersFound(line, trailers, tail);
  }

  lemma Behind(line: bytes, section: bytes, tail: bytes)
    ensures line + CRLF + section + tail == line + CRLF + (section + tail)
    ensures (line + CRLF + (section + tail))[|line| + 2..] == section + tail
  {
  }

  lemma TrailersFound(line: bytes, trailers: seq<string>, tail: bytes)
    requires forall t :: t in trailers ==> t != [] && IsLine(t)
    ensures
      var section := PrintTrailers(trailers);
      TrailersEnd(line + CRLF + (section + tail), |line| + 2) == Some(|line| + 2 + |section|)
  {
    hide IsLine;
    var section, start := PrintTrailers(trailers), |line| + 2;
    var all := line + CRLF + (section + tail);
    Behind(line, section, tail);
    if trailers == [] {
      assert all[start..start + 2] == CRLF;
    } else {
      assert AreLines(trailers);
      AreAscii(trailers);
      JoinAscii(trailers);
      JoinStart(trailers);
      FindAfterLines(trailers, tail);
      assert all[start] == section[0] == ToBytes(Join(trailers))[0];
      assert all[start] == Join(trailers)[0] as int != 13;
      NotAt(all, CRLF, start);
    }
  }

  lemma AreAscii(lines: seq<string>)
    requires forall l :: l in lines ==> IsLine(l)
    ensures forall l :: l in lines ==> IsAsciiText(l)
  {
  }

  lemma DecodeOneChunk(codec: Codec, c: Chunk, tail: bytes, done: nat)
    requires AsciiLaw(codec) && c.data != [] && ValidChunk(c) && done + |c.data| <= MAX_DECODED_BODY
    ensures Decode(codec, PrintChunk(c) + tail, done)
         == Prepend(c.data, |PrintChunk(c)|, Decode(codec, tail, done + |c.data|))
  {
    hide Next, ValidChunk, PrintChunk, Prepend;
    SizeText(c);
    NextOfChunk(codec, c, tail, done);
    ChunkLength(c);
  }

  /** Decoding what was printed, whatever follows it, gives back the chunks'
      data and consumes exactly the printed bytes. */
  lemma {:induction false} DecodePrinted(codec: Codec, chunks: seq<Chunk>, last: Chunk,
                                         trailers: seq<string>, tail: bytes, done: nat)
    requires AsciiLaw(codec) && ValidPayload(Chunks(chunks, last, trailers))
    requires done + |ChunkData(chunks)| <= MAX_DECODED_BODY
    ensures
      var printed := PrintChunks(chunks) + PrintLast(last, trailers);
      Decode(codec, printed + tail, done) == Some(Decoded(ChunkData(chunks), |printed|))
    decreases |chunks|
  {
    hide Next, ValidChunk, PrintLast, PrintChunk;
    var end := PrintLast(last, trailers);
    if chunks == [] {
      assert PrintChunks(chunks) + end == end;
      NextOfLast(codec, last, trailers, tail, done);
    } else {
      var c, others := chunks[0], chunks[1..];
      assert c in chunks;
      var rest := PrintChunks(others) + end + tail;
      Nest(PrintChunk(c), PrintChunks(others), end, tail);
      hide Decode;
      DecodeOneChunk(codec, c, rest, done);
      DecodePrinted(codec, others, last, trailers, tail, done + |c.data|);
    }
  }

  lemma Nest(a: bytes, b: bytes, c: bytes, d: bytes)
    ensures a + b + c + d == a + (b + c + d) && |a + b + c| == |a| + |b + c|
  {
  }

  lemma ChunkLength(c: Chunk)
    requires ValidChunk(c)
    ensures IsAsciiText(SizeLine(c)) && |PrintChunk(c)| == |SizeLine(c)| + |c.data| + 4
  {
    SizeText(c);
  }

  /** No strict prefix of a printed chunked body decodes. */
  lemma DecodeOfStrictPrefix(codec: Codec, chunks: seq<Chunk>, last: Chunk,
                             trailers: seq<string>, n: nat)
    requires AsciiLaw(codec) && ValidPayload(Chunks(chunks, last, trailers))
    requires |ChunkData(chunks)| <= MAX_DECODED_BODY
    requires n < |PrintChunks(chunks) + PrintLast(last, trailers)|
    ensures Decode(codec, (PrintChunks(chunks) + PrintLast(last, trailers))[..n], 0) == None
  {
    hide Decode;
    var printed := PrintChunks(chunks) + PrintLast(last, trailers);
    assert printed[..n] + printed[n..] == printed && printed + [] == printed;
    DecodePrinted(codec, chunks, last, trailers, [], 0);
    if Decode(codec, printed[..n], 0).Some? {
      DecodeStable(codec, printed[..n], printed[n..], 0);
    }
  }

  // ----- whole messages -----

  /** The two shapes the framing looks for in a header map. */
  lemma PrintedFraming(w: Wire)
    requires Printable(w)
    ensures IsChunked(FrameOf(w).head) <==> w.payload.Chunks?
    ensures w.payload.Sized? ==> ContentLength(FrameOf(w).head) == |w.payload.data|
  {
    hide ParseUnsigned, LastOf, NoneOf, FieldMap, Contains, Lower, ValidField;
    var fields := w.fields;
    forall name | NoneOf(fields, name)
      ensures name !in FieldMap(fields)
    {
      NameNotInMap(fields, name);
    }
    forall i, name | LastOf(fields, i, name)
      ensures 0 <= i < |fields| && name in FieldMap(fields) && FieldMap(fields)[name] == fields[i].value
    {
      LastInMap(fields, i, name);
    }
  }

  lemma LowerContentLength()
    ensures Lower("Content-Length") == "content-length"
  {
  }

  lemma LowerTransferEncoding()
    ensures Lower("Transfer-Encoding") == "transfer-encoding"
    ensures Contains(Lower("chunked"), "chunked")
  {
    assert Lower("chunked") == "chunked";
    assert At("chunked", "chunked", 0);
  }

  lemma {:induction false} NameNotInMap(fields: seq<Field>, name: string)
    requires NoneOf(fields, name)
    ensures name !in FieldMap(fields)
  {
    hide Lower;
    if fields != [] {
      NameNotInMap(fields[..|fields| - 1], name);
    }
  }

  lemma {:induction false} LastInMap(fields: seq<Field>, i: int, name: string)
    requires LastOf(fields, i, name)
    ensures 0 <= i < |fields| && name in FieldMap(fields) && FieldMap(fields)[name] == fields[i].value
    decreases |fields|
  {
    hide Lower;
    var n := |fields| - 1;
    if i < n { LastInMap(fields[..n], i, name); }
  }

  lemma {:induction false} ChunkDataLength(chunks: seq<Chunk>)
    requires forall c :: c in chunks ==> ValidChunk(c)
    ensures |ChunkData(chunks)| <= |PrintChunks(chunks)|
  {
    hide PrintChunk;
    if chunks != [] {
      ChunkLength(chunks[0]);
      ChunkDataLength(chunks[1..]);
    }
  }

  /** A printed message at the front of a buffer is framed as itself. */
  lemma StepOfPrinted(codec: Codec, w: Wire, tail: bytes)
    requires AsciiLaw(codec) && Printable(w) && WithinLimits(w)
    ensures
      var size := |HeadText(w)| + 4;
      FrameStep(codec, Print(w) + tail)
      == if TooLarge(w) then Oversized(size, |w.payload.data|)
         else Complete(FrameOf(w), |Print(w)|)
    ensures Find(Print(w) + tail, BLANK_LINE) == Some(|HeadText(w)|)
  {
    hide Decode, HeadOf, FrameOf, HeadText, PrintPayload, FrameBody, Announces, ValidPayload, WithinLimits, AsciiLaw;
    HeadIsAscii(w);
    HeadFound(w, PrintPayload(w.payload) + tail);
    AroundHead(ToBytes(HeadText(w)), PrintPayload(w.payload), tail);
    DecodeAscii(codec, HeadText(w));
    HeadOfPrinted(w);
    BodyOfPrinted(codec, w, Print(w) + tail, tail);
  }

  lemma AroundHead(head: bytes, payload: bytes, tail: bytes)
    ensures
      var all := head + BLANK_LINE + payload + tail;
      all == head + BLANK_LINE + (payload + tail)
      && all[..|head|] == head && all[|head| + 4..] == payload + tail
  {
  }

  lemma BodyOfPrinted(codec: Codec, w: Wire, buffer: bytes, tail: bytes)
    requires AsciiLaw(codec) && Printable(w) && WithinLimits(w)
    requires |HeadText(w)| + 4 <= |buffer| && buffer[|HeadText(w)| + 4..] == PrintPayload(w.payload) + tail
    ensures
      var total := |HeadText(w)| + 4;
      FrameBody(codec, buffer, total, FrameOf(w).head)
      == if TooLarge(w) then Oversized(total, |w.payload.data|)
         else Complete(FrameOf(w), |Print(w)|)
  {
    hide Decode, IsChunked, ContentLength, HeadText, PrintPayload, HeadOf, AsciiLaw, Announces;
    PrintedFraming(w);
    PayloadStep(codec, w, tail);
    if w.payload.Sized? {
      var total, payload := |HeadText(w)| + 4, PrintPayload(w.payload);
      assert buffer[total..total + |payload|] == buffer[total..][..|payload|] == payload;
    }
  }

  lemma HeadFound(w: Wire, tail: bytes)
    requires Printable(w) && IsAsciiText(HeadText(w))
    ensures Find(ToBytes(HeadText(w)) + BLANK_LINE + tail, BLANK_LINE) == Some(|HeadText(w)|)
  {
    HeadLinesAreLines(w);
    FindAfterLines(HeadLines(w), tail);
  }

  lemma PayloadStep(codec: Codec, w: Wire, tail: bytes)
    requires AsciiLaw(codec) && Printable(w) && WithinLimits(w)
    ensures FrameOf(w).body == PayloadData(w.payload)
    ensures
      match w.payload
      case Sized(data) => PrintPayload(w.payload) == data
      case Chunks(_, _, _) =>
        Decode(codec, PrintPayload(w.payload) + tail, 0)
        == Some(Decoded(PayloadData(w.payload), |PrintPayload(w.payload)|))
  {
    match w.payload
    case Sized(data) =>
    case Chunks(chunks, last, trailers) =>
      ChunkDataLength(chunks);
      DecodePrinted(codec, chunks, last, trailers, tail, 0);
  }

  lemma {:induction false} DrainPrinted(codec: Codec, ws: seq<Wire>)
    requires AsciiLaw(codec) && forall w :: w in ws ==> Printable(w) && WithinLimits(w)
    ensures Drain(codec, PrintAll(ws)) == Drained(Kept(ws), [], 0)
    ensures WellSized(codec, PrintAll(ws))
    decreases |ws|
  {
    hide FrameStep, Print, FrameOf, HeadText;
    if ws == [] {
      NothingToFrame(codec);
    } else {
      var w, rest := ws[0], PrintAll(ws[1..]);
      assert w in ws;
      var buffer := Print(w) + rest;
      StepOfPrinted(codec, w, rest);
      DrainPrinted(codec, ws[1..]);
      PrintLength(w);
      if TooLarge(w) {
        var cut := |HeadText(w)| + 4 + |w.payload.data|;
        assert buffer[cut..] == rest;
        assert [] + Kept(ws[1..]) == Kept(ws[1..]);
        if rest == [] { NothingToFrame(codec); }
      } else {
        assert buffer[|Print(w)|..] == rest;
      }
    }
  }

  lemma NothingToFrame(codec: Codec)
    ensures FrameStep(codec, []) == More && Find<byte>([], BLANK_LINE).None?
  {
  }

  lemma PrintLength(w: Wire)
    requires Printable(w)
    ensures w.payload.Sized? ==> |Print(w)| == |HeadText(w)| + 4 + |w.payload.data|
    ensures TooLarge(w) || (WithinLimits(w) ==> |Print(w)| <= MAX_MESSAGE_BYTES + 1)
  {
  }

  /** The round trip: printed messages, fed in any pieces, come back as exactly
      their start lines, headers and bodies, in order; only messages too large to
      hold are left out, and nothing is left over. */
  lemma PrintedComesBack(codec: Codec, ws: seq<Wire>, pieces: seq<bytes>)
    requires AsciiLaw(codec) && forall w :: w in ws ==> Printable(w) && WithinLimits(w)
    requires pieces != [] && Flatten(pieces) == PrintAll(ws)
    ensures FeedAll(codec, FRESH, pieces) == Fed(Kept(ws), FRESH)
  {
    hide Drain, WellSized;
    var stream := PrintAll(ws);
    DrainPrinted(codec, ws);
    WellSizedExactly(codec, stream);
    SegmentationIndependence(codec, FRESH, pieces);
    assert ([] + stream)[0..] == stream;
  }
}
