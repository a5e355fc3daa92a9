/** Printing HTTP/1.1 messages with explicit framing (sections 6.2, 6.3 and 7.1
    of RFC 9112), the inverse of what the framing reads. */
module Printing {
  import opened Basics
  import opened Search
  import opened Text
  import opened Codecs
  import opened Chunked
  import opened Framing

  /** A header field in any letter case, with blanks around its value. */
  datatype Field = Field(name: string, before: string, value: string, after: string)

  /** `size` is any text that reads as the length of the data, and `extension` is empty
      or starts with `;`. */
  datatype Chunk = Chunk(size: string, data: bytes, extension: string)

  datatype Payload =
    | Sized(data: bytes)
    | Chunks(chunks: seq<Chunk>, last: Chunk, trailers: seq<string>)

  datatype Wire = Wire(start: string, fields: seq<Field>, payload: Payload)

  // ----- what can be printed -----

  /** ASCII text that stays on one line. */
  predicate IsLine(s: string) {
    IsAsciiText(s) && forall i :: 0 <= i < |s| ==> s[i] != '\r' && s[i] != '\n'
  }

  predicate IsTrimmed(s: string) { Trim(s) == s }

  predicate IsBlank(s: string) { forall i :: 0 <= i < |s| ==> s[i] == ' ' || s[i] == '\t' }

  predicate ValidField(f: Field) {
    f.name != [] && IsLine(f.name) && IsTrimmed(f.name) && Find(f.name, ":").None?
    && IsLine(f.value) && IsTrimmed(f.value) && IsBlank(f.before) && IsBlank(f.after)
  }

  predicate ValidExtension(e: string) { IsLine(e) && (e == [] || e[0] == ';') }

  /** Hexadecimal in either case, with leading zeros, a plus sign or blanks around it. */
  predicate ValidSize(text: string, size: nat) {
    IsLine(text) && ';' !in text && ParseUnsigned(Trim(text), 16, U64_MAX) == Some(size)
  }

  predicate ValidChunk(c: Chunk) { ValidSize(c.size, |c.data|) && ValidExtension(c.extension) }

  predicate ValidPayload(p: Payload) {
    match p
    case Sized(data) => |data| <= U64_MAX
    case Chunks(chunks, last, trailers) =>
      (forall c :: c in chunks ==> c.data != [] && ValidChunk(c))
      && last.data == [] && ValidChunk(last)
      && forall t :: t in trailers ==> t != [] && IsLine(t)
  }

  predicate NoneOf(fields: seq<Field>, name: string) { forall f :: f in fields ==> Lower(f.name) != name }

  /** Field `i` is the last of its name, the one that counts. */
  predicate LastOf(fields: seq<Field>, i: int, name: string) {
    0 <= i < |fields| && Lower(fields[i].name) == name
    && forall j :: i < j < |fields| ==> Lower(fields[j].name) != name
  }

  predicate IsChunkedValue(value: string) { Contains(Lower(value), "chunked") }

  /** The fields announce the body, wherever among them and in whatever text: chunked,
      or else its length; a message without a length that can be read has an empty body. */
  predicate Announces(fields: seq<Field>, p: Payload) {
    match p
    case Sized(data) =>
      (NoneOf(fields, "transfer-encoding")
       || exists i :: 0 <= i < |fields| && LastOf(fields, i, "transfer-encoding") && !IsChunkedValue(fields[i].value))
      && if NoneOf(fields, "content-length") then data == []
         else exists i :: 0 <= i < |fields| && LastOf(fields, i, "content-length")
                          && ParseUnsigned(fields[i].value, 10, U64_MAX).GetOr(0) == |data|
    case Chunks(_, _, _) =>
      exists i :: 0 <= i < |fields| && LastOf(fields, i, "transfer-encoding") && IsChunkedValue(fields[i].value)
  }

  predicate Printable(w: Wire) {
    w.start != [] && IsLine(w.start)
    && (forall f :: f in w.fields ==> ValidField(f))
    && ValidPayload(w.payload) && Announces(w.fields, w.payload)
  }

  // ----- printing -----

  function Join(lines: seq<string>): string
    requires lines != []
  {
    if |lines| == 1 then lines[0] else lines[0] + "\r\n" + Join(lines[1..])
  }

  function FieldLine(f: Field): string { f.name + ":" + (f.before + f.value + f.after) }

  function FieldLines(fields: seq<Field>): (lines: seq<string>)
    ensures |lines| == |fields|
    ensures forall i :: 0 <= i < |fields| ==> lines[i] == FieldLine(fields[i])
  {
    seq(|fields|, i requires 0 <= i < |fields| => FieldLine(fields[i]))
  }

  /** The framing field as it is usually printed. */
  function FramingField(p: Payload): Field {
    match p
    case Sized(data) => Field("Content-Length", " ", Digits(|data|, 10), "")
    case Chunks(_, _, _) => Field("Transfer-Encoding", " ", "chunked", "")
  }

  function HeadLines(w: Wire): seq<string> {
    [w.start] + FieldLines(w.fields)
  }

  function HeadText(w: Wire): string { Join(HeadLines(w)) }

  function SizeLine(c: Chunk): string { c.size + c.extension }

  function PrintChunk(c: Chunk): bytes
    requires ValidChunk(c)
  {
    ToBytes(SizeLine(c)) + CRLF + c.data + CRLF
  }

  function PrintChunks(chunks: seq<Chunk>): bytes
    requires forall c :: c in chunks ==> ValidChunk(c)
  {
    if chunks == [] then [] else PrintChunk(chunks[0]) + PrintChunks(chunks[1..])
  }

  function PrintTrailers(trailers: seq<string>): bytes
    requires forall t :: t in trailers ==> IsLine(t)
  {
    if trailers == [] then CRLF
    else
      assert forall t :: t in trailers ==> IsLine(t) ==> IsAsciiText(t);
      JoinAscii(trailers);
      ToBytes(Join(trailers)) + BLANK_LINE
  }

  /** The last chunk and the trailer section. */
  function PrintLast(last: Chunk, trailers: seq<string>): bytes
    requires ValidChunk(last)
    requires forall t :: t in trailers ==> IsLine(t)
  {
    ToBytes(SizeLine(last)) + CRLF
    + PrintTrailers(trailers)
  }

  function PrintPayload(p: Payload): bytes
    requires ValidPayload(p)
  {
    match p
    case Sized(data) => data
    case Chunks(chunks, last, trailers) =>
      PrintChunks(chunks) + PrintLast(last, trailers)
  }

  function Print(w: Wire): bytes
    requires Printable(w)
  {
    HeadIsAscii(w);
    ToBytes(HeadText(w)) + BLANK_LINE + PrintPayload(w.payload)
  }

  function PrintAll(ws: seq<Wire>): bytes
    requires forall w :: w in ws ==> Printable(w)
  {
    if ws == [] then [] else Print(ws[0]) + PrintAll(ws[1..])
  }

  // ----- what should be read back -----

  function FieldMap(fields: seq<Field>): map<string, string> {
    if fields == [] then map[]
    else FieldMap(fields[..|fields| - 1])[Lower(fields[|fields| - 1].name) := fields[|fields| - 1].value]
  }

  function PayloadData(p: Payload): bytes {
    match p
    case Sized(data) => data
    case Chunks(chunks, _, _) => ChunkData(chunks)
  }

  function ChunkData(chunks: seq<Chunk>): bytes {
    if chunks == [] then [] else chunks[0].data + ChunkData(chunks[1..])
  }

  function FrameOf(w: Wire): Frame {
    Frame(Head(w.start, FieldMap(w.fields)), PayloadData(w.payload))
  }

  /** Only a body of announced length can be too large to hold. */
  predicate TooLarge(w: Wire) {
    w.payload.Sized? && |HeadText(w)| + 4 + |w.payload.data| > MAX_MESSAGE_BYTES
  }

  /** The messages that come back, in order. */
  function Kept(ws: seq<Wire>): seq<Frame> {
    if ws == [] then []
    else (if TooLarge(ws[0]) then [] else [FrameOf(ws[0])]) + Kept(ws[1..])
  }

  /** The limits on header blocks and on chunked messages. */
  predicate WithinLimits(w: Wire)
    requires Printable(w)
  {
    |HeadText(w)| + 3 <= MAX_SCAN_BUFFER
    && (w.payload.Chunks? ==> |Print(w)| <= MAX_MESSAGE_BYTES + 1)
  }

  // ----- texts -----

  lemma LinesConcat(a: string, b: string)
    ensures IsAsciiText(a) && IsAsciiText(b) ==> IsAsciiText(a + b)
    ensures IsLine(a) && IsLine(b) ==> IsLine(a + b)
  {
  }

  lemma {:induction false} JoinAscii(lines: seq<string>)
    requires lines != [] && forall l :: l in lines ==> IsAsciiText(l)
    ensures IsAsciiText(Join(lines))
  {
    if |lines| > 1 {
      JoinAscii(lines[1..]);
      assert lines[0] in lines && IsAsciiText("\r\n");
      LinesConcat(lines[0], "\r\n");
      LinesConcat(lines[0] + "\r\n", Join(lines[1..]));
    } else {
      assert lines[0] in lines;
    }
  }

  lemma DigitsAreLine(n: nat, radix: Radix)
    ensures IsLine(Digits(n, radix))
  {
    var s := Digits(n, radix);
    forall i | 0 <= i < |s|
      ensures s[i] as int < 128 && s[i] != '\r' && s[i] != '\n'
    {
      assert '0' <= s[i] <= '9' || 'a' <= s[i] <= 'f';
    }
  }

  lemma FieldLineIsLine(f: Field)
    requires ValidField(f)
    ensures IsLine(FieldLine(f)) && FieldLine(f) != []
  {
    hide IsTrimmed;
    assert IsLine(":") && IsLine(f.before) && IsLine(f.after);
    LinesConcat(f.before, f.value);
    LinesConcat(f.before + f.value, f.after);
    LinesConcat(f.name, ":");
    LinesConcat(f.name + ":", f.before + f.value + f.after);
  }

  lemma HeadLinesAreLines(w: Wire)
    requires Printable(w)
    ensures forall l :: l in HeadLines(w) ==> IsLine(l) && l != []
  {
    hide Announces, ValidField;
    forall i | 0 <= i < |w.fields|
      ensures IsLine(FieldLines(w.fields)[i]) && FieldLines(w.fields)[i] != []
    {
      assert w.fields[i] in w.fields;
      FieldLineIsLine(w.fields[i]);
    }
  }

  lemma HeadIsAscii(w: Wire)
    requires Printable(w)
    ensures IsAsciiText(HeadText(w))
  {
    HeadLinesAreLines(w);
    JoinAscii(HeadLines(w));
  }
}
