/** HTTP/1.1 message framing: from a byte buffer to complete messages. */
module Framing {
  import opened Basics
  import opened Search
  import opened Text
  import opened Codecs
  import opened Chunked

  const MAX_SCAN_BUFFER: nat := 128 * 1024
  const MAX_MESSAGE_BYTES: nat := 8 * 1024 * 1024

  datatype Head = Head(start: string, headers: map<string, string>)
  datatype Frame = Frame(head: Head, body: bytes)

  // ----- header blocks -----

  /** One header line entered into the map; the last line of a name wins. */
  function AddHeader(headers: map<string, string>, line: string): map<string, string> {
    match Find(line, ":")
    case None => headers
    case Some(e) => headers[Lower(Trim(line[..e])) := Trim(line[e + 1..])]
  }

  function HeaderMap(lines: seq<string>): map<string, string> {
    if lines == [] then map[] else AddHeader(HeaderMap(lines[..|lines| - 1]), lines[|lines| - 1])
  }

  /** A line without a colon is no header. */
  lemma {:induction false} PlainLineIsIgnored(before: seq<string>, line: string, after: seq<string>)
    requires ':' !in line
    ensures HeaderMap(before + [line] + after) == HeaderMap(before + after)
    decreases |after|
  {
    hide AddHeader;
    if after == [] {
      assert before + [line] + after == before + [line] && before + after == before;
      assert (before + [line])[..|before|] == before;
      NoColon(HeaderMap(before), line);
    } else {
      var n := |after| - 1;
      var long, short := before + [line] + after, before + after;
      assert long[..|long| - 1] == before + [line] + after[..n] && short[..|short| - 1] == before + after[..n];
      PlainLineIsIgnored(before, line, after[..n]);
    }
  }

  lemma NoColon(headers: map<string, string>, line: string)
    requires ':' !in line
    ensures AddHeader(headers, line) == headers
  {
    FindNothing(line, ":");
  }

  function HeadOf(text: string): Head {
    var lines := Split(text, "\r\n");
    Head(lines[0], HeaderMap(lines[1..]))
  }

  method ParseHead(text: string) returns (head: Head)
    ensures head == HeadOf(text)
  {
    var lines := Split(text, "\r\n");
    var headers: map<string, string> := map[];
    for i := 1 to |lines|
      invariant headers == HeaderMap(lines[1..i])
    {
      assert lines[1..i + 1][..i - 1] == lines[1..i];
      headers := AddHeader(headers, lines[i]);
    }
    assert lines[1..|lines|] == lines[1..];
    return Head(lines[0], headers);
  }

  predicate IsChunked(head: Head) {
    "transfer-encoding" in head.headers
    && Contains(Lower(head.headers["transfer-encoding"]), "chunked")
  }

  /** An absent or unreadable length counts as 0. */
  function ContentLength(head: Head): (n: nat)
    ensures n <= U64_MAX
  {
    if "content-length" in head.headers
    then ParseUnsigned(head.headers["content-length"], 10, U64_MAX).GetOr(0)
    else 0
  }

  // ----- one message -----

  /** What stands at the front of the buffer: nothing complete yet; a header
      block that is not UTF-8; the head of a message too large to hold; or a
      complete message. `size` is how much of the buffer it accounts for. */
  datatype Step =
    | More
    | Junk(size: nat)
    | Oversized(size: nat, length: nat)
    | Complete(frame: Frame, size: nat)

  function FrameBody(codec: Codec, buffer: bytes, total: nat, head: Head): (r: Step)
    requires total <= |buffer|
    ensures !r.Junk?
    ensures r.Oversized? ==> r.size == total && r.size + r.length > MAX_MESSAGE_BYTES
    ensures r.Complete? ==> total <= r.size <= |buffer|
  {
    if IsChunked(head) then
      match Decode(codec, buffer[total..], 0)
      case None => More
      case Some(d) => Complete(Frame(head, d.body), total + d.consumed)
    else
      var length := ContentLength(head);
      if SaturatingEnd(total, length) > MAX_MESSAGE_BYTES then Oversized(total, length)
      else if |buffer| < total + length then More
      else Complete(Frame(head, buffer[total..total + length]), total + length)
  }

  /** `usize::saturating_add` on the 64-bit target. */
  function SaturatingEnd(total: nat, length: nat): nat { Min(total + length, U64_MAX) }

  function FrameStep(codec: Codec, buffer: bytes): (r: Step)
    ensures !r.More? ==> 4 <= r.size <= |buffer|
    ensures r.Oversized? ==> r.size + r.length > MAX_MESSAGE_BYTES
  {
    match Find(buffer, BLANK_LINE)
    case None => More
    case Some(e) =>
      match codec.text(buffer[..e])
      case None => Junk(e + 4)
      case Some(text) => FrameBody(codec, buffer, e + 4, HeadOf(text))
  }

  // ----- a whole buffer -----

  /** The messages taken out of a buffer, what is left of it, and how many bytes
      of an oversized body are still to be walked past. */
  datatype Drained = Drained(frames: seq<Frame>, rest: bytes, skip: nat)

  function After(frames: seq<Frame>, d: Drained): Drained { d.(frames := frames + d.frames) }

  /** The one-shot framing of a buffer. */
  function Drain(codec: Codec, buffer: bytes): (d: Drained)
    ensures d.skip > 0 ==> d.rest == []
    ensures |d.rest| <= |buffer|
    decreases |buffer|
  {
    match FrameStep(codec, buffer)
    case More => Drained([], buffer, 0)
    case Junk(size) => Drain(codec, buffer[size..])
    case Oversized(size, length) =>
      if |buffer| - size <= length then Drained([], [], length - (|buffer| - size))
      else Drain(codec, buffer[size + length..])
    case Complete(frame, size) => After([frame], Drain(codec, buffer[size..]))
  }

  // ----- one direction of one connection -----

  datatype Link = Link(buffer: bytes, skip: nat)

  const FRESH: Link := Link([], 0)

  /** Bytes are only ever skipped when none are held. */
  predicate ValidLink(link: Link) { link.skip > 0 ==> link.buffer == [] }

  /** Framing continued with new data, before any limit on the buffer. */
  function Resume(codec: Codec, link: Link, data: bytes): (d: Drained)
    requires ValidLink(link)
    ensures d.skip > 0 ==> d.rest == []
    ensures |d.rest| <= |link.buffer| + |data|
  {
    var all := link.buffer + data;
    if |all| < link.skip then Drained([], [], link.skip - |all|)
    else Drain(codec, all[link.skip..])
  }

  /** The limit on what is kept: unframed data is cut to its tail, a message that
      outgrew every limit is dropped. */
  function Cap(rest: bytes): (kept: bytes)
    ensures |kept| <= MAX_MESSAGE_BYTES && |kept| <= |rest|
    ensures rest == [] ==> kept == []
  {
    if |rest| > MAX_MESSAGE_BYTES then []
    else if |rest| > MAX_SCAN_BUFFER && Find(rest, BLANK_LINE).None?
    then rest[|rest| - MAX_SCAN_BUFFER..]
    else rest
  }

  datatype Fed = Fed(frames: seq<Frame>, link: Link)

  /** One call's worth of data for one direction. */
  function Feed(codec: Codec, link: Link, data: bytes): (f: Fed)
    requires ValidLink(link)
    ensures ValidLink(f.link)
  {
    var d := Resume(codec, link, data);
    Fed(d.frames, Link(Cap(d.rest), d.skip))
  }

  function FeedAll(codec: Codec, link: Link, pieces: seq<bytes>): (f: Fed)
    requires ValidLink(link)
    ensures ValidLink(f.link)
    decreases |pieces|
  {
    if pieces == [] then Fed([], link)
    else
      var first := Feed(codec, link, pieces[0]);
      var others := FeedAll(codec, first.link, pieces[1..]);
      Fed(first.frames + others.frames, others.link)
  }
}
