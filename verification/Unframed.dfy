/** What is kept of data that is not framed, and how the stream goes on behind it. */
module Unframed {
  import opened Basics
  import opened Search
  import opened Codecs
  import opened Chunked
  import opened Framing
  import opened Connection

  /** What a call keeps is a tail of what it could not frame: everything, unless that is
      over the scan limit without a blank line, when it is exactly that many bytes of
      the end; and nothing when it is over the message limit. */
  lemma KeptIsTail(codec: Codec, conn: Conn, call: Call)
    requires conn.Valid()
    ensures
      var rest := Resume(codec, conn.Link(call.direction), call.data).rest;
      var kept := ConnStep(codec, conn, call).conn.Link(call.direction).buffer;
      |kept| <= |rest| && kept == rest[|rest| - |kept|..]
      && (kept == [] <==> rest == [] || |rest| > MAX_MESSAGE_BYTES)
      && (|rest| <= MAX_MESSAGE_BYTES ==>
            kept == if Find(rest, BLANK_LINE).Some? then rest else LastFew(rest, MAX_SCAN_BUFFER))
  {
    hide Resume, AbsorbAll;
  }

  // ----- a stretch of unframed data -----

  lemma BlankInTail(s: bytes, n: nat)
    requires Find(s, BLANK_LINE).None?
    ensures Find(LastFew(s, n), BLANK_LINE).None?
  {
    if |s| > n && Find(LastFew(s, n), BLANK_LINE).Some? {
      var i := Find(LastFew(s, n), BLANK_LINE).value;
      AtDrop(s, BLANK_LINE, |s| - n, i);
    }
  }

  lemma BlankInFront(s: bytes, more: bytes)
    requires Find(s + more, BLANK_LINE).None?
    ensures Find(s, BLANK_LINE).None?
  {
    if Find(s, BLANK_LINE).Some? { FindStable(s, more, BLANK_LINE); }
  }

  lemma TailOfTail(a: bytes, b: bytes, n: nat)
    ensures LastFew(LastFew(a, n) + b, n) == LastFew(a + b, n)
    ensures |LastFew(a, n) + b| <= |a + b| && LastFew(a, n) + b == LastFew(a + b, |LastFew(a, n)| + |b|)
  {
  }

  /** No piece, behind what is kept before it, reaches the message limit. */
  predicate PiecesFit(held: bytes, pieces: seq<bytes>)
    decreases |pieces|
  {
    pieces == []
    || (|held| + |pieces[0]| <= MAX_MESSAGE_BYTES
        && PiecesFit(LastFew(held + pieces[0], MAX_SCAN_BUFFER), pieces[1..]))
  }

  lemma OnePiece(codec: Codec, held: bytes, piece: bytes)
    requires |held| + |piece| <= MAX_MESSAGE_BYTES && Find(held + piece, BLANK_LINE).None?
    ensures Feed(codec, Link(held, 0), piece) == Fed([], Link(LastFew(held + piece, MAX_SCAN_BUFFER), 0))
  {
    var all := held + piece;
    assert all[0..] == all;
    assert Drain(codec, all) == Drained([], all, 0);
  }

  /** Unframed data in any pieces frames nothing and leaves exactly its last bytes: from
      any held bytes on, what follows is framed as behind those last bytes alone. */
  lemma {:induction false} OnlyTheTailCounts(codec: Codec, held: bytes, pieces: seq<bytes>, later: seq<bytes>)
    requires |held| <= MAX_SCAN_BUFFER && PiecesFit(held, pieces)
    requires Find(held + Flatten(pieces), BLANK_LINE).None?
    ensures FeedAll(codec, Link(held, 0), pieces + later)
         == FeedAll(codec, Link(LastFew(held + Flatten(pieces), MAX_SCAN_BUFFER), 0), later)
    decreases |pieces|
  {
    hide Feed, LastFew;
    if pieces == [] {
      assert pieces + later == later && held + Flatten(pieces) == held;
      ShortTail(held);
    } else {
      var piece, rest := pieces[0], Flatten(pieces[1..]);
      var next := LastFew(held + piece, MAX_SCAN_BUFFER);
      assert held + (piece + rest) == (held + piece) + rest;
      BlankInFront(held + piece, rest);
      OnePiece(codec, held, piece);
      TailOfTail(held + piece, rest, MAX_SCAN_BUFFER);
      BlankInTail(held + piece + rest, |next| + |rest|);
      ShortTail(next);
      TailIsShort(held + piece);
      OnlyTheTailCounts(codec, next, pieces[1..], later);
      assert (pieces + later)[1..] == pieces[1..] + later;
      var others := FeedAll(codec, Link(next, 0), pieces[1..] + later);
      assert [] + others.frames == others.frames;
    }
  }

  lemma ShortTail(s: bytes)
    ensures |s| <= MAX_SCAN_BUFFER ==> LastFew(s, MAX_SCAN_BUFFER) == s
  {
  }

  lemma TailIsShort(s: bytes)
    ensures |LastFew(s, MAX_SCAN_BUFFER)| <= MAX_SCAN_BUFFER
  {
  }

  /** A piece that does reach the message limit takes everything held with it. */
  lemma TooLongIsForgotten(codec: Codec, held: bytes, piece: bytes)
    requires |held| + |piece| > MAX_MESSAGE_BYTES && Find(held + piece, BLANK_LINE).None?
    ensures Feed(codec, Link(held, 0), piece) == Fed([], FRESH)
  {
    var all := held + piece;
    assert all[0..] == all;
    assert Drain(codec, all) == Drained([], all, 0);
  }
}
