/** How the byte stream is cut into pieces makes no difference to the frames. */
module Segmentation {
  import opened Basics
  import opened Search
  import opened Codecs
  import opened Chunked
  import opened Framing

  // ----- framing composes -----

  /** A step already possible stays the same step when more data arrive. */
  lemma StepStable(codec: Codec, buffer: bytes, more: bytes)
    requires !FrameStep(codec, buffer).More?
    ensures FrameStep(codec, buffer + more) == FrameStep(codec, buffer)
  {
    hide Decode;
    FindStable(buffer, more, BLANK_LINE);
    var e := Find(buffer, BLANK_LINE).value;
    var total := e + 4;
    assert (buffer + more)[..e] == buffer[..e];
    match codec.text(buffer[..e])
    case None =>
    case Some(text) =>
      var head := HeadOf(text);
      if IsChunked(head) {
        DecodeStable(codec, buffer[total..], more, 0);
        assert (buffer + more)[total..] == buffer[total..] + more;
      } else if FrameStep(codec, buffer).Complete? {
        var length := ContentLength(head);
        assert (buffer + more)[total..total + length] == buffer[total..total + length];
      }
  }

  lemma AfterAfter(f1: seq<Frame>, f2: seq<Frame>, d: Drained)
    ensures After(f1, After(f2, d)) == After(f1 + f2, d)
  {
    assert f1 + (f2 + d.frames) == f1 + f2 + d.frames;
  }

  lemma AfterNothing(d: Drained)
    ensures After([], d) == d
  {
    assert [] + d.frames == d.frames;
  }

  function LinkOf(d: Drained): Link { Link(d.rest, d.skip) }

  /** Draining a longer buffer is draining its front and then resuming. */
  lemma {:induction false} DrainAppend(codec: Codec, buffer: bytes, more: bytes)
    ensures Drain(codec, buffer + more)
         == After(Drain(codec, buffer).frames, Resume(codec, LinkOf(Drain(codec, buffer)), more))
    decreases |buffer|
  {
    hide FrameStep;
    var d := Drain(codec, buffer);
    if !FrameStep(codec, buffer).More? {
      StepStable(codec, buffer, more);
    }
    match FrameStep(codec, buffer)
    case More =>
      assert (buffer + more)[0..] == buffer + more;
      AfterNothing(Drain(codec, buffer + more));
    case Junk(size) =>
      DropAppend(buffer, more, size);
      DrainAppend(codec, buffer[size..], more);
    case Oversized(size, length) =>
      DropAppend(buffer, more, size + length);
      if |buffer| - size <= length {
        SkipAppend(codec, buffer, more);
      } else {
        DrainAppend(codec, buffer[size + length..], more);
      }
    case Complete(frame, size) =>
      DropAppend(buffer, more, size);
      DrainAppend(codec, buffer[size..], more);
      AfterAfter([frame], Drain(codec, buffer[size..]).frames, Resume(codec, LinkOf(d), more));
  }

  /** The same while the body of an oversized message is still arriving. */
  lemma SkipAppend(codec: Codec, buffer: bytes, more: bytes)
    requires FrameStep(codec, buffer).Oversized? && FrameStep(codec, buffer + more) == FrameStep(codec, buffer)
    requires |buffer| <= FrameStep(codec, buffer).size + FrameStep(codec, buffer).length
    ensures Drain(codec, buffer + more)
         == After(Drain(codec, buffer).frames, Resume(codec, LinkOf(Drain(codec, buffer)), more))
  {
    hide FrameStep;
    var end := FrameStep(codec, buffer).size + FrameStep(codec, buffer).length;
    AfterNothing(Resume(codec, LinkOf(Drain(codec, buffer)), more));
    assert [] + more == more;
    if |buffer| + |more| >= end {
      DropAppend(buffer, more, end);
      DrainEmpty(codec);
      if |buffer| + |more| == end { assert more[end - |buffer|..] == []; }
    }
  }

  lemma DrainEmpty(codec: Codec)
    ensures Drain(codec, []) == Drained([], [], 0)
  {
  }

  /** Resuming with two pieces at once is resuming with one after the other. */
  lemma ResumeAppend(codec: Codec, link: Link, a: bytes, b: bytes)
    requires ValidLink(link)
    ensures Resume(codec, link, a + b)
         == After(Resume(codec, link, a).frames, Resume(codec, LinkOf(Resume(codec, link, a)), b))
  {
    hide Drain;
    var all := link.buffer + a;
    assert link.buffer + (a + b) == all + b;
    if |all| < link.skip {
      assert link.buffer == [];
      AfterNothing(Resume(codec, Link([], link.skip - |a|), b));
      assert [] + b == b;
      assert all == a;
      if |a| + |b| >= link.skip {
        assert (a + b)[link.skip..] == b[link.skip - |a|..];
      }
    } else {
      assert (all + b)[link.skip..] == all[link.skip..] + b;
      DrainAppend(codec, all[link.skip..], b);
    }
  }

  /** A header block that is not text is dropped, alone, and framing goes on behind it. */
  lemma JunkIsDropped(codec: Codec, block: bytes, tail: bytes)
    requires Find(block + BLANK_LINE, BLANK_LINE) == Some(|block|) && codec.text(block) == None
    ensures Drain(codec, block + BLANK_LINE + tail) == Drain(codec, tail)
  {
    var all := block + BLANK_LINE + tail;
    FindStable(block + BLANK_LINE, tail, BLANK_LINE);
    assert all[..|block|] == block && all[|block| + 4..] == tail;
  }

  // ----- when the limits cut nothing -----

  predicate Fits(rest: bytes) { Cap(rest) == rest }

  /** No prefix of the data, fed in one piece, runs into a limit. */
  predicate NeverTrims(codec: Codec, link: Link, data: bytes)
    requires ValidLink(link)
  {
    forall n :: 0 <= n <= |data| ==> Fits(Resume(codec, link, data[..n]).rest)
  }

  /** Segmentation independence: any way of cutting the data gives the frames,
      the held bytes and the outstanding skip of feeding it whole. */
  lemma {:induction false} SegmentationIndependence(codec: Codec, link: Link, pieces: seq<bytes>)
    requires ValidLink(link) && NeverTrims(codec, link, Flatten(pieces))
    requires pieces != []
    ensures FeedAll(codec, link, pieces) == Feed(codec, link, Flatten(pieces))
    decreases |pieces|
  {
    hide Resume, Cap;
    var p, rest := pieces[0], Flatten(pieces[1..]);
    var whole := p + rest;
    var d := Resume(codec, link, p);
    assert whole[..|p|] == p;
    assert Fits(d.rest);
    ResumeAppend(codec, link, p, rest);
    var first := Feed(codec, link, p);
    assert first.link == LinkOf(d);
    forall n | 0 <= n <= |rest|
      ensures Fits(Resume(codec, first.link, rest[..n]).rest)
    {
      assert whole[..|p| + n] == p + rest[..n];
      ResumeAppend(codec, link, p, rest[..n]);
      assert Fits(Resume(codec, link, whole[..|p| + n]).rest);
    }
    if |pieces| == 1 {
      assert rest == [] && whole == p;
      assert FeedAll(codec, first.link, []) == Fed([], first.link);
      assert pieces[1..] == [];
      assert first.frames + [] == first.frames;
    } else {
      SegmentationIndependence(codec, first.link, pieces[1..]);
    }
  }

  /** The same condition, read off the stream message by message: header blocks
      and unframed tails within the scan buffer, chunked messages within the
      message limit. */
  predicate WellSized(codec: Codec, stream: bytes)
    decreases |stream|
  {
    match Find(stream, BLANK_LINE)
    case None => |stream| <= MAX_SCAN_BUFFER
    case Some(e) =>
      e + 3 <= MAX_SCAN_BUFFER
      && match FrameStep(codec, stream)
         case More => |stream| <= MAX_MESSAGE_BYTES
         case Junk(size) => WellSized(codec, stream[size..])
         case Oversized(size, length) =>
           |stream| - size <= length || WellSized(codec, stream[size + length..])
         case Complete(_, size) => size <= MAX_MESSAGE_BYTES + 1 && WellSized(codec, stream[size..])
  }

  // ----- the two conditions are the same -----

  lemma StepOfPrefix(codec: Codec, buffer: bytes, n: nat)
    requires n <= |buffer| && !FrameStep(codec, buffer).More?
    ensures FrameStep(codec, buffer[..n])
         == if n < FrameStep(codec, buffer).size then More else FrameStep(codec, buffer)
  {
    var front, step := buffer[..n], FrameStep(codec, buffer);
    assert front + buffer[n..] == buffer;
    if n < step.size {
      if !FrameStep(codec, front).More? {
        StepStable(codec, front, buffer[n..]);
      }
    } else {
      StepOfLongPrefix(codec, buffer, n);
    }
  }

  lemma StepOfLongPrefix(codec: Codec, buffer: bytes, n: nat)
    requires n <= |buffer| && !FrameStep(codec, buffer).More? && FrameStep(codec, buffer).size <= n
    ensures FrameStep(codec, buffer[..n]) == FrameStep(codec, buffer)
  {
    hide Decode;
    var front := buffer[..n];
    var e := Find(buffer, BLANK_LINE).value;
    var total := e + 4;
    FindInPrefix(buffer, BLANK_LINE, n);
    assert front[..e] == buffer[..e];
    match codec.text(buffer[..e])
    case None =>
    case Some(text) =>
      var head := HeadOf(text);
      if IsChunked(head) {
        assert front[total..] == buffer[total..][..n - total];
        DecodeOfPrefix(codec, buffer[total..], n - total, 0);
      } else if FrameStep(codec, buffer).Complete? {
        var length := ContentLength(head);
        assert front[total..total + length] == buffer[total..total + length];
      }
  }

  /** How a step relates to the first header block. */
  lemma StepShape(codec: Codec, buffer: bytes)
    ensures
      match Find(buffer, BLANK_LINE)
      case None => FrameStep(codec, buffer).More?
      case Some(e) =>
        match FrameStep(codec, buffer)
        case More => true
        case Complete(_, size) => e + 4 <= size
        case step => step.size == e + 4
  {
  }

  /** Whether a prefix of the buffer would be left whole by the limits. */
  predicate PrefixFits(codec: Codec, buffer: bytes, n: nat)
    requires n <= |buffer|
  {
    Fits(Drain(codec, buffer[..n]).rest)
  }

  /** Fitting, for the prefixes that end before the first message does. */
  lemma ShortPrefixFits(codec: Codec, buffer: bytes, n: nat)
    requires n <= |buffer|
    requires !FrameStep(codec, buffer).More? ==> n < FrameStep(codec, buffer).size
    ensures
      var unframed := Find(buffer, BLANK_LINE).None? || n < Find(buffer, BLANK_LINE).value + 4;
      PrefixFits(codec, buffer, n) <==> n <= if unframed then MAX_SCAN_BUFFER else MAX_MESSAGE_BYTES
  {
    var front := buffer[..n];
    assert front + buffer[n..] == buffer;
    if !FrameStep(codec, front).More? {
      StepStable(codec, front, buffer[n..]);
    }
    assert Drain(codec, front).rest == front;
    if Find(front, BLANK_LINE).Some? {
      FindStable(front, buffer[n..], BLANK_LINE);
    } else if Find(buffer, BLANK_LINE).Some? {
      FindLate(front, buffer[n..], BLANK_LINE);
    }
  }

  /** How much of the stream the first message takes, body included. */
  function Cut(step: Step): nat
    requires !step.More?
  {
    step.size + if step.Oversized? then step.length else 0
  }

  /** Fitting, for the prefixes that reach past the head of the first message. */
  lemma LongPrefixFits(codec: Codec, buffer: bytes, n: nat)
    requires n <= |buffer| && !FrameStep(codec, buffer).More? && FrameStep(codec, buffer).size <= n
    ensures
      var cut := Cut(FrameStep(codec, buffer));
      if n < cut then PrefixFits(codec, buffer, n)
      else PrefixFits(codec, buffer, n) <==> PrefixFits(codec, buffer[cut..], n - cut)
  {
    hide FrameStep;
    StepOfPrefix(codec, buffer, n);
    var front, cut := buffer[..n], Cut(FrameStep(codec, buffer));
    if n == cut {
      assert buffer[cut..][..n - cut] == [] == front[cut..];
      DrainEmpty(codec);
    } else if n > cut {
      assert front[cut..] == buffer[cut..][..n - cut];
    }
  }

  predicate AllPrefixesFit(codec: Codec, buffer: bytes) {
    forall n :: 0 <= n <= |buffer| ==> PrefixFits(codec, buffer, n)
  }

  lemma {:induction false} WellSizedMeansFits(codec: Codec, buffer: bytes)
    ensures WellSized(codec, buffer) <==> AllPrefixesFit(codec, buffer)
    decreases |buffer|
  {
    hide FrameStep, PrefixFits;
    var step := FrameStep(codec, buffer);
    match Find(buffer, BLANK_LINE)
    case None =>
      StepShape(codec, buffer);
      forall n | 0 <= n <= |buffer|
        ensures PrefixFits(codec, buffer, n) <==> n <= MAX_SCAN_BUFFER
      {
        ShortPrefixFits(codec, buffer, n);
      }
      assert PrefixFits(codec, buffer, |buffer|) <==> |buffer| <= MAX_SCAN_BUFFER;
    case Some(e) =>
      StepShape(codec, buffer);
      forall n | 0 <= n <= |buffer| && (step.More? || n < step.size)
        ensures PrefixFits(codec, buffer, n) <==> n <= if n < e + 4 then MAX_SCAN_BUFFER else MAX_MESSAGE_BYTES
      {
        ShortPrefixFits(codec, buffer, n);
      }
      if step.More? {
        assert PrefixFits(codec, buffer, |buffer|) <==> |buffer| <= MAX_MESSAGE_BYTES;
        assert PrefixFits(codec, buffer, e + 3) <==> e + 3 <= MAX_SCAN_BUFFER;
      } else {
        if Cut(step) <= |buffer| {
          WellSizedMeansFits(codec, buffer[Cut(step)..]);
        }
        if WellSized(codec, buffer) { FitsPastTheFirst(codec, buffer); }
        if AllPrefixesFit(codec, buffer) { FitsAfterTheFirst(codec, buffer); }
      }
  }

  lemma FitsPastTheFirst(codec: Codec, buffer: bytes)
    requires !FrameStep(codec, buffer).More? && WellSized(codec, buffer)
    requires var cut := Cut(FrameStep(codec, buffer));
             cut <= |buffer| ==> AllPrefixesFit(codec, buffer[cut..])
    ensures AllPrefixesFit(codec, buffer)
  {
    hide FrameStep, PrefixFits;
    StepShape(codec, buffer);
    var step := FrameStep(codec, buffer);
    forall n | 0 <= n <= |buffer|
      ensures PrefixFits(codec, buffer, n)
    {
      if n < step.size {
        ShortPrefixFits(codec, buffer, n);
      } else {
        LongPrefixFits(codec, buffer, n);
        assert n >= Cut(step) ==> PrefixFits(codec, buffer[Cut(step)..], n - Cut(step));
      }
    }
  }

  lemma FitsAfterTheFirst(codec: Codec, buffer: bytes)
    requires !FrameStep(codec, buffer).More? && AllPrefixesFit(codec, buffer)
    requires var cut := Cut(FrameStep(codec, buffer));
             cut <= |buffer| && AllPrefixesFit(codec, buffer[cut..]) ==> WellSized(codec, buffer[cut..])
    ensures WellSized(codec, buffer)
  {
    hide FrameStep, PrefixFits;
    StepShape(codec, buffer);
    var step, e := FrameStep(codec, buffer), Find(buffer, BLANK_LINE).value;
    assert PrefixFits(codec, buffer, e + 3) && PrefixFits(codec, buffer, step.size - 1);
    ShortPrefixFits(codec, buffer, e + 3);
    ShortPrefixFits(codec, buffer, step.size - 1);
    if Cut(step) <= |buffer| {
      forall n | 0 <= n <= |buffer| - Cut(step)
        ensures PrefixFits(codec, buffer[Cut(step)..], n)
      {
        assert PrefixFits(codec, buffer, Cut(step) + n);
        LongPrefixFits(codec, buffer, Cut(step) + n);
      }
    }
  }

  /** The stream-level condition is exactly that no limit is ever met. */
  lemma WellSizedExactly(codec: Codec, stream: bytes)
    ensures WellSized(codec, stream) <==> NeverTrims(codec, FRESH, stream)
  {
    hide WellSized, Drain;
    WellSizedMeansFits(codec, stream);
    forall n | 0 <= n <= |stream|
      ensures Fits(Resume(codec, FRESH, stream[..n]).rest) <==> PrefixFits(codec, stream, n)
    {
      assert ([] + stream[..n])[0..] == stream[..n];
    }
    assert AllPrefixesFit(codec, stream) ==> NeverTrims(codec, FRESH, stream) by {
      if AllPrefixesFit(codec, stream) {
        forall n | 0 <= n <= |stream|
          ensures Fits(Resume(codec, FRESH, stream[..n]).rest)
        {
          assert PrefixFits(codec, stream, n);
        }
      }
    }
  }
}
