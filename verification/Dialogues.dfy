/** Printed requests and responses, end to end: the methods, paths and status codes that
    were printed are those the messages are labelled with. */
module Dialogues {
  import opened Basics
  import opened Codecs
  import opened Hosts
  import opened Framing
  import opened Printing
  import opened RoundTrip
  import opened Connection
  import opened StartLines
  import opened Pairing
  import opened Emission
  import opened ParserState
  import opened ParserRuns
  import opened Conversations

  // ----- what a printed message is read as -----

  /** It asks for `r` of one of the game's hosts. */
  predicate PrintsRequest(w: Wire, line: RequestLine, r: Request) {
    ValidRequest(line) && w.start == PrintRequest(line) && r == Request(line.verb, line.path)
    && exists i :: 0 <= i < |w.fields| && LastOf(w.fields, i, "host") && IsAllowedHost(w.fields[i].value)
  }

  predicate PrintsStatus(w: Wire, line: StatusLine) { ValidStatus(line) && w.start == PrintStatus(line) }

  lemma RequestWire(w: Wire, line: RequestLine, r: Request)
    requires PrintsRequest(w, line, r)
    ensures IsTracked(FrameOf(w)) && !IsResponse(FrameOf(w)) && RequestOf(FrameOf(w)) == r
  {
    hide IsAllowedHost, ParseStartLine, FieldMap, LastOf;
    RequestReadBack(line);
    var i :| 0 <= i < |w.fields| && LastOf(w.fields, i, "host") && IsAllowedHost(w.fields[i].value);
    LastInMap(w.fields, i, "host");
    EmptyIsNoHost();
  }

  lemma StatusWire(w: Wire, line: StatusLine)
    requires PrintsStatus(w, line)
    ensures IsResponse(FrameOf(w)) && !IsTracked(FrameOf(w))
    ensures ParseStartLine(FrameOf(w).head.start).status == Some(line.code)
  {
    hide ParseStartLine, IsAllowedHost;
    StatusReadBack(line);
  }

  /** What belongs to the messages that are not too large to hold. */
  function KeptOf<T>(ws: seq<Wire>, xs: seq<T>): seq<T>
    requires |xs| == |ws|
  {
    if ws == [] then [] else (if TooLarge(ws[0]) then [] else [xs[0]]) + KeptOf(ws[1..], xs[1..])
  }

  predicate AllRequests(ws: seq<Wire>, lines: seq<RequestLine>, asked: seq<Request>) {
    |lines| == |ws| && |asked| == |ws|
    && forall i :: 0 <= i < |ws| ==> PrintsRequest(ws[i], lines[i], asked[i])
  }

  predicate AllResponses(ws: seq<Wire>, lines: seq<StatusLine>) {
    |lines| == |ws| && forall i :: 0 <= i < |ws| ==> PrintsStatus(ws[i], lines[i])
  }

  lemma {:induction false} RequestsKept(ws: seq<Wire>, lines: seq<RequestLine>, asked: seq<Request>)
    requires AllRequests(ws, lines, asked)
    ensures Requests(Kept(ws)) == KeptOf(ws, asked)
    ensures forall f :: f in Kept(ws) ==> !IsResponse(f)
    decreases |ws|
  {
    hide PrintsRequest, TooLarge, IsTracked, IsResponse, RequestOf, FrameOf;
    if ws != [] {
      RequestWire(ws[0], lines[0], asked[0]);
      RequestsKept(ws[1..], lines[1..], asked[1..]);
      if TooLarge(ws[0]) {
        assert [] + Kept(ws[1..]) == Kept(ws[1..]) && [] + KeptOf(ws[1..], asked[1..]) == KeptOf(ws[1..], asked[1..]);
      } else {
        FirstOf(FrameOf(ws[0]), Kept(ws[1..]));
      }
    }
  }

  function Codes(lines: seq<StatusLine>): (codes: seq<nat>)
    ensures |codes| == |lines|
  {
    seq(|lines|, i requires 0 <= i < |lines| => lines[i].code)
  }

  /** The codes of the responses among the messages framed, in order. */
  function CodesIn(frames: seq<Frame>): seq<nat> {
    if frames == [] then [] else CodeOf(frames[0]) + CodesIn(frames[1..])
  }

  function CodeOf(frame: Frame): seq<nat> {
    var status := ParseStartLine(frame.head.start).status;
    if status.Some? then [status.value] else []
  }

  lemma FirstCode(frame: Frame, others: seq<Frame>)
    ensures CodesIn([frame] + others) == CodeOf(frame) + CodesIn(others)
  {
    hide CodeOf;
    assert ([frame] + others)[1..] == others;
  }

  lemma {:induction false} ResponsesKept(ws: seq<Wire>, lines: seq<StatusLine>)
    requires AllResponses(ws, lines)
    ensures CodesIn(Kept(ws)) == KeptOf(ws, Codes(lines)) && Responses(Kept(ws)) == |KeptOf(ws, Codes(lines))|
    ensures forall f :: f in Kept(ws) ==> !IsTracked(f)
    decreases |ws|
  {
    hide PrintsStatus, TooLarge, IsTracked, IsResponse, FrameOf, ParseStartLine, RequestOf;
    if ws != [] {
      StatusWire(ws[0], lines[0]);
      ResponsesKept(ws[1..], lines[1..]);
      assert Codes(lines)[1..] == Codes(lines[1..]);
      var rest, codes := Kept(ws[1..]), KeptOf(ws[1..], Codes(lines[1..]));
      if TooLarge(ws[0]) {
        assert [] + rest == rest && [] + codes == codes;
      } else {
        FirstOf(FrameOf(ws[0]), rest);
        FirstCode(FrameOf(ws[0]), rest);
      }
    }
  }

  // ----- the codes that come out -----

  /** The status codes of the observations among the messages, in order. */
  function Statuses(messages: seq<Message>): seq<nat> {
    if messages == [] then [] else StatusIn(messages[0]) + Statuses(messages[1..])
  }

  function StatusIn(m: Message): seq<nat> {
    if m.kind == Observation && m.status.Some? then [m.status.value] else []
  }

  lemma {:induction false} StatusesAppend(a: seq<Message>, b: seq<Message>)
    ensures Statuses(a + b) == Statuses(a) + Statuses(b)
    decreases |a|
  {
    hide StatusIn;
    if a == [] {
      assert a + b == b;
    } else {
      assert (a + b)[0] == a[0] && (a + b)[1..] == a[1..] + b;
      StatusesAppend(a[1..], b);
    }
  }

  lemma {:induction false} StatusesUnlabelled(messages: seq<Message>)
    ensures Statuses(AllUnlabelled(messages)) == Statuses(messages)
    decreases |messages|
  {
    if messages != [] {
      assert AllUnlabelled(messages)[1..] == AllUnlabelled(messages[1..]);
      StatusesUnlabelled(messages[1..]);
    }
  }

  lemma StatusesOfOne(codec: Codec, known: Option<string>, frame: Frame)
    requires HostFor(known, frame).Some? || ParseStartLine(frame.head.start).status.None?
    ensures Statuses(ExpectedOf(codec, known, frame)) == CodeOf(frame)
  {
    hide ParseStartLine, HostFor, IsStatsPath, BodyOf, CarriesRows;
    var out := ExpectedOf(codec, known, frame);
    if |out| > 1 {
      StatusesAppend(out[..1], out[1..]);
      assert out[..1] + out[1..] == out;
    }
  }

  lemma {:induction false} StatusesInOrder(codec: Codec, known: Option<string>, waiting: seq<Request>, frames: seq<Frame>)
    requires waiting != [] ==> known.Some? && IsAllowedHost(known.value)
    requires Orderly(codec, waiting, frames)
    ensures Statuses(ExpectedMessages(codec, known, frames)) == CodesIn(frames)
    decreases |frames|
  {
    hide IsAllowedHost, ParseStartLine, ExpectedOf, RequestOf, CodeOf, IsStatsBody, IsStatsRequest;
    if frames != [] {
      var frame, next := frames[0], LastNamed(known, [frames[0]]);
      NamedNext(known, frame);
      StatusesOfOne(codec, known, frame);
      StatusesInOrder(codec, next, if IsResponse(frame) then waiting[1..] else waiting + [RequestOf(frame)], frames[1..]);
      StatusesAppend(ExpectedOf(codec, known, frame), ExpectedMessages(codec, next, frames[1..]));
    }
  }

  lemma NamedNext(known: Option<string>, frame: Frame)
    ensures
      var next := LastNamed(known, [frame]);
      ((known.Some? && IsAllowedHost(known.value)) || IsTracked(frame) ==> next.Some? && IsAllowedHost(next.value))
      && (known.Some? && IsAllowedHost(known.value) && IsResponse(frame) ==> HostFor(known, frame).Some?)
  {
    hide IsAllowedHost, ParseStartLine;
    assert [frame][..0] == [];
    assert LastNamed(known, []) == known;
  }

  lemma {:induction false} CodesGoOneWay(ts: seq<Tagged>)
    requires forall f :: f in InDirection(ts, ToServer) ==> !IsResponse(f)
    ensures CodesIn(Untagged(ts)) == CodesIn(InDirection(ts, ToClient))
    decreases |ts|
  {
    if ts != [] {
      hide CodesIn, InDirection, ParseStartLine;
      var t, others := ts[0], Untagged(ts[1..]);
      FirstInDirection(ts);
      assert Untagged(ts) == [t.frame] + others;
      FirstCode(t.frame, others);
      if t.direction == ToServer {
        assert t.frame in InDirection(ts, ToServer);
        assert [] + CodesIn(others) == CodesIn(others);
      } else {
        FirstCode(t.frame, InDirection(ts[1..], ToClient));
      }
      assert forall f :: f in InDirection(ts[1..], ToServer) ==> f in InDirection(ts, ToServer);
      CodesGoOneWay(ts[1..]);
    }
  }

  /** End to end: the k-th printed response comes out with its printed code, labelled with
      the method and path of the k-th printed request, however both were cut and
      interleaved, as long as no more than sixteen wait at a time. */
  lemma PrintedDialogue(codec: Codec, states: seq<State>, events: seq<Event>, c: Id,
                        requests: seq<Wire>, lines: seq<RequestLine>, asked: seq<Request>,
                        responses: seq<Wire>, answers: seq<StatusLine>)
    requires IsRun(codec, states, events) && Inv(states[0])
    requires forall i :: 0 <= i < |events| ==> Spares(states[i], events[i], c)
    requires Local(states[0], c) == NEW_CONN && AsciiLaw(codec)
    requires Carries(CallsOf(events, c), ToServer, requests) && Carries(CallsOf(events, c), ToClient, responses)
    requires AllRequests(requests, lines, asked) && AllResponses(responses, answers)
    requires Orderly(codec, [], Untagged(Handled(codec, states[0], events, c)))
    ensures
      var kept, codes := KeptOf(requests, asked), KeptOf(responses, Codes(answers));
      |codes| <= |kept|
      && Labels(OutputOf(events, c)) == Known(kept[..|codes|])
      && Statuses(OutputOf(events, c)) == codes
  {
    hide Inv, IsStep, Spares, Carries, Kept, KeptOf, Orderly, Known, Labels, FramesOf, Requests, Responses;
    hide PrintsRequest, PrintsStatus, IsTracked, IsResponse, AbsorbAll, ExpectedMessages, Statuses, CodesIn;
    RequestsKept(requests, lines, asked);
    ResponsesKept(responses, answers);
    PrintedConversationPairs(codec, states, events, c, requests, responses);
    PrintedConversation(codec, states, events, c, requests, responses);
    var handled := Handled(codec, states[0], events, c);
    var talk := Local(states[0], c).talk;
    CodesGoOneWay(handled);
    StatusesInOrder(codec, talk.host, [], Untagged(handled));
    MessagesIgnorePairing(codec, talk, Untagged(handled));
    StatusesUnlabelled(AbsorbAll(codec, talk, Untagged(handled)).messages);
  }
}
