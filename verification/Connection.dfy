/** What one connection's framed messages turn into: host tracking, pairing of
    responses with requests, and the messages handed on. Written on values, so
    it is also the specification of the shared parser. */
module Connection {
  import opened Basics
  import opened Text
  import opened Codecs
  import opened Hosts
  import opened Framing

  const MAX_PENDING_REQUESTS: nat := 16
  const PLAYER_STATS_PATH := "/v1/pioneer/stats/player-v2"

  datatype Request = Request(verb: string, path: string)

  datatype StartLine = StartLine(verb: Option<string>, path: Option<string>, status: Option<nat>)

  function Nth(words: seq<string>, n: nat): Option<string> {
    if n < |words| then Some(words[n]) else None
  }

  function ParseStartLine(line: string): StartLine {
    var words := Words(line);
    if "HTTP/" <= line then
      StartLine(None, None,
        match Nth(words, 1)
        case None => None
        case Some(code) => ParseUnsigned(code, 10, U64_MAX))
    else StartLine(Nth(words, 0), Nth(words, 1), None)
  }

  datatype Kind = StatsStreamReady | PlayerStatsResponse | Observation

  datatype Message = Message(kind: Kind, host: string, verb: Option<string>, path: Option<string>,
                             status: Option<nat>, contentType: Option<string>,
                             shape: Option<string>, stats: Option<string>)

  function Header(frame: Frame, name: string): Option<string> {
    if name in frame.head.headers then Some(frame.head.headers[name]) else None
  }

  // ----- the parts of one message's handling -----

  /** The host a message belongs to, and the host remembered afterwards. */
  datatype HostUse = HostUse(host: string, remembered: Option<string>)

  predicate NamesApiHost(frame: Frame) {
    var host := Header(frame, "host").GetOr("");
    host != "" && IsAllowedHost(host)
  }

  function UseHost(known: Option<string>, frame: Frame): HostUse {
    var host := Header(frame, "host").GetOr("");
    if NamesApiHost(frame) then HostUse(host, Some(host))
    else if ParseStartLine(frame.head.start).status.Some? then HostUse(known.GetOr(""), known)
    else HostUse(host, known)
  }

  /** The tag a message gets from the queue, and the queue afterwards. */
  datatype Paired = Paired(verb: Option<string>, path: Option<string>, pending: seq<Request>)

  function Pair(line: StartLine, pending: seq<Request>): Paired {
    if line.verb.Some? && line.path.Some? then
      var room := if |pending| >= MAX_PENDING_REQUESTS then pending[1..] else pending;
      Paired(line.verb, line.path, room + [Request(line.verb.value, line.path.value)])
    else if line.status.Some? && pending != [] then
      Paired(Some(pending[0].verb), Some(pending[0].path), pending[1..])
    else Paired(line.verb, line.path, pending)
  }

  predicate IsStatsRequest(verb: Option<string>, path: Option<string>) {
    verb == Some("POST") && path.Some? && Before(path.value, '?') == PLAYER_STATS_PATH
  }

  /** Statistics rows are present, not just the scope that should hold them. */
  predicate HasStats(document: Document) {
    document.scopes.Some? && document.scopes.value != []
    && document.scopes.value[0].rows.Some? && document.scopes.value[0].rows.value != []
  }

  function DocumentOf(codec: Codec, frame: Frame): Option<Document> {
    codec.document(frame.body, Header(frame, "content-encoding"))
  }

  /** A response whose body is the statistics. */
  predicate IsStatsBody(codec: Codec, frame: Frame) {
    ParseStartLine(frame.head.start).status.Some?
    && DocumentOf(codec, frame).Some? && HasStats(DocumentOf(codec, frame).value)
  }

  /** A body that contradicts its tag empties the queue and names itself. */
  function Resynchronise(codec: Codec, frame: Frame, paired: Paired): Paired {
    if IsStatsBody(codec, frame) && !IsStatsRequest(paired.verb, paired.path)
    then Paired(Some("POST"), Some(PLAYER_STATS_PATH), [])
    else paired
  }

  predicate IsSuccess(status: Option<nat>) { status.Some? && 200 <= status.value < 300 }

  /** The messages handed on for one framed message with its settled tag. */
  function Emit(codec: Codec, frame: Frame, host: string, first: Paired, tag: Paired): seq<Message> {
    var status := ParseStartLine(frame.head.start).status;
    var contentType := Header(frame, "content-type");
    var document := DocumentOf(codec, frame);
    (if status.None? && IsStatsRequest(first.verb, first.path)
     then [Message(StatsStreamReady, host, first.verb, first.path, status, contentType, None, None)]
     else [])
    + (if IsSuccess(status) && IsStatsBody(codec, frame)
       then [Message(PlayerStatsResponse, host, tag.verb, tag.path, status, contentType, None,
                     Some(document.value.text))]
       else [])
    + [Message(Observation, host, tag.verb, tag.path, status, contentType,
               if document.Some? then document.value.shape else None, None)]
  }

  // ----- one message, and a sequence of them -----

  /** What is remembered about a connection between messages. */
  datatype Talk = Talk(host: Option<string>, pending: seq<Request>)

  datatype Absorbed = Absorbed(talk: Talk, messages: seq<Message>)

  function Absorb(codec: Codec, talk: Talk, frame: Frame): Absorbed {
    var use := UseHost(talk.host, frame);
    if !IsAllowedHost(use.host) then Absorbed(Talk(use.remembered, talk.pending), [])
    else
      var first := Pair(ParseStartLine(frame.head.start), talk.pending);
      var tag := Resynchronise(codec, frame, first);
      Absorbed(Talk(use.remembered, tag.pending), Emit(codec, frame, use.host, first, tag))
  }

  function AbsorbAll(codec: Codec, talk: Talk, frames: seq<Frame>): Absorbed
    decreases |frames|
  {
    if frames == [] then Absorbed(talk, [])
    else
      var first := Absorb(codec, talk, frames[0]);
      var others := AbsorbAll(codec, first.talk, frames[1..]);
      Absorbed(others.talk, first.messages + others.messages)
  }

  lemma {:induction false} AbsorbAppend(codec: Codec, talk: Talk, a: seq<Frame>, b: seq<Frame>)
    ensures
      var first := AbsorbAll(codec, talk, a);
      var others := AbsorbAll(codec, first.talk, b);
      AbsorbAll(codec, talk, a + b) == Absorbed(others.talk, first.messages + others.messages)
    decreases |a|
  {
    hide Absorb;
    if a == [] {
      assert a + b == b;
    } else {
      var first := Absorb(codec, talk, a[0]);
      assert (a + b)[0] == a[0] && (a + b)[1..] == a[1..] + b;
      AbsorbAppend(codec, first.talk, a[1..], b);
    }
  }

  // ----- one connection as a machine of its own -----

  datatype Direction = ToServer | ToClient

  datatype Conn = Conn(toServer: Link, toClient: Link, talk: Talk) {
    function Link(direction: Direction): Link {
      match direction
      case ToServer => toServer
      case ToClient => toClient
    }

    function WithLink(direction: Direction, link: Link): Conn {
      match direction
      case ToServer => this.(toServer := link)
      case ToClient => this.(toClient := link)
    }

    predicate Valid() { ValidLink(toServer) && ValidLink(toClient) }
  }

  const NEW_CONN: Conn := Conn(FRESH, FRESH, Talk(None, []))

  datatype Call = Call(direction: Direction, data: bytes)

  datatype Reply = Reply(conn: Conn, messages: seq<Message>)

  /** One call for a connection that shares nothing with any other. */
  function ConnStep(codec: Codec, conn: Conn, call: Call): (r: Reply)
    requires conn.Valid()
    ensures r.conn.Valid()
  {
    var fed := Feed(codec, conn.Link(call.direction), call.data);
    var absorbed := AbsorbAll(codec, conn.talk, fed.frames);
    Reply(conn.WithLink(call.direction, fed.link).(talk := absorbed.talk), absorbed.messages)
  }

  function ConnRun(codec: Codec, conn: Conn, calls: seq<Call>): (r: Reply)
    requires conn.Valid()
    ensures r.conn.Valid()
    decreases |calls|
  {
    if calls == [] then Reply(conn, [])
    else
      var first := ConnStep(codec, conn, calls[0]);
      var others := ConnRun(codec, first.conn, calls[1..]);
      Reply(others.conn, first.messages + others.messages)
  }
}

/** Pairing and emission over whole runs of one connection. */
module Pairing {
  import opened Basics
  import opened Codecs
  import opened Hosts
  import opened Framing
  import opened Connection

  // ----- first in, first out -----

  predicate IsResponse(frame: Frame) { ParseStartLine(frame.head.start).status.Some? }

  /** A request that can be paired: it names an API host and has both parts. */
  predicate IsTracked(frame: Frame) {
    var line := ParseStartLine(frame.head.start);
    NamesApiHost(frame) && line.verb.Some? && line.path.Some?
  }

  function RequestOf(frame: Frame): Request
    requires IsTracked(frame)
  {
    var line := ParseStartLine(frame.head.start);
    Request(line.verb.value, line.path.value)
  }

  /** The requests of a run, in order. */
  function Requests(frames: seq<Frame>): seq<Request> {
    if frames == [] then []
    else (if IsTracked(frames[0]) then [RequestOf(frames[0])] else []) + Requests(frames[1..])
  }

  function Responses(frames: seq<Frame>): nat {
    if frames == [] then 0
    else (if IsResponse(frames[0]) then 1 else 0) + Responses(frames[1..])
  }

  /** Nothing is lost and statistics come only where they were asked for:
      `outstanding` counts from the requests already waiting. */
  predicate Orderly(codec: Codec, waiting: seq<Request>, frames: seq<Frame>)
    decreases |frames|
  {
    frames == []
    || if IsResponse(frames[0]) then
         waiting != []
         && (IsStatsBody(codec, frames[0]) ==> IsStatsRequest(Some(waiting[0].verb), Some(waiting[0].path)))
         && Orderly(codec, waiting[1..], frames[1..])
       else
         IsTracked(frames[0]) && |waiting| < MAX_PENDING_REQUESTS
         && Orderly(codec, waiting + [RequestOf(frames[0])], frames[1..])
  }

  /** The labels of the responses among the messages, in order. */
  function Labels(messages: seq<Message>): seq<Option<Request>> {
    if messages == [] then [] else LabelIn(messages[0]) + Labels(messages[1..])
  }

  function LabelIn(m: Message): seq<Option<Request>> {
    if m.kind == Observation && m.status.Some? then
      [if m.verb.Some? && m.path.Some? then Some(Request(m.verb.value, m.path.value)) else None]
    else []
  }

  lemma {:induction false} LabelsAppend(a: seq<Message>, b: seq<Message>)
    ensures Labels(a + b) == Labels(a) + Labels(b)
    decreases |a|
  {
    hide LabelIn;
    if a == [] {
      assert a + b == b;
    } else {
      assert (a + b)[0] == a[0] && (a + b)[1..] == a[1..] + b;
      LabelsAppend(a[1..], b);
    }
  }

  function Known(requests: seq<Request>): (r: seq<Option<Request>>)
    ensures |r| == |requests|
  {
    seq(|requests|, i requires 0 <= i < |requests| => Some(requests[i]))
  }

  /** One response of an orderly run takes its tag from the front of the queue. */
  lemma AbsorbResponse(codec: Codec, talk: Talk, frame: Frame)
    requires talk.host.Some? && IsAllowedHost(talk.host.value) && IsResponse(frame) && talk.pending != []
    requires IsStatsBody(codec, frame)
             ==> IsStatsRequest(Some(talk.pending[0].verb), Some(talk.pending[0].path))
    ensures
      var r := Absorb(codec, talk, frame);
      r.talk.host.Some? && IsAllowedHost(r.talk.host.value)
      && r.talk.pending == talk.pending[1..]
      && Labels(r.messages) == [Some(talk.pending[0])]
  {
    hide ParseStartLine, IsAllowedHost, IsStatsRequest;
    ResponseHasNoMethod(frame);
    var first := Pair(ParseStartLine(frame.head.start), talk.pending);
    var r := Absorb(codec, talk, frame);
    assert Resynchronise(codec, frame, first) == first;
    LabelsOfEmit(codec, frame, UseHost(talk.host, frame).host, first, first);
  }

  lemma ResponseHasNoMethod(frame: Frame)
    requires IsResponse(frame)
    ensures ParseStartLine(frame.head.start).verb.None?
  {
  }

  lemma LabelsOfEmit(codec: Codec, frame: Frame, host: string, first: Paired, tag: Paired)
    ensures Labels(Emit(codec, frame, host, first, tag))
         == if IsResponse(frame) then
              [if tag.verb.Some? && tag.path.Some?
               then Some(Request(tag.verb.value, tag.path.value)) else None]
            else []
  {
    hide ParseStartLine, IsStatsRequest, IsStatsBody, DocumentOf;
    var status := ParseStartLine(frame.head.start).status;
    var out := Emit(codec, frame, host, first, tag);
    var n := |out|;
    assert out[n - 1..][1..] == [];
    assert out == out[..n - 1] + out[n - 1..];
    forall i | 0 <= i < n - 1
      ensures out[i].kind != Observation
    {
    }
    NoLabels(out[..n - 1]);
    LabelsAppend(out[..n - 1], out[n - 1..]);
  }

  lemma {:induction false} NoLabels(messages: seq<Message>)
    requires forall i :: 0 <= i < |messages| ==> messages[i].kind != Observation
    ensures Labels(messages) == []
  {
    if messages != [] { NoLabels(messages[1..]); }
  }

  lemma AbsorbRequest(codec: Codec, talk: Talk, frame: Frame)
    requires IsTracked(frame) && !IsResponse(frame) && |talk.pending| < MAX_PENDING_REQUESTS
    ensures
      var r := Absorb(codec, talk, frame);
      r.talk.host.Some? && IsAllowedHost(r.talk.host.value)
      && r.talk.pending == talk.pending + [RequestOf(frame)]
      && Labels(r.messages) == []
  {
    hide ParseStartLine, IsAllowedHost, IsStatsRequest;
    var first := Pair(ParseStartLine(frame.head.start), talk.pending);
    LabelsOfEmit(codec, frame, UseHost(talk.host, frame).host, first, first);
  }

  /** First in, first out: in an orderly run the k-th response carries the k-th
      request, counting the requests that were already waiting. */
  lemma {:induction false} PairingIsFifo(codec: Codec, talk: Talk, frames: seq<Frame>)
    requires talk.pending != [] ==> talk.host.Some? && IsAllowedHost(talk.host.value)
    requires Orderly(codec, talk.pending, frames)
    ensures
      var all := talk.pending + Requests(frames);
      Responses(frames) <= |all|
      && Labels(AbsorbAll(codec, talk, frames).messages) == Known(all[..Responses(frames)])
    decreases |frames|
  {
    hide IsTracked, IsResponse, Absorb, IsAllowedHost, IsStatsBody, Known, Labels, RequestOf, IsStatsRequest;
    if frames == [] {
      NothingKnown(talk.pending + Requests(frames));
    } else {
      var r := Absorb(codec, talk, frames[0]);
      LabelsAppend(r.messages, AbsorbAll(codec, r.talk, frames[1..]).messages);
      if IsResponse(frames[0]) {
        AbsorbResponse(codec, talk, frames[0]);
        PairingIsFifo(codec, r.talk, frames[1..]);
        ResponseIsNotTracked(frames[0]);
        assert [] + Requests(frames[1..]) == Requests(frames[1..]);
        KnownTail(talk.pending, Requests(frames[1..]), Responses(frames[1..]));
      } else {
        AbsorbRequest(codec, talk, frames[0]);
        PairingIsFifo(codec, r.talk, frames[1..]);
        assert talk.pending + ([RequestOf(frames[0])] + Requests(frames[1..]))
            == r.talk.pending + Requests(frames[1..]);
        assert [] + Labels(AbsorbAll(codec, r.talk, frames[1..]).messages)
            == Labels(AbsorbAll(codec, r.talk, frames[1..]).messages);
      }
    }
  }

  lemma NothingKnown(all: seq<Request>)
    ensures Known(all[..0]) == [] == Labels([])
  {
  }

  lemma KnownTail(waiting: seq<Request>, requests: seq<Request>, n: nat)
    requires waiting != [] && n <= |waiting[1..] + requests|
    ensures Known((waiting + requests)[..n + 1])
         == [Some(waiting[0])] + Known((waiting[1..] + requests)[..n])
  {
    assert (waiting + requests)[..n + 1] == [waiting[0]] + (waiting[1..] + requests)[..n];
  }

  lemma ResponseIsNotTracked(frame: Frame)
    requires IsResponse(frame)
    ensures !IsTracked(frame)
  {
  }

  /** After a statistics body under a wrong tag, the message names itself and
      the queue is empty, so whatever orderly run follows is paired from scratch. */
  lemma DriftRecovers(codec: Codec, talk: Talk, stray: Frame, later: seq<Frame>)
    requires IsAllowedHost(UseHost(talk.host, stray).host) && IsStatsBody(codec, stray)
    requires var tag := Pair(ParseStartLine(stray.head.start), talk.pending);
             !IsStatsRequest(tag.verb, tag.path)
    requires Orderly(codec, [], later)
    ensures Responses(later) <= |Requests(later)|
    ensures
      var after := AbsorbAll(codec, talk, [stray] + later);
      Labels(after.messages)
      == [Some(Request("POST", PLAYER_STATS_PATH))] + Known(Requests(later)[..Responses(later)])
  {
    hide ParseStartLine, IsAllowedHost, IsStatsRequest, Orderly, DocumentOf;
    var r := Absorb(codec, talk, stray);
    var first := Pair(ParseStartLine(stray.head.start), talk.pending);
    var tag := Resynchronise(codec, stray, first);
    assert r.talk.pending == [];
    LabelsOfEmit(codec, stray, UseHost(talk.host, stray).host, first, tag);
    assert [] + Requests(later) == Requests(later);
    PairingIsFifo(codec, r.talk, later);
    assert ([stray] + later)[1..] == later;
    LabelsAppend(r.messages, AbsorbAll(codec, r.talk, later).messages);
  }

  // ----- more requests than the queue holds -----

  /** Whatever the queue, a request leaves the newest sixteen waiting. */
  lemma RequestLeavesTheNewest(codec: Codec, talk: Talk, frame: Frame)
    requires IsTracked(frame) && !IsResponse(frame) && |talk.pending| <= MAX_PENDING_REQUESTS
    ensures
      var r := Absorb(codec, talk, frame);
      r.talk.host.Some? && IsAllowedHost(r.talk.host.value)
      && r.talk.pending == LastFew(talk.pending + [RequestOf(frame)], 16)
      && Labels(r.messages) == []
  {
    hide ParseStartLine, IsAllowedHost, IsStatsRequest;
    var first := Pair(ParseStartLine(frame.head.start), talk.pending);
    LabelsOfEmit(codec, frame, UseHost(talk.host, frame).host, first, first);
  }

  predicate AreRequests(frames: seq<Frame>) {
    forall f :: f in frames ==> IsTracked(f) && !IsResponse(f)
  }

  /** Over any number of requests, the newest sixteen wait. */
  lemma {:induction false} QueueKeepsTheNewest(codec: Codec, talk: Talk, frames: seq<Frame>)
    requires |talk.pending| <= MAX_PENDING_REQUESTS && AreRequests(frames)
    ensures
      var r := AbsorbAll(codec, talk, frames);
      r.talk.pending == LastFew(talk.pending + Requests(frames), 16)
      && Labels(r.messages) == [] && |Requests(frames)| == |frames|
      && (frames != [] ==> r.talk.host.Some? && IsAllowedHost(r.talk.host.value))
      && (frames == [] ==> r.talk == talk)
    decreases |frames|
  {
    hide IsTracked, IsResponse, Absorb, IsAllowedHost, RequestOf, Labels, LastFew;
    if frames == [] {
      assert talk.pending + Requests(frames) == talk.pending;
      AllOfFew(talk.pending);
      NothingKnown(talk.pending);
    } else {
      assert frames[0] in frames;
      RequestLeavesTheNewest(codec, talk, frames[0]);
      var r := Absorb(codec, talk, frames[0]);
      AllOfFew(talk.pending + [RequestOf(frames[0])]);
      QueueKeepsTheNewest(codec, r.talk, frames[1..]);
      LabelsAppend(r.messages, AbsorbAll(codec, r.talk, frames[1..]).messages);
      LastOfLast(talk.pending + [RequestOf(frames[0])], Requests(frames[1..]), 16);
      assert talk.pending + Requests(frames)
          == talk.pending + [RequestOf(frames[0])] + Requests(frames[1..]);
    }
  }

  lemma AllOfFew(pending: seq<Request>)
    ensures |pending| <= 16 ==> LastFew(pending, 16) == pending
    ensures |LastFew(pending, 16)| <= 16
  {
  }

  /** After any number of requests, the responses that follow in order are labelled from
      the newest sixteen on: what overflowed is forgotten, oldest first. */
  lemma PairingAfterOverflow(codec: Codec, talk: Talk, requests: seq<Frame>, later: seq<Frame>)
    requires |talk.pending| <= MAX_PENDING_REQUESTS && requests != [] && AreRequests(requests)
    requires Orderly(codec, LastFew(talk.pending + Requests(requests), 16), later)
    ensures
      var all := LastFew(talk.pending + Requests(requests), 16) + Requests(later);
      Responses(later) <= |all|
      && Labels(AbsorbAll(codec, talk, requests + later).messages) == Known(all[..Responses(later)])
  {
    hide Orderly, Known, Labels, LastFew, IsAllowedHost, AbsorbAll;
    QueueKeepsTheNewest(codec, talk, requests);
    var r := AbsorbAll(codec, talk, requests);
    AbsorbAppend(codec, talk, requests, later);
    PairingIsFifo(codec, r.talk, later);
    LabelsAppend(r.messages, AbsorbAll(codec, r.talk, later).messages);
    var labels := Labels(AbsorbAll(codec, r.talk, later).messages);
    assert [] + labels == labels;
  }

  /** A response nothing waits for has no label. */
  lemma UnaskedHasNoLabel(codec: Codec, talk: Talk, frame: Frame)
    requires talk.host.Some? && IsAllowedHost(talk.host.value) && IsResponse(frame) && talk.pending == []
    requires !IsStatsBody(codec, frame)
    ensures Labels(Absorb(codec, talk, frame).messages) == [None]
    ensures Absorb(codec, talk, frame).talk.pending == []
  {
    hide ParseStartLine, IsAllowedHost, IsStatsRequest;
    ResponseHasNoMethod(frame);
    var first := Pair(ParseStartLine(frame.head.start), talk.pending);
    LabelsOfEmit(codec, frame, UseHost(talk.host, frame).host, first, first);
  }
}

/** The statistics responses handed on depend on hosts and bodies alone. */
module Emission {
  import opened Basics
  import opened Text
  import opened Codecs
  import opened Hosts
  import opened Framing
  import opened Connection

  datatype Statistics = Statistics(host: string, status: Option<nat>, contentType: Option<string>,
                                   body: Option<string>)

  /** The statistics responses among the messages, in order. */
  function StatisticsOf(messages: seq<Message>): seq<Statistics> {
    if messages == [] then [] else StatisticsIn(messages[0]) + StatisticsOf(messages[1..])
  }

  function StatisticsIn(m: Message): seq<Statistics> {
    if m.kind == PlayerStatsResponse then [Statistics(m.host, m.status, m.contentType, m.stats)] else []
  }

  // ----- the reference: what should come out, with no queue in sight -----

  predicate IsFromGame(frame: Frame) {
    "host" in frame.head.headers && IsAllowedHost(frame.head.headers["host"])
  }

  /** The game's host a message belongs to: the one it names, or for a response the one
      its connection named last. */
  function HostFor(known: Option<string>, frame: Frame): Option<string> {
    if IsFromGame(frame) then Some(frame.head.headers["host"])
    else if ParseStartLine(frame.head.start).status.Some? && known.Some? && IsAllowedHost(known.value) then known
    else None
  }

  /** The host a connection named last. */
  function LastNamed(known: Option<string>, frames: seq<Frame>): Option<string> {
    if frames == [] then known
    else if IsFromGame(frames[|frames| - 1]) then Some(frames[|frames| - 1].head.headers["host"])
    else LastNamed(known, frames[..|frames| - 1])
  }

  function BodyOf(codec: Codec, frame: Frame): Option<Document> {
    codec.document(frame.body, Header(frame, "content-encoding"))
  }

  /** The first scope of the body holds at least one row. */
  predicate CarriesRows(codec: Codec, frame: Frame) {
    var body := BodyOf(codec, frame);
    body.Some? && body.value.scopes.Some? && body.value.scopes.value != []
    && body.value.scopes.value[0].rows.Some? && body.value.scopes.value[0].rows.value != []
  }

  predicate IsTwoHundred(status: Option<nat>) { status.Some? && 200 <= status.value <= 299 }

  /** The statistics path, with or without a query. */
  predicate IsStatsPath(path: string) {
    path == "/v1/pioneer/stats/player-v2" || "/v1/pioneer/stats/player-v2?" <= path
  }

  function Expected(codec: Codec, known: Option<string>, frames: seq<Frame>): seq<Statistics>
    decreases |frames|
  {
    if frames == [] then []
    else
      var frame, host := frames[0], HostFor(known, frames[0]);
      var status := ParseStartLine(frame.head.start).status;
      (if host.Some? && IsTwoHundred(status) && CarriesRows(codec, frame)
       then [Statistics(host.value, status, Header(frame, "content-type"), Some(BodyOf(codec, frame).value.text))]
       else [])
      + Expected(codec, LastNamed(known, [frame]), frames[1..])
  }

  /** Everything a message is handed on as, labels of responses aside: first that a
      statistics request was made, or the statistics; and always an observation. */
  function ExpectedOf(codec: Codec, known: Option<string>, frame: Frame): seq<Message> {
    var line, host := ParseStartLine(frame.head.start), HostFor(known, frame);
    var kind, body := Header(frame, "content-type"), BodyOf(codec, frame);
    if host.None? then []
    else
      (if line.status.None? && line.verb == Some("POST") && line.path.Some? && IsStatsPath(line.path.value)
       then [Message(StatsStreamReady, host.value, line.verb, line.path, None, kind, None, None)]
       else [])
      + (if IsTwoHundred(line.status) && CarriesRows(codec, frame)
         then [Message(PlayerStatsResponse, host.value, None, None, line.status, kind, None, Some(body.value.text))]
         else [])
      + [Message(Observation, host.value, line.verb, line.path, line.status, kind,
                 if body.Some? then body.value.shape else None, None)]
  }

  function ExpectedMessages(codec: Codec, known: Option<string>, frames: seq<Frame>): seq<Message>
    decreases |frames|
  {
    if frames == [] then []
    else ExpectedOf(codec, known, frames[0]) + ExpectedMessages(codec, LastNamed(known, [frames[0]]), frames[1..])
  }

  /** A message without the label a response got from the queue. */
  function Unlabelled(m: Message): Message { if m.status.Some? then m.(verb := None, path := None) else m }

  function AllUnlabelled(messages: seq<Message>): (ms: seq<Message>)
    ensures |ms| == |messages|
  {
    seq(|messages|, i requires 0 <= i < |messages| => Unlabelled(messages[i]))
  }

  lemma StatsPathIs(path: string)
    ensures Before(path, '?') == PLAYER_STATS_PATH <==> IsStatsPath(path)
  {
    var p, e := PLAYER_STATS_PATH, Search.Find(path, "?");
    NoQuestionMark();
    FirstMark(path);
    if e.Some? {
      assert path[..e.value + 1] == path[..e.value] + "?";
    }
    if "/v1/pioneer/stats/player-v2?" <= path {
      assert path[|p|] == '?' && path[..|p|] == p;
      assert forall j :: 0 <= j < |p| ==> path[j] == p[j] && p[j] in p;
      assert e == Some(|p|);
    }
  }

  /** Before the first question mark there is none. */
  lemma FirstMark(path: string)
    ensures
      match Search.Find(path, "?")
      case None => forall j :: 0 <= j < |path| ==> path[j] != '?'
      case Some(e) => e < |path| && path[e] == '?' && forall j :: 0 <= j < e ==> path[j] != '?'
  {
    forall j | 0 <= j < |path|
      ensures path[j] == '?' <==> Search.At(path, "?", j)
    {
      assert path[j..j + 1] == [path[j]];
    }
  }

  lemma NoQuestionMark()
    ensures '?' !in PLAYER_STATS_PATH && PLAYER_STATS_PATH + "?" == "/v1/pioneer/stats/player-v2?"
  {
  }

  lemma HostForIs(known: Option<string>, frame: Frame)
    ensures
      var use := UseHost(known, frame);
      (IsAllowedHost(use.host) <==> HostFor(known, frame).Some?)
      && (IsAllowedHost(use.host) ==> HostFor(known, frame) == Some(use.host))
      && use.remembered == LastNamed(known, [frame])
  {
    hide ParseStartLine;
    EmptyIsNoHost();
    assert [frame][..0] == [];
    assert LastNamed(known, []) == known;
  }

  lemma EmptyIsNoHost()
    ensures !IsAllowedHost("")
  {
  }

  lemma EmitIsExpected(codec: Codec, talk: Talk, frame: Frame)
    ensures AllUnlabelled(Absorb(codec, talk, frame).messages) == ExpectedOf(codec, talk.host, frame)
  {
    hide ParseStartLine, IsAllowedHost, UseHost, IsStatsRequest, IsStatsPath, HostFor;
    HostForIs(talk.host, frame);
    var line := ParseStartLine(frame.head.start);
    LineIsOneOrOther(frame);
    var first := Pair(line, talk.pending);
    StatsRequestIs(first.verb, first.path);
  }

  lemma StatsRequestIs(verb: Option<string>, path: Option<string>)
    ensures IsStatsRequest(verb, path) <==> verb == Some("POST") && path.Some? && IsStatsPath(path.value)
  {
    if path.Some? { StatsPathIs(path.value); }
  }

  lemma LineIsOneOrOther(frame: Frame)
    ensures ParseStartLine(frame.head.start).status.Some? ==>
      ParseStartLine(frame.head.start).verb.None? && ParseStartLine(frame.head.start).path.None?
  {
  }

  /** Whatever waits in the queue, exactly the expected messages come out, in order. */
  lemma {:induction false} MessagesIgnorePairing(codec: Codec, talk: Talk, frames: seq<Frame>)
    ensures AllUnlabelled(AbsorbAll(codec, talk, frames).messages) == ExpectedMessages(codec, talk.host, frames)
    ensures AbsorbAll(codec, talk, frames).talk.host == LastNamed(talk.host, frames)
    decreases |frames|
  {
    hide ParseStartLine, IsAllowedHost, Emit, UseHost, Pair, Resynchronise, Unlabelled, ExpectedOf, IsFromGame;
    if frames != [] {
      var r := Absorb(codec, talk, frames[0]);
      HostForIs(talk.host, frames[0]);
      EmitIsExpected(codec, talk, frames[0]);
      MessagesIgnorePairing(codec, r.talk, frames[1..]);
      LastOfAll(talk.host, frames);
    }
  }

  lemma {:induction false} LastOfAll(known: Option<string>, frames: seq<Frame>)
    requires frames != []
    ensures LastNamed(known, frames) == LastNamed(LastNamed(known, [frames[0]]), frames[1..])
    decreases |frames|
  {
    hide IsFromGame;
    var n := |frames| - 1;
    if n == 0 {
      assert frames == [frames[0]];
    } else {
      assert frames[1..][..n - 1] == frames[..n][1..];
      LastOfAll(known, frames[..n]);
    }
  }

  lemma {:induction false} StatisticsAppend(a: seq<Message>, b: seq<Message>)
    ensures StatisticsOf(a + b) == StatisticsOf(a) + StatisticsOf(b)
    decreases |a|
  {
    hide StatisticsIn;
    if a == [] {
      assert a + b == b;
    } else {
      assert (a + b)[0] == a[0] && (a + b)[1..] == a[1..] + b;
      StatisticsAppend(a[1..], b);
    }
  }

  lemma StatisticsOfExpected(codec: Codec, known: Option<string>, frame: Frame)
    ensures StatisticsOf(ExpectedOf(codec, known, frame)) == Expected(codec, known, [frame])
  {
    hide ParseStartLine, HostFor, IsStatsPath, BodyOf, CarriesRows, LastNamed;
    var out := ExpectedOf(codec, known, frame);
    assert [frame][1..] == [];
    assert Expected(codec, LastNamed(known, [frame]), []) == [];
    if |out| > 1 {
      StatisticsAppend(out[..1], out[1..]);
      assert out[..1] + out[1..] == out;
    }
  }

  lemma FirstExpected(codec: Codec, known: Option<string>, frames: seq<Frame>)
    requires frames != []
    ensures Expected(codec, known, frames)
         == Expected(codec, known, [frames[0]]) + Expected(codec, LastNamed(known, [frames[0]]), frames[1..])
  {
    hide HostFor, CarriesRows, LastNamed, BodyOf, ParseStartLine;
    assert [frames[0]][1..] == [];
    assert Expected(codec, LastNamed(known, [frames[0]]), []) == [];
  }

  lemma {:induction false} StatisticsOfAll(codec: Codec, known: Option<string>, frames: seq<Frame>)
    ensures StatisticsOf(ExpectedMessages(codec, known, frames)) == Expected(codec, known, frames)
    decreases |frames|
  {
    hide ExpectedOf, Expected, LastNamed;
    if frames == [] {
      NothingExpected(codec, known);
    } else {
      var next := LastNamed(known, [frames[0]]);
      FirstExpected(codec, known, frames);
      StatisticsOfExpected(codec, known, frames[0]);
      StatisticsOfAll(codec, next, frames[1..]);
      StatisticsAppend(ExpectedOf(codec, known, frames[0]), ExpectedMessages(codec, next, frames[1..]));
    }
  }

  lemma NothingExpected(codec: Codec, known: Option<string>)
    ensures Expected(codec, known, []) == []
  {
  }

  lemma {:induction false} LabelsDoNotMatter(messages: seq<Message>)
    ensures StatisticsOf(AllUnlabelled(messages)) == StatisticsOf(messages)
    decreases |messages|
  {
    if messages != [] {
      assert AllUnlabelled(messages)[1..] == AllUnlabelled(messages[1..]);
      LabelsDoNotMatter(messages[1..]);
    }
  }

  /** Whatever waits in the queue, exactly the expected statistics come out. */
  lemma EmissionIgnoresPairing(codec: Codec, talk: Talk, frames: seq<Frame>)
    ensures StatisticsOf(AbsorbAll(codec, talk, frames).messages) == Expected(codec, talk.host, frames)
  {
    hide AbsorbAll, ExpectedMessages, Expected, StatisticsOf;
    MessagesIgnorePairing(codec, talk, frames);
    StatisticsOfAll(codec, talk.host, frames);
    LabelsDoNotMatter(AbsorbAll(codec, talk, frames).messages);
  }

  lemma AbsorbNothing(codec: Codec, talk: Talk)
    ensures AbsorbAll(codec, talk, []) == Absorbed(talk, [])
  {
  }

  /** The host remembered after a run, without the queue. */
  lemma {:induction false} HostIgnoresPairing(codec: Codec, host: Option<string>, p1: seq<Request>,
                                              p2: seq<Request>, frames: seq<Frame>)
    ensures AbsorbAll(codec, Talk(host, p1), frames).talk.host
         == AbsorbAll(codec, Talk(host, p2), frames).talk.host
    decreases |frames|
  {
    if frames != [] {
      var r1 := Absorb(codec, Talk(host, p1), frames[0]);
      var r2 := Absorb(codec, Talk(host, p2), frames[0]);
      HostIgnoresPairing(codec, r1.talk.host, r1.talk.pending, r2.talk.pending, frames[1..]);
    }
  }

  /** Two connections that differ only in what waits for a response hand on the
      same statistics over every sequence of calls. */
  lemma {:induction false} RunsIgnorePairing(codec: Codec, c1: Conn, c2: Conn, calls: seq<Call>)
    requires c1.Valid() && c2.Valid()
    requires c1 == c2.(talk := c2.talk.(pending := c1.talk.pending))
    ensures StatisticsOf(ConnRun(codec, c1, calls).messages)
         == StatisticsOf(ConnRun(codec, c2, calls).messages)
    decreases |calls|
  {
    hide Feed, AbsorbAll;
    if calls != [] {
      var r1, r2 := ConnStep(codec, c1, calls[0]), ConnStep(codec, c2, calls[0]);
      var frames := Feed(codec, c1.Link(calls[0].direction), calls[0].data).frames;
      EmissionIgnoresPairing(codec, c1.talk, frames);
      EmissionIgnoresPairing(codec, c2.talk, frames);
      HostIgnoresPairing(codec, c1.talk.host, c1.talk.pending, c2.talk.pending, frames);
      RunsIgnorePairing(codec, r1.conn, r2.conn, calls[1..]);
      StatisticsAppend(r1.messages, ConnRun(codec, r1.conn, calls[1..]).messages);
      StatisticsAppend(r2.messages, ConnRun(codec, r2.conn, calls[1..]).messages);
    }
  }

  /** What every statistics response says about itself. */
  predicate IsSound(m: Message) {
    m.kind == PlayerStatsResponse ==>
      m.verb == Some("POST") && m.path.Some? && IsStatsPath(m.path.value)
      && IsAllowedHost(m.host) && IsTwoHundred(m.status) && m.stats.Some?
  }

  lemma {:induction false} EmittedAreSound(codec: Codec, talk: Talk, frames: seq<Frame>)
    ensures forall m :: m in AbsorbAll(codec, talk, frames).messages ==> IsSound(m)
    decreases |frames|
  {
    hide ParseStartLine, IsAllowedHost, DocumentOf, UseHost, IsStatsRequest, HasStats, IsStatsPath;
    if frames != [] {
      var frame := frames[0];
      var first := Pair(ParseStartLine(frame.head.start), talk.pending);
      StatsRequestIs(first.verb, first.path);
      assert IsStatsPath(PLAYER_STATS_PATH) by { StatsPathItself(); }
      var r := Absorb(codec, talk, frame);
      EmittedAreSound(codec, r.talk, frames[1..]);
    }
  }

  lemma StatsPathItself()
    ensures IsStatsPath(PLAYER_STATS_PATH)
  {
  }
}
