/** A connection used in both directions: requests one way, responses the other, in
    any order and cut anywhere, inside any interleaving with other connections. */
module Conversations {
  import opened Basics
  import opened Codecs
  import opened Hosts
  import opened Framing
  import opened Printing
  import opened RoundTrip
  import opened Connection
  import opened Pairing
  import opened ParserState
  import opened ParserRuns
  import Emission

  /** A message as it was framed, with the direction it came from. */
  datatype Tagged = Tagged(direction: Direction, frame: Frame)

  function Tag(d: Direction, frames: seq<Frame>): (ts: seq<Tagged>)
    ensures |ts| == |frames|
  {
    seq(|frames|, i requires 0 <= i < |frames| => Tagged(d, frames[i]))
  }

  /** The messages of a run of calls, of both directions, in the order they are handled. */
  function FramesOf(codec: Codec, conn: Conn, calls: seq<Call>): seq<Tagged>
    requires conn.Valid()
    decreases |calls|
  {
    if calls == [] then []
    else
      Tag(calls[0].direction, Feed(codec, conn.Link(calls[0].direction), calls[0].data).frames)
      + FramesOf(codec, ConnStep(codec, conn, calls[0]).conn, calls[1..])
  }

  function Untagged(ts: seq<Tagged>): (frames: seq<Frame>)
    ensures |frames| == |ts|
  {
    seq(|ts|, i requires 0 <= i < |ts| => ts[i].frame)
  }

  /** The messages of one direction, in order. */
  function InDirection(ts: seq<Tagged>, d: Direction): seq<Frame> {
    if ts == [] then []
    else (if ts[0].direction == d then [ts[0].frame] else []) + InDirection(ts[1..], d)
  }

  /** The data of one direction's calls, in order. */
  function PiecesIn(calls: seq<Call>, d: Direction): seq<bytes> {
    if calls == [] then []
    else (if calls[0].direction == d then [calls[0].data] else []) + PiecesIn(calls[1..], d)
  }

  lemma {:induction false} InDirectionAppend(a: seq<Tagged>, b: seq<Tagged>, d: Direction)
    ensures InDirection(a + b, d) == InDirection(a, d) + InDirection(b, d)
    decreases |a|
  {
    if a == [] {
      assert a + b == b;
    } else {
      assert (a + b)[0] == a[0] && (a + b)[1..] == a[1..] + b;
      InDirectionAppend(a[1..], b, d);
    }
  }

  lemma {:induction false} InDirectionTag(frames: seq<Frame>, t: Direction, d: Direction)
    ensures InDirection(Tag(t, frames), d) == if t == d then frames else []
    decreases |frames|
  {
    if frames != [] {
      assert Tag(t, frames)[1..] == Tag(t, frames[1..]);
      InDirectionTag(frames[1..], t, d);
    }
  }

  /** A run of calls is its messages, of both directions, handled one after the other. */
  lemma {:induction false} RunIsItsFrames(codec: Codec, conn: Conn, calls: seq<Call>)
    requires conn.Valid()
    ensures
      var r := ConnRun(codec, conn, calls);
      Absorbed(r.conn.talk, r.messages) == AbsorbAll(codec, conn.talk, Untagged(FramesOf(codec, conn, calls)))
    decreases |calls|
  {
    hide Feed, AbsorbAll;
    if calls == [] {
      Emission.AbsorbNothing(codec, conn.talk);
      assert Untagged([]) == [];
    } else {
      var first := ConnStep(codec, conn, calls[0]);
      var frames := Feed(codec, conn.Link(calls[0].direction), calls[0].data).frames;
      var later := FramesOf(codec, first.conn, calls[1..]);
      RunIsItsFrames(codec, first.conn, calls[1..]);
      AbsorbAppend(codec, conn.talk, frames, Untagged(later));
      assert Untagged(Tag(calls[0].direction, frames) + later) == frames + Untagged(later);
    }
  }

  /** Each direction is framed as if the other were not there. */
  lemma {:induction false} EachDirectionAlone(codec: Codec, conn: Conn, calls: seq<Call>, d: Direction)
    requires conn.Valid()
    ensures
      var fed := FeedAll(codec, conn.Link(d), PiecesIn(calls, d));
      InDirection(FramesOf(codec, conn, calls), d) == fed.frames
      && ConnRun(codec, conn, calls).conn.Link(d) == fed.link
    decreases |calls|
  {
    hide Feed, AbsorbAll;
    if calls != [] {
      var call := calls[0];
      var first := ConnStep(codec, conn, call);
      var frames := Feed(codec, conn.Link(call.direction), call.data).frames;
      var later := FramesOf(codec, first.conn, calls[1..]);
      EachDirectionAlone(codec, first.conn, calls[1..], d);
      InDirectionAppend(Tag(call.direction, frames), later, d);
      InDirectionTag(frames, call.direction, d);
      if call.direction == d {
        assert PiecesIn(calls, d)[1..] == PiecesIn(calls[1..], d);
      } else {
        assert [] + PiecesIn(calls[1..], d) == PiecesIn(calls[1..], d);
        assert [] + InDirection(later, d) == InDirection(later, d);
      }
    }
  }

  /** The messages connection `c` of a shared run is handled with. */
  function Handled(codec: Codec, start: State, events: seq<Event>, c: Id): seq<Tagged>
    requires Local(start, c).Valid()
  {
    FramesOf(codec, Local(start, c), CallsOf(events, c))
  }

  /** FIFO over whole runs: on a connection nothing is taken from, used in both
      directions, the k-th response is labelled with the k-th request. */
  lemma RunPairsInOrder(codec: Codec, states: seq<State>, events: seq<Event>, c: Id)
    requires IsRun(codec, states, events) && Inv(states[0])
    requires forall i :: 0 <= i < |events| ==> Spares(states[i], events[i], c)
    ensures Local(states[0], c).Valid()
    ensures
      var talk, frames := Local(states[0], c).talk, Untagged(Handled(codec, states[0], events, c));
      var all := talk.pending + Requests(frames);
      (talk.pending != [] ==> talk.host.Some?) && Orderly(codec, talk.pending, frames) ==>
        Responses(frames) <= |all| && Labels(OutputOf(events, c)) == Known(all[..Responses(frames)])
  {
    hide Inv, IsStep, Spares, AbsorbAll, ConnRun, Orderly, Known, Labels, FramesOf, IsAllowedHost;
    LocalIsValid(states[0], c);
    var conn, calls := Local(states[0], c), CallsOf(events, c);
    var frames := Untagged(FramesOf(codec, conn, calls));
    Isolation(codec, states, events, c);
    RunIsItsFrames(codec, conn, calls);
    PrunedTalk(states[0], c);
    if (conn.talk.pending != [] ==> conn.talk.host.Some?) && Orderly(codec, conn.talk.pending, frames) {
      PairingIsFifo(codec, conn.talk, frames);
    }
  }

  // ----- printed conversations -----

  lemma PrintedPieces(codec: Codec, ws: seq<Wire>, pieces: seq<bytes>)
    requires AsciiLaw(codec) && forall w :: w in ws ==> Printable(w) && WithinLimits(w)
    requires Flatten(pieces) == PrintAll(ws)
    ensures FeedAll(codec, FRESH, pieces) == Fed(Kept(ws), FRESH)
  {
    hide Feed, Print, Kept;
    if pieces != [] {
      PrintedComesBack(codec, ws, pieces);
    } else if ws != [] {
      PrintsSomething(ws[0]);
      assert false;
    } else {
      NothingKept();
    }
  }

  lemma PrintsSomething(w: Wire)
    requires Printable(w)
    ensures |Print(w)| > 0
  {
  }

  lemma NothingKept()
    ensures Kept([]) == []
  {
  }

  /** What a connection in both directions carried. */
  predicate Carries(calls: seq<Call>, d: Direction, ws: seq<Wire>) {
    (forall w :: w in ws ==> Printable(w) && WithinLimits(w))
    && Flatten(PiecesIn(calls, d)) == PrintAll(ws)
  }

  /** In any interleaving, from any reachable state in which one direction is between
      messages: if it carries printed messages, in any pieces, and nothing is taken from
      the connection, then exactly those are framed, in order, and nothing is left over,
      whatever the other direction carries. */
  lemma PrintedDirection(codec: Codec, states: seq<State>, events: seq<Event>, c: Id, d: Direction, ws: seq<Wire>)
    requires IsRun(codec, states, events) && Inv(states[0])
    requires forall i :: 0 <= i < |events| ==> Spares(states[i], events[i], c)
    requires Local(states[0], c).Link(d) == FRESH && AsciiLaw(codec)
    requires Carries(CallsOf(events, c), d, ws)
    ensures Local(states[0], c).Valid()
    ensures InDirection(Handled(codec, states[0], events, c), d) == Kept(ws)
    ensures Local(states[|events|], c).Link(d) == FRESH
  {
    hide Inv, IsStep, Spares, Local, FeedAll, ConnRun, FramesOf, PrintAll, Kept;
    var conn, calls := Local(states[0], c), CallsOf(events, c);
    Isolation(codec, states, events, c);
    EachDirectionAlone(codec, conn, calls, d);
    PrintedPieces(codec, ws, PiecesIn(calls, d));
  }

  /** In any interleaving, from any reachable state in which a connection is between
      messages: if both directions carry printed messages, in any pieces and in any
      order, and nothing is taken from the connection, then exactly those messages are
      handled, each direction's in order, and nothing is left over. */
  lemma PrintedConversation(codec: Codec, states: seq<State>, events: seq<Event>, c: Id,
                            requests: seq<Wire>, responses: seq<Wire>)
    requires IsRun(codec, states, events) && Inv(states[0])
    requires forall i :: 0 <= i < |events| ==> Spares(states[i], events[i], c)
    requires Local(states[0], c).toServer == FRESH && Local(states[0], c).toClient == FRESH
    requires AsciiLaw(codec)
    requires Carries(CallsOf(events, c), ToServer, requests) && Carries(CallsOf(events, c), ToClient, responses)
    ensures
      var handled := Handled(codec, states[0], events, c);
      var absorbed := AbsorbAll(codec, Local(states[0], c).talk, Untagged(handled));
      InDirection(handled, ToServer) == Kept(requests) && InDirection(handled, ToClient) == Kept(responses)
      && OutputOf(events, c) == absorbed.messages
      && Local(states[|events|], c) == Local(states[0], c).(talk := absorbed.talk)
  {
    hide Inv, IsStep, Spares, Local, AbsorbAll, ConnRun, FramesOf, Carries, Kept;
    Isolation(codec, states, events, c);
    RunIsItsFrames(codec, Local(states[0], c), CallsOf(events, c));
    PrintedDirection(codec, states, events, c, ToServer, requests);
    PrintedDirection(codec, states, events, c, ToClient, responses);
  }

  /** Requests only go to the server and responses only to the client. */
  predicate GoTheirWays(requests: seq<Frame>, responses: seq<Frame>) {
    (forall f :: f in requests ==> !IsResponse(f)) && (forall f :: f in responses ==> !IsTracked(f))
  }

  lemma FirstOf(frame: Frame, others: seq<Frame>)
    ensures Requests([frame] + others) == (if IsTracked(frame) then [RequestOf(frame)] else []) + Requests(others)
    ensures Responses([frame] + others) == (if IsResponse(frame) then 1 else 0) + Responses(others)
    ensures forall f :: f in [frame] + others <==> f == frame || f in others
  {
    hide IsResponse, IsTracked, RequestOf;
    assert ([frame] + others)[1..] == others;
  }

  lemma NothingRequested(others: seq<Request>)
    ensures [] + others == others
  {
  }

  lemma {:induction false} RequestsGoOneWay(ts: seq<Tagged>)
    requires GoTheirWays(InDirection(ts, ToServer), InDirection(ts, ToClient))
    ensures Requests(Untagged(ts)) == Requests(InDirection(ts, ToServer))
    ensures Responses(Untagged(ts)) == Responses(InDirection(ts, ToClient))
    decreases |ts|
  {
    if ts != [] {
      hide IsResponse, IsTracked, RequestOf, Requests, Responses, InDirection;
      var t, others := ts[0], Untagged(ts[1..]);
      var there, back := InDirection(ts[1..], ToServer), InDirection(ts[1..], ToClient);
      FirstInDirection(ts);
      assert Untagged(ts) == [t.frame] + others;
      FirstOf(t.frame, others);
      NothingRequested(Requests(others));
      FirstOf(t.frame, if t.direction == ToServer then there else back);
      RequestsGoOneWay(ts[1..]);
    }
  }

  lemma FirstInDirection(ts: seq<Tagged>)
    requires ts != []
    ensures forall d ::
      InDirection(ts, d)
      == if ts[0].direction == d then [ts[0].frame] + InDirection(ts[1..], d) else InDirection(ts[1..], d)
  {
    forall d
      ensures InDirection(ts, d)
        == if ts[0].direction == d then [ts[0].frame] + InDirection(ts[1..], d) else InDirection(ts[1..], d)
    {
      assert [] + InDirection(ts[1..], d) == InDirection(ts[1..], d);
    }
  }

  /** End to end: the k-th printed response comes out labelled with the k-th printed
      request, however both were cut and interleaved. */
  lemma PrintedConversationPairs(codec: Codec, states: seq<State>, events: seq<Event>, c: Id,
                                 requests: seq<Wire>, responses: seq<Wire>)
    requires IsRun(codec, states, events) && Inv(states[0])
    requires forall i :: 0 <= i < |events| ==> Spares(states[i], events[i], c)
    requires Local(states[0], c).toServer == FRESH && Local(states[0], c).toClient == FRESH
    requires Local(states[0], c).talk.pending == [] && AsciiLaw(codec)
    requires Carries(CallsOf(events, c), ToServer, requests) && Carries(CallsOf(events, c), ToClient, responses)
    requires GoTheirWays(Kept(requests), Kept(responses))
    requires Orderly(codec, [], Untagged(Handled(codec, states[0], events, c)))
    ensures Responses(Kept(responses)) <= |Requests(Kept(requests))|
    ensures Labels(OutputOf(events, c)) == Known(Requests(Kept(requests))[..Responses(Kept(responses))])
  {
    hide Inv, IsStep, Spares, Carries, Kept, Orderly, Known, Labels, FramesOf, GoTheirWays, Requests, Responses;
    var handled := Handled(codec, states[0], events, c);
    PrintedConversation(codec, states, events, c, requests, responses);
    RequestsGoOneWay(handled);
    RunPairsInOrder(codec, states, events, c);
    assert [] + Requests(Untagged(handled)) == Requests(Untagged(handled));
  }
}
