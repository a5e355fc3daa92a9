/** A run that ends with more than the byte budget held: twelve connections that each
    wait for the rest of a message, and a thirteenth that sends one byte. */
module Overrun {
  import opened Basics
  import opened Search
  import opened Text
  import opened Codecs
  import opened Chunked
  import opened Framing
  import opened Printing
  import opened RoundTrip
  import opened Connection
  import opened ParserState
  import opened ParserSafety
  import opened ParserRuns
  import opened Budget
  import Emission
  import Parser

  /** A whole buffer's worth of a message that is not complete and is not cut. */
  predicate IsUnfinished(codec: Codec, m: bytes) {
    |m| == MAX_MESSAGE_BYTES && FrameStep(codec, m).More? && Cap(m) == m
  }

  // ----- one call that only adds to its buffer -----

  lemma WaitsForMore(codec: Codec, data: bytes)
    requires FrameStep(codec, data).More? && Cap(data) == data
    ensures ConnStep(codec, NEW_CONN, Call(ToServer, data))
         == Reply(NEW_CONN.(toServer := Link(data, 0)), [])
  {
    hide FrameStep, Cap;
    assert ([] + data)[0..] == data;
    assert Drain(codec, data) == Drained([], data, 0);
    Emission.AbsorbNothing(codec, NEW_CONN.talk);
  }

  /** After `k` calls of new connections, each with the same data. */
  function Filled(data: bytes, k: nat): State {
    if k == 0 then INITIAL
    else
      var s := Filled(data, k - 1);
      s.(buffers := s.buffers[Key(k - 1, ToServer) := data], lastSeen := s.lastSeen[k - 1 := k],
         parseCount := k)
  }

  /** Connections 0 to k - 1 were seen, one after the other, and only their requests held. */
  predicate OnlyFirst(s: State, k: nat) {
    s.hosts == map[] && s.pending == map[] && s.skipped == map[] && s.parseCount == k && |s.lastSeen| == k
    && (forall i: Id :: i in s.lastSeen ==> i < k && s.lastSeen[i] == i + 1)
    && (forall key :: key in s.buffers ==> key.id < k)
  }

  function WithNew(s: State, k: nat, data: bytes): State {
    s.(buffers := s.buffers[Key(k, ToServer) := data], lastSeen := s.lastSeen[k := k + 1], parseCount := k + 1)
  }

  lemma OneMoreSeen(s: State, k: nat, data: bytes)
    requires OnlyFirst(s, k)
    ensures OnlyFirst(WithNew(s, k, data), k + 1) && Key(k, ToServer) !in s.buffers
  {
    TouchedSize(s.lastSeen, k, k + 1);
  }

  lemma {:induction false} FilledIs(data: bytes, k: nat)
    requires |data| == MAX_MESSAGE_BYTES
    ensures OnlyFirst(Filled(data, k), k) && Total(Filled(data, k).buffers) == k * MAX_MESSAGE_BYTES
  {
    hide Total, OnlyFirst, WithNew, Filled;
    if k > 0 {
      FilledIs(data, k - 1);
      var s := Filled(data, k - 1);
      OneMoreSeen(s, k - 1, data);
      FilledNext(data, k - 1);
      NewHeld(s, k - 1, data);
    } else {
      FilledNext(data, 0);
      NothingHeld();
    }
  }

  lemma NewHeld(s: State, k: nat, data: bytes)
    requires Key(k, ToServer) !in s.buffers
    ensures Total(WithNew(s, k, data).buffers) == Total(s.buffers) + |data|
  {
    hide Total;
    TotalWith(s.buffers, Key(k, ToServer), data);
  }

  lemma NothingHeld()
    ensures Total(INITIAL.buffers) == 0 && OnlyFirst(INITIAL, 0)
  {
  }

  lemma TotalWith(m: map<Key, bytes>, key: Key, data: bytes)
    requires key !in m
    ensures Total(m[key := data]) == Total(m) + |data|
  {
    hide Total;
    TotalRemove(m[key := data], key);
    assert m[key := data] - {key} == m;
  }

  function NewCall(id: Id, data: bytes): Event {
    Event(Parse(id, Call(ToServer, data), id + 1), NO_EVICTIONS, [])
  }

  /** One more connection sends something that has to wait. */
  lemma NewCallIsStep(codec: Codec, s: State, k: nat, data: bytes)
    requires k <= 12 && OnlyFirst(s, k)
    requires FrameStep(codec, data).More? && Cap(data) == data
    requires |data| <= MAX_SCAN_BUFFER || Total(s.buffers) + |data| <= MAX_TOTAL_SCAN_BYTES
    ensures IsStep(codec, s, NewCall(k, data), WithNew(s, k, data))
  {
    hide FrameStep, Cap, Total, PieceRel, CrowdedOk, Pruned, Local;
    var p := Pruned(s, k, k + 1, {});
    NobodyGoes(s, k);
    FreshPiece(codec, p, k, data);
  }

  lemma NobodyGoes(s: State, k: nat)
    requires k <= 12 && OnlyFirst(s, k)
    ensures CrowdedOk(s, k, k + 1, {})
    ensures Pruned(s, k, k + 1, {}) == s.(lastSeen := s.lastSeen[k := k + 1], parseCount := k + 1)
  {
    hide Without, OldestTaken, Expired, Scans, OnlyFirst;
    NobodyExpired(s, k);
    Parser.NothingPruned(s, k, k + 1);
    MinusSize(Touched(s, k, k + 1), {});
    Parser.NoneTaken(Touched(s, k, k + 1), s.hosts.Keys);
    var none: set<Id> := {};
    assert none + none == none;
  }

  lemma NobodyExpired(s: State, k: nat)
    requires k <= 12 && OnlyFirst(s, k)
    ensures Expired(s, k, k + 1) == {} && |Touched(s, k, k + 1)| <= MAX_DISCOVERY_CONNECTIONS
    ensures s.parseCount == k && NextCount(k) == k + 1
  {
    TouchedSize(s.lastSeen, k, k + 1);
  }

  lemma FreshPiece(codec: Codec, p: State, k: nat, data: bytes)
    requires FrameStep(codec, data).More? && Cap(data) == data
    requires p.hosts == map[] && p.pending == map[] && p.skipped == map[] && Key(k, ToServer) !in p.buffers
    requires Key(k, ToClient) !in p.buffers
    requires |data| <= MAX_SCAN_BUFFER || Total(p.buffers) + |data| <= MAX_TOTAL_SCAN_BYTES
    ensures Local(p, k) == NEW_CONN && Local(p, k).Valid()
    ensures PieceRel(codec, p, k, Call(ToServer, data), {}, {},
                     p.(buffers := p.buffers[Key(k, ToServer) := data]), [])
  {
    hide FrameStep, Cap, ConnStep, TakenOk, HostsMoved, QueuesMoved, SkipsMoved;
    WaitsForMore(codec, data);
    Parser.HostsStay(p.hosts, p.lastSeen, k);
    Parser.QueuesStay(p.pending, k);
    Parser.SkipsStay(p.skipped, Key(k, ToServer));
    NothingToTake(p.buffers, Key(k, ToServer), data);
  }

  lemma NothingToTake(m: map<Key, bytes>, key: Key, data: bytes)
    requires key !in m && (|data| <= MAX_SCAN_BUFFER || Total(m) + |data| <= MAX_TOTAL_SCAN_BYTES)
    ensures TakenOk(m[key := data], key, {}) && m[key := data] - {} == m[key := data]
  {
    hide Total;
    TotalWith(m, key, data);
    assert m[key := data] - {} == m[key := data];
  }

  // ----- the run -----

  function RunStates(data: bytes, n: nat): (states: seq<State>)
    ensures |states| == n + 1
  {
    seq(n + 1, i requires 0 <= i < n + 1 => Filled(data, i))
  }

  function RunEvents(data: bytes, n: nat): (events: seq<Event>)
    ensures |events| == n
  {
    seq(n, i requires 0 <= i < n => NewCall(i, data))
  }

  const A: bytes := [65]

  function LastState(m: bytes): State { WithNew(Filled(m, 12), 12, A) }

  /** The budget fails in a reachable state: one byte over. */
  lemma BudgetCanFail(codec: Codec, m: bytes)
    requires IsUnfinished(codec, m)
    ensures IsRun(codec, RunStates(m, 12) + [LastState(m)], RunEvents(m, 12) + [NewCall(12, A)])
    ensures (RunStates(m, 12) + [LastState(m)])[0] == INITIAL
    ensures Total(LastState(m).buffers) == MAX_TOTAL_SCAN_BYTES + 1
  {
    hide FrameStep, Cap, IsStep, Total, Filled, WithNew;
    var states, events := RunStates(m, 12) + [LastState(m)], RunEvents(m, 12) + [NewCall(12, A)];
    forall i | 0 <= i < 13
      ensures IsStep(codec, states[i], events[i], states[i + 1])
    {
      FilledIs(m, i);
      if i < 12 {
        NewCallIsStep(codec, Filled(m, i), i, m);
        FilledNext(m, i);
      } else {
        OneByteWaits(codec);
        NewCallIsStep(codec, Filled(m, 12), 12, A);
      }
    }
    FilledNext(m, 0);
    OneByteOver(m);
  }

  lemma OneByteOver(m: bytes)
    requires |m| == MAX_MESSAGE_BYTES
    ensures Total(LastState(m).buffers) == MAX_TOTAL_SCAN_BYTES + 1
  {
    hide Total, Filled;
    FilledIs(m, 12);
    NewHeld(Filled(m, 12), 12, A);
  }

  lemma FilledNext(m: bytes, k: nat)
    ensures Filled(m, k + 1) == WithNew(Filled(m, k), k, m)
    ensures Filled(m, 0) == INITIAL
  {
  }

  lemma OneByteWaits(codec: Codec)
    ensures FrameStep(codec, A).More? && Cap(A) == A
  {
    FindNothing(A, BLANK_LINE);
  }

  lemma {:induction false} AllHold(data: bytes, k: nat)
    ensures forall key :: key in Filled(data, k).buffers <==> key.id < k && key.direction == ToServer
    ensures forall key :: key in Filled(data, k).buffers ==> Filled(data, k).buffers[key] == data
  {
    if k > 0 { AllHold(data, k - 1); }
  }

  /** When the first of the twelve then starts as long a message in its other direction,
      that other direction can lose what it holds. */
  lemma OtherDirectionCanGo(m: bytes)
    requires |m| == MAX_MESSAGE_BYTES
    ensures CanBeTaken(Filled(m, 12).buffers[Key(0, ToClient) := m], Key(0, ToClient), Key(0, ToServer))
  {
    hide Total, Filled, CanBeTaken;
    var held := Filled(m, 12).buffers;
    var full := held[Key(0, ToClient) := m];
    FilledIs(m, 12);
    AllHold(m, 12);
    TotalWith(held, Key(0, ToClient), m);
    assert Larger(full, Key(0, ToClient), Key(0, ToServer)) == {};
    assert full - {} == full;
    TakenExactly(full, Key(0, ToClient), Key(0, ToServer));
  }

  // ----- such a message -----

  const NO_CHUNKS := Chunks([], Chunk("0", [], ""), [])

  const ENDLESS := Wire("GET / HTTP/1.1", [FramingField(NO_CHUNKS)], NO_CHUNKS)

  /** A chunked head, and then the digits of a chunk size that never end. */
  function Endless(): (m: bytes)
    ensures |m| == MAX_MESSAGE_BYTES
  {
    EndlessHead();
    ToBytes(HeadText(ENDLESS)) + BLANK_LINE + Zeros(MAX_MESSAGE_BYTES - |HeadText(ENDLESS)| - 4)
  }

  function Zeros(n: nat): (b: bytes)
    ensures |b| == n && 13 !in b
  {
    seq(n, i => 48)
  }

  lemma EndlessHead()
    ensures Printable(ENDLESS) && IsAsciiText(HeadText(ENDLESS)) && |HeadText(ENDLESS)| + 4 <= MAX_MESSAGE_BYTES
  {
    hide Announces, ValidField, IsAsciiText, ParseUnsigned, Trim;
    EndlessStart();
    NoChunksIsValid();
    UsualFraming([], NO_CHUNKS);
    assert [] + [FramingField(NO_CHUNKS)] == ENDLESS.fields;
    HeadIsAscii(ENDLESS);
    var lines := HeadLines(ENDLESS);
    assert lines == [ENDLESS.start, FieldLine(FramingField(NO_CHUNKS))];
    assert lines[1..] == [FieldLine(FramingField(NO_CHUNKS))];
    assert Join(lines) == lines[0] + "\r\n" + lines[1];
  }

  lemma EndlessStart()
    ensures IsLine("GET / HTTP/1.1")
  {
  }

  lemma NoChunksIsValid()
    ensures ValidPayload(NO_CHUNKS)
  {
    hide ParseUnsigned, Trim, IsLine;
    PlainSize(0);
    assert Digits(0, 16) == "0";
    assert IsLine("") by { EmptyIsLine(); }
  }

  lemma EmptyIsLine()
    ensures IsLine("")
  {
  }

  lemma EndlessIsUnfinished(codec: Codec)
    requires AsciiLaw(codec)
    ensures IsUnfinished(codec, Endless())
  {
    hide HeadText, HeadOf, IsChunked, FrameOf, Printable;
    EndlessHead();
    var head, zeros := ToBytes(HeadText(ENDLESS)), Zeros(MAX_MESSAGE_BYTES - |HeadText(ENDLESS)| - 4);
    HeadFound(ENDLESS, zeros);
    AroundHead(head, zeros, []);
    DecodeAscii(codec, HeadText(ENDLESS));
    HeadOfPrinted(ENDLESS);
    PrintedFraming(ENDLESS);
    FindNothing(zeros, CRLF);
    assert zeros + [] == zeros && head + BLANK_LINE + zeros + [] == Endless();
  }

  /** So the run exists for every decoder that reads ASCII. */
  lemma BudgetDoesFail(codec: Codec)
    requires AsciiLaw(codec)
    ensures exists states: seq<State>, events :: IsRun(codec, states, events) && states[0] == INITIAL && |events| == 13
                                     && Total(states[13].buffers) == MAX_TOTAL_SCAN_BYTES + 1
  {
    hide IsRun, Total, Filled, Endless;
    var m := Endless();
    EndlessIsUnfinished(codec);
    BudgetCanFail(codec, m);
    var states, events := RunStates(m, 12) + [LastState(m)], RunEvents(m, 12) + [NewCall(12, A)];
    assert states[13] == LastState(m) && |events| == 13;
  }
}
