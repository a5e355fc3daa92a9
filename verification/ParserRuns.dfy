/** Whole runs of the shared parser over any interleaving of connections. */
module ParserRuns {
  import opened Codecs
  import opened Framing
  import opened Connection
  import opened ParserState
  import opened ParserSafety

  /** A step as it happened: what was asked, what made room, what came out. */
  datatype Event = Event(action: Action, ev: Evictions, out: seq<Message>)

  ghost predicate IsStep(codec: Codec, s: State, e: Event, s': State) {
    StepRel(codec, s, e.action, e.ev, s', e.out)
    && (e.action.Parse? ==> ClockAfter(s, e.action.now))
  }

  ghost predicate IsRun(codec: Codec, states: seq<State>, events: seq<Event>) {
    |states| == |events| + 1
    && forall i :: 0 <= i < |events| ==> IsStep(codec, states[i], events[i], states[i + 1])
  }

  lemma {:induction false} RunKeepsInv(codec: Codec, states: seq<State>, events: seq<Event>, n: nat)
    requires IsRun(codec, states, events) && Inv(states[0]) && n < |states|
    ensures Inv(states[n])
  {
    hide Inv, StepRel;
    if n > 0 {
      RunKeepsInv(codec, states, events, n - 1);
      var e := events[n - 1];
      assert IsStep(codec, states[n - 1], e, states[n]);
      StepKeepsInv(codec, states[n - 1], e.action, e.ev, states[n], e.out);
    }
  }

  lemma InitialInv()
    ensures Inv(INITIAL)
  {
    assert Large(INITIAL.buffers) == map[];
  }

  /** In every state any run reaches: at most 256 connections, at most 64 of them
      known as API connections, nothing kept for any other, at most 160 MiB held. */
  lemma ReachableStatesAreBounded(codec: Codec, states: seq<State>, events: seq<Event>, n: nat)
    requires IsRun(codec, states, events) && states[0] == INITIAL && n < |states|
    ensures
      var s := states[n];
      |s.lastSeen| <= MAX_DISCOVERY_CONNECTIONS && |s.hosts| <= MAX_TRACKED_API_CONNECTIONS
      && s.hosts.Keys <= s.lastSeen.Keys && IdsTracked(s)
      && Total(s.buffers) <= 160 * 1024 * 1024
  {
    hide Large, Total;
    InitialInv();
    RunKeepsInv(codec, states, events, n);
    MemoryBound(states[n]);
  }

  /** No call drops more than two other API connections. */
  lemma FewAreDroppedInAStep(codec: Codec, s: State, e: Event, s': State)
    requires Inv(s) && IsStep(codec, s, e, s')
    ensures |e.ev.dropped| <= 2
  {
    hide ConnStep, CrowdedOk, LeastRecent, QueuesMoved, SkipsMoved, TakenOk, HostKeysMoved, ContentsOk;
    match e.action
    case Forget(_) =>
    case Parse(id, call, now) =>
      var p := Pruned(s, id, now, e.ev.crowded);
      PrunedKeepsInv(s, id, now, e.ev.crowded);
      FewAreDropped(p.hosts, s'.hosts, id, e.ev.dropped);
  }

  lemma BuffersOfPiece(codec: Codec, p: State, id: Id, call: Call, dropped: set<Id>, taken: set<Key>,
                       s: State, out: seq<Message>)
    requires Local(p, id).Valid() && PieceRel(codec, p, id, call, dropped, taken, s, out)
    ensures
      var key, buffer := Key(id, call.direction), ConnStep(codec, Local(p, id), call).conn.Link(call.direction).buffer;
      TakenOk(p.buffers[key := buffer], key, taken)
      && s.buffers == p.buffers[key := buffer] - taken
      && Local(s, id).Link(call.direction).buffer == buffer
  {
    hide ConnStep, HostsMoved, QueuesMoved, SkipsMoved, TalkOf;
    hide Total, EachWasNeeded;
  }

  /** After a call that leaves a large buffer, everything held fits the budget. */
  lemma LargeBufferKeepsBudget(codec: Codec, s: State, e: Event, s': State)
    requires Inv(s) && IsStep(codec, s, e, s') && e.action.Parse?
    requires |Local(s', e.action.id).Link(e.action.call.direction).buffer| > MAX_SCAN_BUFFER
    ensures Total(s'.buffers) <= MAX_TOTAL_SCAN_BYTES
  {
    hide Large, Total, ConnStep, CrowdedOk, PieceRel, Pruned, TakenOk, ContentsOk, LinkAt, TalkOf;
    var Parse(id, call, now) := e.action;
    var p, key := Pruned(s, id, now, e.ev.crowded), Key(id, call.direction);
    PrunedKeepsInv(s, id, now, e.ev.crowded);
    var r := ConnStep(codec, Local(p, id), call);
    PrunedTalk(p, id);
    ReplyBounded(codec, Local(p, id), call);
    BuffersOfPiece(codec, p, id, call, e.ev.dropped, e.ev.taken, s', e.out);
    BudgetKeepsTotal(p.buffers, key, r.conn.Link(call.direction).buffer, e.ev.taken);
  }

  /** After any other call exactly what was held before and the active buffer are held:
      the budget holds if and only if they fit it. */
  lemma BudgetHoldsExactly(codec: Codec, s: State, e: Event, s': State)
    requires Inv(s) && IsStep(codec, s, e, s') && e.action.Parse?
    ensures
      var Parse(id, call, now) := e.action;
      var p, key := Pruned(s, id, now, e.ev.crowded), Key(id, call.direction);
      var buffer := Local(s', id).Link(call.direction).buffer;
      Total(s'.buffers) <= MAX_TOTAL_SCAN_BYTES
      <==> |buffer| > MAX_SCAN_BUFFER || Total(p.buffers[key := buffer]) <= MAX_TOTAL_SCAN_BYTES
  {
    hide Large, Total, ConnStep, CrowdedOk, PieceRel, Pruned, ContentsOk, LinkAt, TalkOf;
    var Parse(id, call, now) := e.action;
    var p, key := Pruned(s, id, now, e.ev.crowded), Key(id, call.direction);
    PrunedKeepsInv(s, id, now, e.ev.crowded);
    PrunedTalk(p, id);
    BuffersOfPiece(codec, p, id, call, e.ev.dropped, e.ev.taken, s', e.out);
    var buffer := Local(s', id).Link(call.direction).buffer;
    if |buffer| > MAX_SCAN_BUFFER {
      LargeBufferKeepsBudget(codec, s, e, s');
    } else {
      assert p.buffers[key := buffer] - {} == p.buffers[key := buffer];
    }
  }

  /** Room is made by dropping API connections no other API connection was seen before. */
  lemma DroppedAreStalest(codec: Codec, s: State, e: Event, s': State, dropped: Id, kept: Id)
    requires Inv(s) && IsStep(codec, s, e, s') && dropped in e.ev.dropped
    requires kept in s'.hosts && e.action.Parse? && kept != e.action.id
    ensures dropped in s.hosts && kept in s.hosts && s.lastSeen[dropped] <= s.lastSeen[kept]
  {
    hide ConnStep, CrowdedOk, QueuesMoved, SkipsMoved, TakenOk, ContentsOk, WithoutIds;
    var Parse(id, call, now) := e.action;
    var p := Pruned(s, id, now, e.ev.crowded);
    PruningIsSafe(s, id, now, e.ev.crowded);
    PrunedKeepsInv(s, id, now, e.ev.crowded);
    assert kept in s'.hosts.Keys - {id} && dropped in p.hosts.Keys - {id};
  }

  lemma PrunedTalk(p: State, id: Id)
    requires Inv(p)
    ensures
      var talk := Local(p, id).talk;
      |talk.pending| <= MAX_PENDING_REQUESTS
      && (talk.host.Some? ==> Hosts.IsAllowedHost(talk.host.value))
  {
    hide Hosts.IsAllowedHost;
  }

  // ----- isolation -----

  predicate Pruning(s: State, e: Event, c: Id) {
    e.action.Parse? && c in Victims(s, e.action.id, e.action.now, e.ev.crowded)
  }

  /** Nothing was taken from connection `c` by this step. */
  predicate Spares(s: State, e: Event, c: Id) {
    match e.action
    case Forget(id) => c != id
    case Parse(_, _, _) =>
      !Pruning(s, e, c) && c !in e.ev.dropped
      && Key(c, ToServer) !in e.ev.taken && Key(c, ToClient) !in e.ev.taken
  }

  lemma LocalAfterPiece(codec: Codec, p: State, id: Id, call: Call, dropped: set<Id>, taken: set<Key>,
                        s: State, out: seq<Message>, c: Id)
    requires Local(p, id).Valid() && PieceRel(codec, p, id, call, dropped, taken, s, out)
    requires c !in dropped && Key(c, ToServer) !in taken && Key(c, ToClient) !in taken
    ensures Local(s, c) == if c == id then ConnStep(codec, Local(p, id), call).conn else Local(p, c)
  {
    hide ConnStep, PieceRel, TalkOf, LinkAt;
    TalkAfterPiece(codec, p, id, call, dropped, taken, s, out, c);
    LinkAfterPiece(codec, p, id, call, dropped, taken, s, out, c, ToServer);
    LinkAfterPiece(codec, p, id, call, dropped, taken, s, out, c, ToClient);
    OtherLinkUnchanged(codec, Local(p, id), call);
    if c == id {
      var after := ConnStep(codec, Local(p, id), call).conn;
      assert LinkAt(s, Key(c, ToServer)) == after.Link(ToServer);
      assert LinkAt(s, Key(c, ToClient)) == after.Link(ToClient);
    }
  }

  lemma OtherLinkUnchanged(codec: Codec, conn: Conn, call: Call)
    requires conn.Valid()
    ensures
      var after := ConnStep(codec, conn, call).conn;
      forall d :: d != call.direction ==> after.Link(d) == conn.Link(d)
  {
    hide Feed, AbsorbAll;
  }

  lemma TalkAfterPiece(codec: Codec, p: State, id: Id, call: Call, dropped: set<Id>, taken: set<Key>,
                       s: State, out: seq<Message>, c: Id)
    requires Local(p, id).Valid() && PieceRel(codec, p, id, call, dropped, taken, s, out)
    requires c !in dropped
    ensures TalkOf(s, c)
         == if c == id then ConnStep(codec, Local(p, id), call).conn.talk else TalkOf(p, c)
  {
    hide ConnStep, TakenOk;
    if c != id {
      assert c in s.hosts.Keys - {id} <==> c in p.hosts.Keys - dropped - {id};
    }
  }

  lemma LinkAfterPiece(codec: Codec, p: State, id: Id, call: Call, dropped: set<Id>, taken: set<Key>,
                       s: State, out: seq<Message>, c: Id, d: Direction)
    requires Local(p, id).Valid() && PieceRel(codec, p, id, call, dropped, taken, s, out)
    requires Key(c, d) !in taken
    ensures LinkAt(s, Key(c, d))
         == if c == id && d == call.direction then ConnStep(codec, Local(p, id), call).conn.Link(d)
            else LinkAt(p, Key(c, d))
  {
    hide ConnStep, TakenOk, HostsMoved, QueuesMoved;
  }

  /** A step leaves a connection it spares exactly where that connection's own
      machine would be. */
  lemma StepIsLocal(codec: Codec, s: State, e: Event, s': State, c: Id)
    requires Inv(s) && IsStep(codec, s, e, s') && Spares(s, e, c)
    requires Local(s, c).Valid()
    ensures
      if e.action.Parse? && e.action.id == c then
        Reply(Local(s', c), e.out) == ConnStep(codec, Local(s, c), e.action.call)
      else Local(s', c) == Local(s, c)
  {
    hide Inv, ConnStep, CrowdedOk, Victims, PieceRel, Local;
    match e.action
    case Forget(id) =>
      ForgottenIsLocal(s, id, c);
    case Parse(id, call, now) =>
      var p := Pruned(s, id, now, e.ev.crowded);
      WithoutLocal(s, id, now, Victims(s, id, now, e.ev.crowded));
      LocalAfterPiece(codec, p, id, call, e.ev.dropped, e.ev.taken, s', e.out, c);
      MessagesOfPiece(codec, p, id, call, e.ev.dropped, e.ev.taken, s', e.out);
  }

  lemma ForgottenIsLocal(s: State, id: Id, c: Id)
    requires c != id
    ensures Local(s.(hosts := s.hosts - {id}), c) == Local(s, c)
  {
  }

  lemma MessagesOfPiece(codec: Codec, p: State, id: Id, call: Call, dropped: set<Id>, taken: set<Key>,
                        s: State, out: seq<Message>)
    requires Local(p, id).Valid() && PieceRel(codec, p, id, call, dropped, taken, s, out)
    ensures out == ConnStep(codec, Local(p, id), call).messages
  {
  }

  // ----- runs -----

  predicate Concerns(e: Event, c: Id) { e.action.Parse? && e.action.id == c }

  /** The calls of one connection, in order. */
  function CallsOf(events: seq<Event>, c: Id): seq<Call> {
    if events == [] then []
    else (if Concerns(events[0], c) then [events[0].action.call] else []) + CallsOf(events[1..], c)
  }

  /** What came out of one connection's calls, in order. */
  function OutputOf(events: seq<Event>, c: Id): seq<Message> {
    if events == [] then []
    else (if Concerns(events[0], c) then events[0].out else []) + OutputOf(events[1..], c)
  }

  lemma LocalIsValid(s: State, c: Id)
    requires Inv(s)
    ensures Local(s, c).Valid()
  {
    hide Total, Large, Hosts.IsAllowedHost;
    assert ValidLink(LinkAt(s, Key(c, ToServer))) && ValidLink(LinkAt(s, Key(c, ToClient)));
  }

  /** Isolation: whatever the other connections do in between, a connection that
      nothing was taken from hands on exactly the messages, and ends in exactly
      the state, of a machine fed only its own calls. */
  lemma {:induction false} Isolation(codec: Codec, states: seq<State>, events: seq<Event>, c: Id)
    requires IsRun(codec, states, events) && Inv(states[0])
    requires forall i :: 0 <= i < |events| ==> Spares(states[i], events[i], c)
    ensures Local(states[0], c).Valid()
    ensures ConnRun(codec, Local(states[0], c), CallsOf(events, c))
         == Reply(Local(states[|events|], c), OutputOf(events, c))
    decreases |events|
  {
    hide Inv, StepRel, Spares, ConnStep, Local;
    LocalIsValid(states[0], c);
    if events != [] {
      var e, s, s' := events[0], states[0], states[1];
      assert IsStep(codec, s, e, s');
      StepIsLocal(codec, s, e, s', c);
      StepKeepsInv(codec, s, e.action, e.ev, s', e.out);
      forall i | 0 <= i < |events[1..]|
        ensures IsStep(codec, states[1..][i], events[1..][i], states[1..][i + 1])
             && Spares(states[1..][i], events[1..][i], c)
      {
        assert IsStep(codec, states[i + 1], events[i + 1], states[i + 2]);
        assert Spares(states[i + 1], events[i + 1], c);
      }
      Isolation(codec, states[1..], events[1..], c);
      RunFromFront(codec, s, e, s', c, CallsOf(events[1..], c));
    }
  }

  lemma RunFromFront(codec: Codec, s: State, e: Event, s': State, c: Id, calls: seq<Call>)
    requires Local(s, c).Valid() && Local(s', c).Valid()
    requires
      if Concerns(e, c) then Reply(Local(s', c), e.out) == ConnStep(codec, Local(s, c), e.action.call)
      else Local(s', c) == Local(s, c)
    ensures
      var r := ConnRun(codec, Local(s', c), calls);
      ConnRun(codec, Local(s, c), (if Concerns(e, c) then [e.action.call] else []) + calls)
      == Reply(r.conn, (if Concerns(e, c) then e.out else []) + r.messages)
  {
    hide ConnStep, Local;
    var r := ConnRun(codec, Local(s', c), calls);
    if Concerns(e, c) {
      assert ([e.action.call] + calls)[1..] == calls;
    } else {
      assert [] + calls == calls && [] + r.messages == r.messages;
    }
  }
}
