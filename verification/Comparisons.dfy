/** Two runs side by side: what differs in one connection's queue or in the other
    connections makes no difference to what comes out. */
module Comparisons {
  import opened Basics
  import opened Codecs
  import opened Framing
  import opened Connection
  import opened Emission
  import opened ParserState
  import opened ParserSafety
  import opened ParserRuns
  import opened Conversations

  // ----- the queues make no difference to the statistics -----

  /** States that differ at most in what waits for a response. */
  ghost predicate SameButPending(a: State, b: State) {
    a.buffers == b.buffers && a.hosts == b.hosts && a.lastSeen == b.lastSeen && a.parseCount == b.parseCount
    && forall k :: SkipIn(a.skipped, k) == SkipIn(b.skipped, k)
  }

  lemma PrunedAlike(a: State, b: State, id: Id, now: Time, crowded: set<Id>)
    requires SameButPending(a, b)
    ensures SameButPending(Pruned(a, id, now, crowded), Pruned(b, id, now, crowded))
    ensures Victims(a, id, now, crowded) == Victims(b, id, now, crowded)
  {
    hide WithoutIds, SkipIn, Silent, Scans;
    SameVictims(a, b, id, now, crowded);
    SkipsAlike(a.skipped, b.skipped, Victims(a, id, now, crowded));
  }

  lemma SameVictims(a: State, b: State, id: Id, now: Time, crowded: set<Id>)
    requires a.hosts == b.hosts && a.lastSeen == b.lastSeen && a.parseCount == b.parseCount
    ensures Victims(a, id, now, crowded) == Victims(b, id, now, crowded)
  {
    hide Silent;
  }

  lemma SkipsAlike(a: map<Key, nat>, b: map<Key, nat>, victims: set<Id>)
    requires forall k :: SkipIn(a, k) == SkipIn(b, k)
    ensures forall k :: SkipIn(WithoutIds(a, victims), k) == SkipIn(WithoutIds(b, victims), k)
  {
    forall k
      ensures SkipIn(WithoutIds(a, victims), k) == SkipIn(WithoutIds(b, victims), k)
    {
      assert SkipIn(a, k) == SkipIn(b, k);
    }
  }

  /** One connection's call, seen from two states that differ only in its queue. */
  lemma CallAlike(codec: Codec, c1: Conn, c2: Conn, call: Call)
    requires c1.Valid() && c2.Valid()
    requires c1 == c2.(talk := c2.talk.(pending := c1.talk.pending))
    ensures
      var r1, r2 := ConnStep(codec, c1, call), ConnStep(codec, c2, call);
      r1.conn == r2.conn.(talk := r2.conn.talk.(pending := r1.conn.talk.pending))
      && StatisticsOf(r1.messages) == StatisticsOf(r2.messages)
  {
    hide Feed, AbsorbAll;
    var frames := Feed(codec, c1.Link(call.direction), call.data).frames;
    EmissionIgnoresPairing(codec, c1.talk, frames);
    EmissionIgnoresPairing(codec, c2.talk, frames);
    HostIgnoresPairing(codec, c1.talk.host, c1.talk.pending, c2.talk.pending, frames);
  }

  lemma LocalAlike(a: State, b: State, id: Id)
    requires SameButPending(a, b)
    ensures Local(a, id) == Local(b, id).(talk := TalkOf(b, id).(pending := TalkOf(a, id).pending))
  {
    forall d
      ensures LinkAt(a, Key(id, d)) == LinkAt(b, Key(id, d))
    {
      assert SkipIn(a.skipped, Key(id, d)) == SkipIn(b.skipped, Key(id, d));
    }
  }

  lemma PieceAlike(codec: Codec, p: State, q: State, id: Id, call: Call, dropped: set<Id>, taken: set<Key>,
                   a: State, b: State, out1: seq<Message>, out2: seq<Message>)
    requires SameButPending(p, q) && Local(p, id).Valid() && Local(q, id).Valid()
    requires PieceRel(codec, p, id, call, dropped, taken, a, out1)
    requires PieceRel(codec, q, id, call, dropped, taken, b, out2)
    ensures SameButPending(a, b) && StatisticsOf(out1) == StatisticsOf(out2)
  {
    hide ConnStep, TakenOk, LeastRecent, QueuesMoved;
    LocalAlike(p, q, id);
    CallAlike(codec, Local(p, id), Local(q, id), call);
    HostsAlike(p.hosts, a.hosts, b.hosts, id, dropped);
    var key := Key(id, call.direction);
    forall k
      ensures SkipIn(a.skipped, k) == SkipIn(b.skipped, k)
    {
      if k == key {
        assert SkipOf(a, key) == SkipOf(b, key);
      } else {
        assert SkipIn(p.skipped, k) == SkipIn(q.skipped, k);
        assert SkipIn(a.skipped, k) == SkipIn(p.skipped, k) && SkipIn(b.skipped, k) == SkipIn(q.skipped, k);
      }
    }
  }

  /** The host table after a call follows from the connection's own host. */
  lemma HostsAlike(before: map<Id, string>, a: map<Id, string>, b: map<Id, string>, id: Id, dropped: set<Id>)
    requires HostKeysMoved(before, a, id, dropped) && HostKeysMoved(before, b, id, dropped)
    requires id in a <==> id in b
    requires id in a ==> a[id] == b[id]
    ensures a == b
  {
    assert forall k :: k in a && k != id <==> k in a.Keys - {id};
    assert forall k :: k in b && k != id <==> k in b.Keys - {id};
  }

  lemma StepAlike(codec: Codec, s: State, t: State, e: Event, f: Event, s': State, t': State)
    requires SameButPending(s, t) && IsStep(codec, s, e, s') && IsStep(codec, t, f, t')
    requires e.action == f.action && e.ev == f.ev
    ensures SameButPending(s', t') && StatisticsOf(e.out) == StatisticsOf(f.out)
  {
    hide PieceRel, Pruned, CrowdedOk, Local;
    match e.action
    case Forget(_) =>
    case Parse(id, call, now) =>
      PrunedAlike(s, t, id, now, e.ev.crowded);
      PieceAlike(codec, Pruned(s, id, now, e.ev.crowded), Pruned(t, id, now, e.ev.crowded), id, call,
                 e.ev.dropped, e.ev.taken, s', t', e.out, f.out);
  }

  ghost predicate SameActions(events: seq<Event>, others: seq<Event>) {
    |events| == |others|
    && forall i :: 0 <= i < |events| ==> events[i].action == others[i].action && events[i].ev == others[i].ev
  }

  /** Two runs of the shared parser that start from states differing only in the queues
      hand on the same statistics at every step, whatever is evicted on the way. */
  lemma {:induction false} RunsAlike(codec: Codec, states: seq<State>, events: seq<Event>,
                                     starts: seq<State>, others: seq<Event>, n: nat)
    requires IsRun(codec, states, events) && IsRun(codec, starts, others) && SameActions(events, others)
    requires SameButPending(states[0], starts[0]) && n <= |events|
    ensures SameButPending(states[n], starts[n])
    ensures forall i :: 0 <= i < n ==> StatisticsOf(events[i].out) == StatisticsOf(others[i].out)
  {
    hide SameButPending, IsStep, StatisticsOf;
    if n > 0 {
      RunsAlike(codec, states, events, starts, others, n - 1);
      assert IsStep(codec, states[n - 1], events[n - 1], states[n]);
      assert IsStep(codec, starts[n - 1], others[n - 1], starts[n]);
      StepAlike(codec, states[n - 1], starts[n - 1], events[n - 1], others[n - 1], states[n], starts[n]);
    }
  }

  /** End to end, on a connection nothing is taken from: exactly the statistics its
      messages carry, by the reference that knows no queue. */
  lemma StatisticsComeOut(codec: Codec, states: seq<State>, events: seq<Event>, c: Id)
    requires IsRun(codec, states, events) && Inv(states[0])
    requires forall i :: 0 <= i < |events| ==> Spares(states[i], events[i], c)
    ensures Local(states[0], c).Valid()
    ensures StatisticsOf(OutputOf(events, c))
         == Expected(codec, Local(states[0], c).talk.host, Untagged(Handled(codec, states[0], events, c)))
  {
    hide Inv, IsStep, Spares, AbsorbAll, ConnRun, FramesOf, Expected, Local;
    var conn, calls := Local(states[0], c), CallsOf(events, c);
    Isolation(codec, states, events, c);
    RunIsItsFrames(codec, conn, calls);
    EmissionIgnoresPairing(codec, conn.talk, Untagged(FramesOf(codec, conn, calls)));
  }

  // ----- the other connections make no difference -----

  /** A parser that is fed only one connection's calls. */
  predicate OnlyOf(events: seq<Event>, c: Id) { forall e :: e in events ==> Concerns(e, c) }

  /** It knows of no other connection. */
  predicate KnowsOnly(s: State, c: Id) { s.lastSeen.Keys <= {c} }

  lemma OwnStepTakesNothing(codec: Codec, s: State, e: Event, s': State, c: Id)
    requires Inv(s) && KnowsOnly(s, c) && IsStep(codec, s, e, s') && Concerns(e, c)
    ensures Spares(s, e, c) && KnowsOnly(s', c)
  {
    hide ConnStep, ContentsOk, PieceRel, Total, Large, CrowdedOk;
    var Parse(id, call, now) := e.action;
    var p := Pruned(s, id, now, e.ev.crowded);
    PruningIsSafe(s, id, now, e.ev.crowded);
    PrunedKeepsInv(s, id, now, e.ev.crowded);
    PrunedTalk(p, id);
    BuffersOfPiece(codec, p, id, call, e.ev.dropped, e.ev.taken, s', e.out);
    ReplyBounded(codec, Local(p, id), call);
    var buffer := ConnStep(codec, Local(p, id), call).conn.Link(call.direction).buffer;
    TooLittleToTake(p, id, call.direction, buffer, e.ev.taken);
    TablesOfPiece(codec, p, id, call, e.ev.dropped, e.ev.taken, s', e.out);
  }

  lemma TablesOfPiece(codec: Codec, p: State, id: Id, call: Call, dropped: set<Id>, taken: set<Key>,
                      s: State, out: seq<Message>)
    requires Local(p, id).Valid() && PieceRel(codec, p, id, call, dropped, taken, s, out)
    ensures s.lastSeen == p.lastSeen && id !in dropped
  {
    hide ConnStep, TakenOk, QueuesMoved, SkipsMoved, LeastRecent;
  }

  /** Both directions of one connection together never reach the budget. */
  lemma TooLittleToTake(p: State, c: Id, d: Direction, buffer: bytes, taken: set<Key>)
    requires Inv(p) && KnowsOnly(p, c) && c in p.lastSeen && |buffer| <= MAX_MESSAGE_BYTES
    requires TakenOk(p.buffers[Key(c, d) := buffer], Key(c, d), taken)
    ensures taken == {}
  {
    hide Total, Large;
    var full := p.buffers[Key(c, d) := buffer];
    KeysPerId(full.Keys, {c});
    assert |full| == |full.Keys| <= 2;
    TotalAtMost(full, MAX_MESSAGE_BYTES);
    if t :| t in taken {
      TotalOfSubmap(full - (taken - {t}), full);
    }
  }

  lemma {:induction false} TotalAtMost(m: map<Key, bytes>, n: nat)
    requires forall k :: k in m ==> |m[k]| <= n
    ensures Total(m) <= |m| * n
    decreases |m|
  {
    if m != map[] {
      hide Total;
      var k :| k in m;
      assert (m - {k}).Keys == m.Keys - {k} && |(m - {k}).Keys| == |m - {k}| && |m.Keys| == |m|;
      TotalRemove(m, k);
      TotalAtMost(m - {k}, n);
      assert |m| * n == (|m| - 1) * n + n;
    }
  }

  lemma {:induction false} OwnRunTakesNothing(codec: Codec, states: seq<State>, events: seq<Event>, c: Id, n: nat)
    requires IsRun(codec, states, events) && states[0] == INITIAL && OnlyOf(events, c) && n <= |events|
    ensures Inv(states[n]) && KnowsOnly(states[n], c)
    ensures forall i :: 0 <= i < n ==> Spares(states[i], events[i], c)
  {
    hide Inv, IsStep, Spares;
    InitialInv();
    RunKeepsInv(codec, states, events, n);
    if n > 0 {
      OwnRunTakesNothing(codec, states, events, c, n - 1);
      assert IsStep(codec, states[n - 1], events[n - 1], states[n]) && events[n - 1] in events;
      OwnStepTakesNothing(codec, states[n - 1], events[n - 1], states[n], c);
    }
  }

  /** Isolation from the others: the messages of a connection nothing is taken from are
      those of a fresh parser fed only that connection's calls. */
  lemma IsolationFromOthers(codec: Codec, states: seq<State>, events: seq<Event>,
                            alone: seq<State>, own: seq<Event>, c: Id)
    requires IsRun(codec, states, events) && states[0] == INITIAL
    requires forall i :: 0 <= i < |events| ==> Spares(states[i], events[i], c)
    requires IsRun(codec, alone, own) && alone[0] == INITIAL && OnlyOf(own, c)
    requires CallsOf(own, c) == CallsOf(events, c)
    ensures OutputOf(own, c) == OutputOf(events, c)
    ensures Local(alone[|own|], c) == Local(states[|events|], c)
  {
    hide Inv, IsStep, Spares, ConnRun, Local;
    InitialInv();
    OwnRunTakesNothing(codec, alone, own, c, |own|);
    Isolation(codec, alone, own, c);
    Isolation(codec, states, events, c);
  }
}
