/** When a silent connection is forgotten: by the 128th call after it has been silent for
    forty-five minutes, unless it is one to the game. */
module Silence {
  import opened Codecs
  import opened Connection
  import opened ParserState
  import opened ParserRuns

  predicate IsOverdue(seen: Time, now: Time) { now > seen + 45 * 60 * 1_000_000_000 }

  /** How many calls it takes at most until the tables are scanned. */
  function CallsToScan(count: nat): (n: nat)
    ensures 1 <= n <= 128
  {
    if count % 128 == 0 then 1 else 129 - count % 128
  }

  lemma WithoutMultiples(k: nat, r: nat)
    ensures (128 * k + r) % 128 == r % 128
  {
  }

  /** 128 divides the counter's range. */
  lemma WrapKeepsRemainder(n: nat)
    ensures (n % 0x1_0000_0000_0000_0000) % 128 == n % 128
  {
    var q, r := n / 0x1_0000_0000_0000_0000, n % 0x1_0000_0000_0000_0000;
    WithoutMultiples(q * 0x200_0000_0000_0000, r);
    assert n == 128 * (q * 0x200_0000_0000_0000) + r;
  }

  lemma NextRemainder(count: nat)
    ensures count % 128 != 0 ==>
      (count + 1) % 128 == if count % 128 == 127 then 0 else count % 128 + 1
  {
  }

  lemma NextScan(count: nat)
    ensures count % 128 != 0 ==> CallsToScan(NextCount(count)) == CallsToScan(count) - 1
  {
    WrapKeepsRemainder(count + 1);
    NextRemainder(count);
  }

  /** What one call of another connection does to one that has been silent. */
  lemma SilentInACall(codec: Codec, s: State, e: Event, s': State, c: Id, seen: Time)
    requires IsStep(codec, s, e, s') && e.action.Parse? && e.action.id != c
    requires c !in s.hosts && (c in s.lastSeen ==> s.lastSeen[c] <= seen) && IsOverdue(seen, e.action.now)
    ensures c in s'.lastSeen ==> c in s.lastSeen && s'.lastSeen[c] <= seen
    ensures s.parseCount % 128 == 0 ==> c !in s'.lastSeen
    ensures s'.parseCount == NextCount(s.parseCount)
  {
    hide PieceRel, CrowdedOk, NextCount;
    var Parse(id, call, now) := e.action;
    LastSeenOfPiece(codec, Pruned(s, id, now, e.ev.crowded), id, call, e.ev.dropped, e.ev.taken, s', e.out);
    if s.parseCount % 128 == 0 && c in s.lastSeen {
      assert c in Expired(s, id, now);
    }
  }

  lemma LastSeenOfPiece(codec: Codec, p: State, id: Id, call: Call, dropped: set<Id>, taken: set<Key>,
                        s: State, out: seq<Message>)
    requires Local(p, id).Valid() && PieceRel(codec, p, id, call, dropped, taken, s, out)
    ensures s.lastSeen == p.lastSeen && s.parseCount == p.parseCount
  {
    hide ConnStep, TakenOk, QueuesMoved, SkipsMoved, HostsMoved;
  }

  function CountCalls(events: seq<Event>): nat {
    if events == [] then 0 else (if events[0].action.Parse? then 1 else 0) + CountCalls(events[1..])
  }

  /** Silent while others call, and not one of the game's. */
  ghost predicate StaysSilent(states: seq<State>, events: seq<Event>, c: Id, seen: Time)
    requires |states| == |events| + 1
  {
    forall i :: 0 <= i < |events| ==> SilentAt(states[i], events[i], c, seen)
  }

  predicate SilentAt(s: State, e: Event, c: Id, seen: Time) {
    c !in s.hosts && (e.action.Parse? ==> e.action.id != c && IsOverdue(seen, e.action.now))
  }

  lemma {:induction false} SilentUntilScan(codec: Codec, states: seq<State>, events: seq<Event>, c: Id, seen: Time)
    requires IsRun(codec, states, events) && StaysSilent(states, events, c, seen)
    requires c in states[0].lastSeen ==> states[0].lastSeen[c] <= seen
    requires c in states[0].lastSeen ==> CountCalls(events) >= CallsToScan(states[0].parseCount)
    ensures c !in states[|events|].lastSeen
    decreases |events|
  {
    hide StepRel, IsOverdue, IsStep;
    if events != [] {
      var e, s, s' := events[0], states[0], states[1];
      assert IsStep(codec, s, e, s') && SilentAt(s, e, c, seen);
      var later, rest := states[1..], events[1..];
      forall i | 0 <= i < |rest|
        ensures IsStep(codec, later[i], rest[i], later[i + 1]) && SilentAt(later[i], rest[i], c, seen)
      {
        assert IsStep(codec, states[i + 1], events[i + 1], states[i + 2]);
        assert SilentAt(states[i + 1], events[i + 1], c, seen);
      }
      if e.action.Parse? {
        SilentInACall(codec, s, e, s', c, seen);
        NextScan(s.parseCount);
      } else {
        ForgetTouchesNoTime(codec, s, e, s');
      }
      SilentUntilScan(codec, later, rest, c, seen);
    }
  }

  lemma ForgetTouchesNoTime(codec: Codec, s: State, e: Event, s': State)
    requires IsStep(codec, s, e, s') && !e.action.Parse?
    ensures s'.lastSeen == s.lastSeen && s'.parseCount == s.parseCount
  {
  }

  /** Over every run: a connection that is not the game's and was last seen more than
      forty-five minutes before each of 128 calls of others is forgotten at their end,
      with all that was held for it. */
  lemma SilentIsForgotten(codec: Codec, states: seq<State>, events: seq<Event>, c: Id, seen: Time)
    requires IsRun(codec, states, events) && Inv(states[0]) && StaysSilent(states, events, c, seen)
    requires c in states[0].lastSeen ==> states[0].lastSeen[c] <= seen
    requires CountCalls(events) >= 128
    ensures c !in states[|events|].lastSeen && c !in states[|events|].hosts
    ensures Local(states[|events|], c) == NEW_CONN
  {
    hide IsStep, StaysSilent;
    SilentUntilScan(codec, states, events, c, seen);
    RunKeepsInv(codec, states, events, |events|);
    NothingHeldFor(states[|events|], c);
  }

  lemma NothingHeldFor(s: State, c: Id)
    requires Inv(s) && c !in s.lastSeen
    ensures c !in s.hosts && Local(s, c) == NEW_CONN
  {
    hide ContentsOk, Large;
    assert Key(c, ToServer) !in s.buffers && Key(c, ToClient) !in s.buffers;
    assert Key(c, ToServer) !in s.skipped && Key(c, ToClient) !in s.skipped;
  }

  /** What takes another connection out of the table: on every 128th call and whenever
      there are more than 256, being silent for too long and not the game's; or being
      among the oldest of too many. */
  lemma ForgottenExactly(codec: Codec, s: State, e: Event, s': State, c: Id)
    requires IsStep(codec, s, e, s') && e.action.Parse? && e.action.id != c && c in s.lastSeen
    ensures c !in s'.lastSeen <==>
      (c !in s.hosts && IsOverdue(s.lastSeen[c], e.action.now)
       && (s.parseCount % 128 == 0 || |s.lastSeen[e.action.id := e.action.now]| > 256))
      || c in e.ev.crowded
  {
    hide PieceRel, CrowdedOk, NextCount;
    var Parse(id, call, now) := e.action;
    LastSeenOfPiece(codec, Pruned(s, id, now, e.ev.crowded), id, call, e.ev.dropped, e.ev.taken, s', e.out);
  }
}
