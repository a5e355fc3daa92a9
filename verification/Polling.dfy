/** Round-robin polling: one non-blocking `recv` per socket, starting where the last
    call left off. */
module Polling {
  import opened Basics

  /** What one `recv` comes back with. */
  datatype Answer =
    | Data(packet: bytes)   // a packet was pending
    | Nothing               // no bytes, without an error
    | WouldBlock            // nothing pending
    | TooLong               // a packet larger than the buffer, lost
    | Broken(stopped: bool) // any other error, and whether capture is being stopped

  /** Where the next call starts, and how many packets were too long so far. */
  datatype Turn = Turn(next: nat, oversized: u64)

  datatype Polled = Polled(packet: Option<bytes>, turn: Turn)

  predicate EndsPoll(a: Answer) { a.Data? || a == Broken(true) }

  /** Where the first answer that ends the call is, or the length when none does. */
  function FirstFinal(ring: seq<Answer>): (d: nat)
    ensures d <= |ring| && forall i :: 0 <= i < d ==> !EndsPoll(ring[i])
    ensures d < |ring| ==> EndsPoll(ring[d])
  {
    if ring == [] || EndsPoll(ring[0]) then 0 else 1 + FirstFinal(ring[1..])
  }

  function TooLongIn(ring: seq<Answer>): nat {
    if ring == [] then 0 else TooLongIn(ring[..|ring| - 1]) + if ring[|ring| - 1].TooLong? then 1 else 0
  }

  /** The counter after the first `d` answers: it stops at its maximum. */
  function Counted(oversized: u64, ring: seq<Answer>, d: nat): u64
    requires d <= |ring|
  {
    Min(oversized + TooLongIn(ring[..d]), U64_MAX)
  }

  /** None of the first `d` answers ends the call. */
  predicate GoesOn(ring: seq<Answer>, d: nat)
    requires d <= |ring|
  {
    forall i :: 0 <= i < d ==> !EndsPoll(ring[i])
  }

  function Wrap(x: nat, n: nat): (p: nat)
    requires n > 0
    ensures p < n
  {
    x % n
  }

  /** The sockets' answers in the order they are asked. */
  function Ring(answers: seq<Answer>, next: nat): (ring: seq<Answer>)
    requires answers != []
    ensures |ring| == |answers|
  {
    var start := Wrap(next, |answers|);
    answers[start..] + answers[..start]
  }

  function Poll(t: Turn, answers: seq<Answer>): Polled {
    if answers == [] then Polled(None, t)
    else
      var n, ring := |answers|, Ring(answers, t.next);
      var d := FirstFinal(ring);
      var oversized := Counted(t.oversized, ring, d);
      if d == n then Polled(None, Turn(Wrap(t.next + 1, n), oversized))
      else match ring[d]
        case Data(packet) => Polled(Some(packet), Turn(Wrap(Wrap(t.next + d, n) + 1, n), oversized))
        case _ => Polled(None, Turn(t.next, oversized))
  }

  /** Which socket's packet the call returns. */
  function Served(t: Turn, answers: seq<Answer>): Option<nat> {
    if answers == [] then None
    else
      var ring := Ring(answers, t.next);
      var d := FirstFinal(ring);
      if d < |ring| && ring[d].Data? then Some(Wrap(t.next + d, |answers|)) else None
  }

  lemma StartsOn(oversized: u64, ring: seq<Answer>)
    ensures Counted(oversized, ring, 0) == oversized && GoesOn(ring, 0)
  {
  }

  lemma OneMoreAnswer(oversized: u64, ring: seq<Answer>, d: nat)
    requires d < |ring|
    ensures Counted(oversized, ring, d + 1)
         == if ring[d].TooLong? then SatAdd(Counted(oversized, ring, d), 1) else Counted(oversized, ring, d)
    ensures GoesOn(ring, d + 1) <==> GoesOn(ring, d) && !EndsPoll(ring[d])
  {
    assert ring[..d + 1][..d] == ring[..d];
  }

  lemma {:induction false} FirstFinalIs(ring: seq<Answer>, d: nat)
    requires d <= |ring| && GoesOn(ring, d)
    requires d < |ring| ==> EndsPoll(ring[d])
    ensures FirstFinal(ring) == d
  {
  }

  /** What a call comes to, given where it ends. */
  lemma PollEndsAt(t: Turn, answers: seq<Answer>, d: nat)
    requires answers != [] && d <= |answers|
    requires GoesOn(Ring(answers, t.next), d)
    requires d < |answers| ==> EndsPoll(Ring(answers, t.next)[d])
    ensures var n, ring := |answers|, Ring(answers, t.next);
      Poll(t, answers)
      == var oversized := Counted(t.oversized, ring, d);
         if d == n then Polled(None, Turn(Wrap(t.next + 1, n), oversized))
         else if ring[d].Data? then Polled(Some(ring[d].packet), Turn(Wrap(Wrap(t.next + d, n) + 1, n), oversized))
         else Polled(None, Turn(t.next, oversized))
  {
    FirstFinalIs(Ring(answers, t.next), d);
  }

  // ----- positions on the ring -----

  lemma ModIs(x: nat, q: int, r: nat, n: nat)
    requires r < n && x == q * n + r
    ensures x % n == r
  {
    var e := x / n - q;
    assert n * e == r - x % n by {
      assert x == n * (x / n) + x % n;
    }
  }

  function PlaceAt(next: nat, d: nat, n: nat): (p: nat)
    requires d <= n && n > 0
  {
    var s := Wrap(next, n);
    if s + d < n then s + d else s + d - n
  }

  lemma PlaceIsMod(next: nat, d: nat, n: nat)
    requires n > 0 && d <= n
    ensures Wrap(next + d, n) == PlaceAt(next, d, n) < n
  {
    var q, s := next / n, next % n;
    assert next == q * n + s;
    if s + d < n {
      ModIs(next + d, q, s + d, n);
    } else {
      assert (q + 1) * n == q * n + n;
      ModIs(next + d, q + 1, s + d - n, n);
    }
  }

  lemma RingAt(answers: seq<Answer>, next: nat, d: nat)
    requires d < |answers|
    ensures Wrap(next + d, |answers|) == PlaceAt(next, d, |answers|) < |answers|
    ensures Ring(answers, next)[d] == answers[PlaceAt(next, d, |answers|)]
  {
    PlaceIsMod(next, d, |answers|);
  }

  // ----- the loop of one call -----

  /** The state of the loop before the answer at `offset`: nothing has ended the call. */
  ghost predicate Asking(start: Turn, answers: seq<Answer>, offset: nat, now: Turn) {
    answers != [] && offset <= |answers|
    && now == Turn(start.next, Counted(start.oversized, Ring(answers, start.next), offset))
    && GoesOn(Ring(answers, start.next), offset)
  }

  function Passed(now: Turn, a: Answer): Turn {
    if a.TooLong? then now.(oversized := SatAdd(now.oversized, 1)) else now
  }

  /** What the call comes to when socket `index` ends it. */
  function Ended(now: Turn, index: nat, n: nat, a: Answer): Polled
    requires n > 0
  {
    if a.Data? then Polled(Some(a.packet), now.(next := Wrap(index + 1, n))) else Polled(None, now)
  }

  lemma AskingStarts(start: Turn, answers: seq<Answer>)
    requires answers != []
    ensures Asking(start, answers, 0, start)
  {
    StartsOn(start.oversized, Ring(answers, start.next));
  }

  lemma AskingStep(start: Turn, answers: seq<Answer>, offset: nat, now: Turn)
    requires Asking(start, answers, offset, now) && offset < |answers|
    ensures
      var index := Wrap(now.next + offset, |answers|);
      var a := answers[index];
      if EndsPoll(a) then Poll(start, answers) == Ended(now, index, |answers|, a)
      else Asking(start, answers, offset + 1, Passed(now, a))
  {
    hide Poll, Ring, Counted, GoesOn, Wrap;
    RingAt(answers, start.next, offset);
    OneMoreAnswer(start.oversized, Ring(answers, start.next), offset);
    if EndsPoll(Ring(answers, start.next)[offset]) { PollEndsAt(start, answers, offset); }
  }

  lemma AskingEnds(start: Turn, answers: seq<Answer>, now: Turn)
    requires Asking(start, answers, |answers|, now)
    ensures Poll(start, answers) == Polled(None, now.(next := Wrap(now.next + 1, |answers|)))
  {
    hide Poll, Ring, Counted, GoesOn, Wrap;
    PollEndsAt(start, answers, |answers|);
  }

  /** How many sockets are asked before socket `k`. */
  function Distance(next: nat, k: nat, n: nat): (d: nat)
    requires k < n
    ensures d < n
  {
    var s := Wrap(next, n);
    if s <= k then k - s else k + n - s
  }

  lemma DistancePlace(next: nat, k: nat, n: nat)
    requires k < n
    ensures PlaceAt(next, Distance(next, k, n), n) == k
  {
  }

  // ----- what one call does -----

  /** Without a stop, a call comes back empty exactly when no socket has a packet, and
      otherwise with the packet of the socket it served. */
  lemma PollMissesNothing(t: Turn, answers: seq<Answer>)
    requires Broken(true) !in answers
    ensures Poll(t, answers).packet.None? <==> forall a :: a in answers ==> !a.Data?
    ensures match Served(t, answers)
      case None => Poll(t, answers).packet.None?
      case Some(k) => k < |answers| && answers[k].Data? && Poll(t, answers).packet == Some(answers[k].packet)
  {
    if answers != [] {
      var ring := Ring(answers, t.next);
      var d := FirstFinal(ring);
      assert forall a :: a in answers <==> a in ring by {
        var s := Wrap(t.next, |answers|);
        assert answers == answers[..s] + answers[s..];
      }
      if d < |ring| {
        RingAt(answers, t.next, d);
        assert ring[d] in answers;
      }
    }
  }

  lemma NextStays(t: Turn, answers: seq<Answer>)
    requires Broken(true) !in answers && answers != []
    ensures Poll(t, answers).turn.next < |answers|
  {
    var ring := Ring(answers, t.next);
    var d := FirstFinal(ring);
    if d < |ring| { RingAt(answers, t.next, d); }
  }

  /** A call that does not serve a ready socket brings it nearer. */
  lemma Nearer(t: Turn, answers: seq<Answer>, k: nat)
    requires k < |answers| && answers[k].Data? && Broken(true) !in answers
    ensures Served(t, answers) == Some(k)
         || Distance(Poll(t, answers).turn.next, k, |answers|) < Distance(t.next, k, |answers|)
  {
    var n, ring := |answers|, Ring(answers, t.next);
    var d, far := FirstFinal(ring), Distance(t.next, k, n);
    DistancePlace(t.next, k, n);
    RingAt(answers, t.next, far);
    assert EndsPoll(ring[far]) && d <= far;
    RingAt(answers, t.next, d);
    assert ring[d] in answers;
    if d < far {
      var j := PlaceAt(t.next, d, n);
      PlaceIsMod(j, 1, n);
      ModIs(j, 0, j, n);
      var next := PlaceAt(j, 1, n);
      ModIs(next, 0, next, n);
      assert Poll(t, answers).turn.next == next;
    }
  }

  /** Which socket is served: the first ready one on the ring, unless the call is ended
      by a stop before it. */
  lemma ServedExactly(t: Turn, answers: seq<Answer>, k: nat)
    requires k < |answers|
    ensures Served(t, answers) == Some(k) <==>
      answers[k].Data?
      && forall j :: 0 <= j < |answers| && Distance(t.next, j, |answers|) < Distance(t.next, k, |answers|) ==>
           !answers[j].Data? && answers[j] != Broken(true)
  {
    hide PlaceAt, Ring, FirstFinal;
    var n, ring := |answers|, Ring(answers, t.next);
    var d, far := FirstFinal(ring), Distance(t.next, k, n);
    FinalIs(ring);
    AskedAt(t.next, k, answers);
    if d < n {
      RingAt(answers, t.next, d);
      PlaceDistance(t.next, d, n);
      AskedAt(t.next, PlaceAt(t.next, d, n), answers);
    }
    forall j | 0 <= j < n
      ensures Distance(t.next, j, n) < n && ring[Distance(t.next, j, n)] == answers[j]
    {
      AskedAt(t.next, j, answers);
    }
    forall i | 0 <= i < |ring|
      ensures PlaceAt(t.next, i, n) < n && ring[i] == answers[PlaceAt(t.next, i, n)]
      ensures Distance(t.next, PlaceAt(t.next, i, n), n) == i
    {
      PlaceDistance(t.next, i, n);
      RingAt(answers, t.next, i);
    }
  }

  lemma FinalIs(ring: seq<Answer>)
    ensures
      var d := FirstFinal(ring);
      d <= |ring| && (forall i :: 0 <= i < d ==> !EndsPoll(ring[i])) && (d < |ring| ==> EndsPoll(ring[d]))
  {
  }

  lemma AskedAt(next: nat, k: nat, answers: seq<Answer>)
    requires k < |answers|
    ensures Ring(answers, next)[Distance(next, k, |answers|)] == answers[k]
    ensures PlaceAt(next, Distance(next, k, |answers|), |answers|) == k
  {
    DistancePlace(next, k, |answers|);
    RingAt(answers, next, Distance(next, k, |answers|));
  }

  lemma PlaceDistance(next: nat, d: nat, n: nat)
    requires d < n
    ensures PlaceAt(next, d, n) < n && Distance(next, PlaceAt(next, d, n), n) == d
  {
  }

  /** Where the next call starts: behind the socket that was served; one further when
      nothing was ready; and where this one did when it was ended by a stop. */
  lemma NextStart(t: Turn, answers: seq<Answer>)
    requires answers != []
    ensures
      var n, next := |answers|, Poll(t, answers).turn.next;
      match Served(t, answers)
      case Some(k) => k < n && next == if k == n - 1 then 0 else k + 1
      case None =>
        if Broken(true) in answers then next == t.next
        else next == if PlaceAt(t.next, 0, n) == n - 1 then 0 else PlaceAt(t.next, 0, n) + 1
  {
    hide Ring, Counted;
    var n, ring := |answers|, Ring(answers, t.next);
    var d := FirstFinal(ring);
    FinalIs(ring);
    SameAnswers(answers, t.next);
    if d < n {
      RingAt(answers, t.next, d);
      var k := PlaceAt(t.next, d, n);
      PlaceIsMod(k, 1, n);
      ModIs(k, 0, k, n);
      assert ring[d] in ring;
    } else {
      PlaceIsMod(t.next, 1, n);
    }
  }

  lemma SameAnswers(answers: seq<Answer>, next: nat)
    requires answers != []
    ensures forall a :: a in answers <==> a in Ring(answers, next)
  {
    var s := Wrap(next, |answers|);
    assert answers == answers[..s] + answers[s..];
  }

  // ----- what was lost -----

  /** The sockets with a packet too long among the first `d` asked. */
  function LostAmong(answers: seq<Answer>, next: nat, d: nat): set<nat> {
    set j: nat | j < |answers| && answers[j].TooLong? && Distance(next, j, |answers|) < d
  }

  lemma {:induction false} LostCounted(answers: seq<Answer>, next: nat, d: nat)
    requires answers != [] && d <= |answers|
    ensures TooLongIn(Ring(answers, next)[..d]) == |LostAmong(answers, next, d)|
    decreases d
  {
    hide Ring, PlaceAt, Distance;
    if d == 0 {
      assert LostAmong(answers, next, 0) == {};
      assert Ring(answers, next)[..0] == [];
    } else {
      var k := PlaceAt(next, d - 1, |answers|);
      LostCounted(answers, next, d - 1);
      RingAt(answers, next, d - 1);
      OneMoreLost(answers, next, d - 1);
      assert Ring(answers, next)[..d][..d - 1] == Ring(answers, next)[..d - 1];
    }
  }

  lemma OneMoreLost(answers: seq<Answer>, next: nat, d: nat)
    requires d < |answers|
    ensures
      var k := PlaceAt(next, d, |answers|);
      k < |answers|
      && |LostAmong(answers, next, d + 1)| == |LostAmong(answers, next, d)| + if answers[k].TooLong? then 1 else 0
  {
    var n, k := |answers|, PlaceAt(next, d, |answers|);
    PlaceDistance(next, d, n);
    var before, after := LostAmong(answers, next, d), LostAmong(answers, next, d + 1);
    forall j | j in after
      ensures j in before || j == k
    {
      DistancePlace(next, j, n);
    }
    assert k !in before;
    if answers[k].TooLong? {
      assert after == before + {k};
    } else {
      assert after == before;
    }
  }

  /** The counter grows by exactly the sockets that lost a packet: all of them when none was
      ready, those asked before the one served otherwise; and it stops at its maximum. */
  lemma LossesAreCounted(t: Turn, answers: seq<Answer>)
    requires answers != [] && Broken(true) !in answers
    ensures
      var asked := if Served(t, answers).Some? then Distance(t.next, Served(t, answers).value, |answers|) else |answers|;
      Poll(t, answers).turn.oversized == Min(t.oversized + |LostAmong(answers, t.next, asked)|, U64_MAX)
  {
    hide Ring, LostAmong, Distance;
    var n, ring := |answers|, Ring(answers, t.next);
    var d := FirstFinal(ring);
    FinalIs(ring);
    SameAnswers(answers, t.next);
    LostCounted(answers, t.next, d);
    if d < n {
      assert ring[d] in ring;
      RingAt(answers, t.next, d);
      PlaceDistance(t.next, d, n);
    }
  }

  // ----- over calls -----

  /** Some call of these returns socket `k`'s packet. */
  predicate ServedWithin(t: Turn, calls: seq<seq<Answer>>, k: nat)
    decreases |calls|
  {
    calls != []
    && (Served(t, calls[0]) == Some(k) || ServedWithin(Poll(t, calls[0]).turn, calls[1..], k))
  }

  predicate Stable(calls: seq<seq<Answer>>, n: nat) {
    forall c :: c in calls ==> |c| == n && Broken(true) !in c
  }

  /** Whatever the other sockets do, a socket whose packets are always pending is
      served within one call per socket. */
  lemma {:induction false} EverySocketIsServed(t: Turn, calls: seq<seq<Answer>>, n: nat, k: nat)
    requires k < n && Stable(calls, n) && forall c: seq<Answer> :: c in calls ==> c[k].Data?
    requires |calls| > Distance(t.next, k, n)
    ensures ServedWithin(t, calls, k)
    decreases |calls|
  {
    assert calls[0] in calls;
    Nearer(t, calls[0], k);
    if Served(t, calls[0]) != Some(k) {
      EverySocketIsServed(Poll(t, calls[0]).turn, calls[1..], n, k);
    }
  }

  lemma WithinOneRound(t: Turn, calls: seq<seq<Answer>>, n: nat, k: nat)
    requires k < n <= |calls| && Stable(calls, n) && forall c: seq<Answer> :: c in calls ==> c[k].Data?
    ensures ServedWithin(t, calls, k)
  {
    EverySocketIsServed(t, calls, n, k);
  }

  /** When all are busy they take turns, so the bound cannot be smaller. */
  lemma {:induction false} BusySocketsTakeTurns(t: Turn, calls: seq<seq<Answer>>, n: nat, k: nat)
    requires k < n && Stable(calls, n)
    requires forall c: seq<Answer>, i :: c in calls && 0 <= i < n ==> c[i].Data?
    ensures ServedWithin(t, calls, k) <==> |calls| > Distance(t.next, k, n)
    decreases |calls|
  {
    if calls != [] {
      var c := calls[0];
      assert c in calls;
      RingAt(c, t.next, 0);
      assert FirstFinal(Ring(c, t.next)) == 0;
      var j := PlaceAt(t.next, 0, n);
      PlaceIsMod(j, 1, n);
      ModIs(j, 0, j, n);
      var after := PlaceAt(j, 1, n);
      ModIs(after, 0, after, n);
      assert Poll(t, c).turn.next == after;
      BusySocketsTakeTurns(Poll(t, c).turn, calls[1..], n, k);
    }
  }
}
