/** The sockets a raw capture holds: opened, reconciled with the adapters that are up,
    and closed, by the capture and by its control, in any interleaving. */
module RawSocket {
  import opened Basics
  import opened Polling

  type Address = nat
  type Handle = nat

  datatype Bound = Bound(address: Address, handle: Handle)

  /** What trying to open a socket comes to. A handle refused by `bind` or by the
      capture mode is closed at once; one closed may be handed out again. */
  datatype Attempt = NoSocket | Refused(handle: Handle) | Granted(handle: Handle)

  datatype Call = Opened(handle: Handle) | Closed(handle: Handle)

  /** The bound sockets, and every call made to the system about handles so far. */
  datatype Table = Table(sockets: seq<Bound>, log: seq<Call>)

  function OpenAfter(log: seq<Call>): set<Handle> {
    if log == [] then {}
    else
      var before := OpenAfter(log[..|log| - 1]);
      match log[|log| - 1]
      case Opened(h) => before + {h}
      case Closed(h) => before - {h}
  }

  /** Only what is open is closed, and only what is closed is handed out. */
  predicate Sound(log: seq<Call>) {
    log == []
    || (Sound(log[..|log| - 1])
        && (log[|log| - 1].Closed? <==> log[|log| - 1].handle in OpenAfter(log[..|log| - 1])))
  }

  lemma LogGrows(log: seq<Call>, call: Call)
    ensures OpenAfter(log + [call])
         == if call.Opened? then OpenAfter(log) + {call.handle} else OpenAfter(log) - {call.handle}
    ensures Sound(log + [call]) <==> Sound(log) && (call.Closed? <==> call.handle in OpenAfter(log))
  {
    assert (log + [call])[..|log|] == log;
  }

  function Handles(sockets: seq<Bound>): set<Handle> { set b | b in sockets :: b.handle }

  predicate Distinct(sockets: seq<Bound>) {
    forall i, j :: 0 <= i < j < |sockets| ==>
      sockets[i].address != sockets[j].address && sockets[i].handle != sockets[j].handle
  }

  /** Addresses are bound once, and what is held is exactly what is open. */
  predicate Inv(t: Table) {
    Distinct(t.sockets) && Sound(t.log) && Handles(t.sockets) == OpenAfter(t.log)
  }

  predicate IsBound(sockets: seq<Bound>, address: Address) {
    exists i :: 0 <= i < |sockets| && sockets[i].address == address
  }

  // ----- opening -----

  function OpenOne(t: Table, address: Address, attempt: Attempt): Table {
    match attempt
    case NoSocket => t
    case Refused(h) => t.(log := t.log + [Opened(h)] + [Closed(h)])
    case Granted(h) => Table(t.sockets + [Bound(address, h)], t.log + [Opened(h)])
  }

  function OpenMissing(t: Table, addresses: seq<Address>, attempts: seq<Attempt>): Table
    requires |attempts| == |addresses|
    decreases |addresses|
  {
    if addresses == [] then t
    else OpenMissing(NextOpened(t, addresses[0], attempts[0]), addresses[1..], attempts[1..])
  }

  function NextOpened(t: Table, address: Address, attempt: Attempt): Table {
    if IsBound(t.sockets, address) then t else OpenOne(t, address, attempt)
  }

  /** The system never hands out a handle that is open. */
  predicate Apart(t: Table, addresses: seq<Address>, attempts: seq<Attempt>)
    requires |attempts| == |addresses|
    decreases |addresses|
  {
    addresses == []
    || ((IsBound(t.sockets, addresses[0]) || attempts[0].NoSocket? || attempts[0].handle !in OpenAfter(t.log))
        && Apart(NextOpened(t, addresses[0], attempts[0]), addresses[1..], attempts[1..]))
  }

  lemma OpenOneKeepsInv(t: Table, address: Address, attempt: Attempt)
    requires Inv(t) && !IsBound(t.sockets, address)
    requires attempt.NoSocket? || attempt.handle !in OpenAfter(t.log)
    ensures Inv(OpenOne(t, address, attempt))
  {
    match attempt
    case NoSocket =>
    case Refused(h) =>
      LogGrows(t.log, Opened(h));
      LogGrows(t.log + [Opened(h)], Closed(h));
    case Granted(h) =>
      LogGrows(t.log, Opened(h));
      var after := t.sockets + [Bound(address, h)];
      assert Handles(after) == Handles(t.sockets) + {h} by {
        assert after[|t.sockets|] == Bound(address, h);
        assert forall b :: b in after <==> b in t.sockets || b == Bound(address, h);
      }
      assert forall i :: 0 <= i < |t.sockets| ==> t.sockets[i].handle in Handles(t.sockets);
  }

  lemma {:induction false} OpenMissingKeepsInv(t: Table, addresses: seq<Address>, attempts: seq<Attempt>)
    requires |attempts| == |addresses| && Inv(t) && Apart(t, addresses, attempts)
    ensures Inv(OpenMissing(t, addresses, attempts))
    decreases |addresses|
  {
    if addresses != [] {
      if !IsBound(t.sockets, addresses[0]) {
        OpenOneKeepsInv(t, addresses[0], attempts[0]);
      }
      OpenMissingKeepsInv(NextOpened(t, addresses[0], attempts[0]), addresses[1..], attempts[1..]);
    }
  }

  /** What was bound stays as it is, in front; what is added is listed, and every
      listed address is bound unless opening it failed. */
  lemma {:induction false} OpenMissingAdds(t: Table, addresses: seq<Address>, attempts: seq<Attempt>)
    requires |attempts| == |addresses|
    ensures var after := OpenMissing(t, addresses, attempts).sockets;
      && |t.sockets| <= |after| && after[..|t.sockets|] == t.sockets
      && (forall i :: |t.sockets| <= i < |after| ==> after[i].address in addresses)
      && (forall i :: 0 <= i < |addresses| && attempts[i].Granted? ==> IsBound(after, addresses[i]))
    decreases |addresses|
  {
    if addresses != [] {
      var next := NextOpened(t, addresses[0], attempts[0]);
      var after := OpenMissing(t, addresses, attempts).sockets;
      OpenMissingAdds(next, addresses[1..], attempts[1..]);
      assert after[..|next.sockets|][..|t.sockets|] == after[..|t.sockets|];
      forall i | 0 <= i < |addresses| && attempts[i].Granted?
        ensures IsBound(after, addresses[i])
      {
        if i == 0 {
          if !IsBound(t.sockets, addresses[0]) {
            assert next.sockets[|t.sockets|].address == addresses[0];
          }
          assert IsBound(next.sockets, addresses[0]);
          var j :| 0 <= j < |next.sockets| && next.sockets[j].address == addresses[0];
          assert after[j] == next.sockets[j];
        } else {
          assert attempts[1..][i - 1].Granted? && addresses[1..][i - 1] == addresses[i];
        }
      }
      forall i | |t.sockets| <= i < |after|
        ensures after[i].address in addresses
      {
        if i < |next.sockets| { assert after[i] == next.sockets[i]; }
      }
    }
  }

  // ----- closing -----

  function Without<T>(s: seq<T>, i: nat): seq<T>
    requires i < |s|
  {
    s[..i] + s[i + 1..]
  }

  function CloseAt(t: Table, i: nat): Table
    requires i < |t.sockets|
  {
    Table(Without(t.sockets, i), t.log + [Closed(t.sockets[i].handle)])
  }

  function CloseGone(t: Table, current: seq<Address>, index: nat): Table
    requires index <= |t.sockets|
    decreases |t.sockets| - index
  {
    if index == |t.sockets| then t
    else if t.sockets[index].address in current then CloseGone(t, current, index + 1)
    else CloseGone(CloseAt(t, index), current, index)
  }

  lemma CloseAtKeepsInv(t: Table, i: nat)
    requires i < |t.sockets| && Inv(t)
    ensures Inv(CloseAt(t, i))
  {
    var h, after := t.sockets[i].handle, Without(t.sockets, i);
    LogGrows(t.log, Closed(h));
    assert h in Handles(t.sockets);
    assert forall j :: 0 <= j < |after| ==> after[j] == t.sockets[if j < i then j else j + 1];
    forall k | k in Handles(t.sockets) && k != h
      ensures k in Handles(after)
    {
      var j :| 0 <= j < |t.sockets| && t.sockets[j].handle == k;
      assert after[if j < i then j else j - 1] == t.sockets[j];
    }
    assert Handles(after) == Handles(t.sockets) - {h};
  }

  lemma {:induction false} CloseGoneKeepsInv(t: Table, current: seq<Address>, index: nat)
    requires index <= |t.sockets| && Inv(t)
    ensures Inv(CloseGone(t, current, index))
    decreases |t.sockets| - index
  {
    if index < |t.sockets| {
      if t.sockets[index].address in current {
        CloseGoneKeepsInv(t, current, index + 1);
      } else {
        CloseAtKeepsInv(t, index);
        CloseGoneKeepsInv(CloseAt(t, index), current, index);
      }
    }
  }

  function Kept(sockets: seq<Bound>, current: seq<Address>): seq<Bound> {
    if sockets == [] then []
    else (if sockets[0].address in current then [sockets[0]] else []) + Kept(sockets[1..], current)
  }

  function Closings(sockets: seq<Bound>, current: seq<Address>): seq<Call> {
    if sockets == [] then []
    else (if sockets[0].address in current then [] else [Closed(sockets[0].handle)]) + Closings(sockets[1..], current)
  }

  lemma Around<T>(s: seq<T>, i: nat)
    requires i < |s|
    ensures s[i..][0] == s[i] && s[i..][1..] == s[i + 1..] && s[..i + 1] == s[..i] + [s[i]]
    ensures |Without(s, i)| == |s| - 1 && Without(s, i)[i..] == s[i + 1..] && Without(s, i)[..i] == s[..i]
  {
  }

  lemma FirstKept(sockets: seq<Bound>, current: seq<Address>)
    requires sockets != []
    ensures Kept(sockets, current)
         == (if sockets[0].address in current then [sockets[0]] else []) + Kept(sockets[1..], current)
    ensures Closings(sockets, current)
         == (if sockets[0].address in current then [] else [Closed(sockets[0].handle)]) + Closings(sockets[1..], current)
  {
  }

  /** Exactly the sockets whose adapter is gone are closed, in order, once each. */
  lemma {:induction false} CloseGoneIs(t: Table, current: seq<Address>, index: nat)
    requires index <= |t.sockets|
    ensures CloseGone(t, current, index).sockets == t.sockets[..index] + Kept(t.sockets[index..], current)
    ensures CloseGone(t, current, index).log == t.log + Closings(t.sockets[index..], current)
    decreases |t.sockets| - index
  {
    if index < |t.sockets| {
      hide Without, Kept, Closings;
      var rest := t.sockets[index..];
      Around(t.sockets, index);
      FirstKept(rest, current);
      if t.sockets[index].address in current {
        CloseGoneIs(t, current, index + 1);
      } else {
        CloseGoneIs(CloseAt(t, index), current, index);
      }
    } else {
      assert t.sockets[index..] == [] && t.sockets[..index] == t.sockets;
    }
  }

  lemma {:induction false} KeptIsCurrent(sockets: seq<Bound>, current: seq<Address>)
    ensures forall b :: b in Kept(sockets, current) <==> b in sockets && b.address in current
  {
    if sockets != [] {
      KeptIsCurrent(sockets[1..], current);
      assert sockets == [sockets[0]] + sockets[1..];
    }
  }

  // ----- the operations under the lock -----

  function Reconciled(t: Table, current: seq<Address>, attempts: seq<Attempt>): Table
    requires |attempts| == |current|
  {
    OpenMissing(CloseGone(t, current, 0), current, attempts)
  }

  function Drained(t: Table): Table { CloseGone(t, [], 0) }

  /** After reconciling, only current addresses are bound, those that stayed still by
      the same sockets, and each current address is bound unless opening it failed. */
  lemma ReconciledFits(t: Table, current: seq<Address>, attempts: seq<Attempt>)
    requires |attempts| == |current|
    ensures var after := Reconciled(t, current, attempts).sockets;
      && (forall b :: b in after ==> b.address in current)
      && (forall b :: b in t.sockets && b.address in current ==> b in after)
      && (forall i :: 0 <= i < |current| && attempts[i].Granted? ==> IsBound(after, current[i]))
  {
    var closed := CloseGone(t, current, 0);
    CloseGoneIs(t, current, 0);
    assert t.sockets[0..] == t.sockets && closed.sockets == Kept(t.sockets, current);
    KeptIsCurrent(t.sockets, current);
    OpenMissingAdds(closed, current, attempts);
    var after := Reconciled(t, current, attempts).sockets;
    forall b | b in after
      ensures b.address in current
    {
      var i :| 0 <= i < |after| && after[i] == b;
      if i < |closed.sockets| {
        assert closed.sockets[i] == after[..|closed.sockets|][i] == b;
        assert b in Kept(t.sockets, current);
      }
    }
    forall b | b in t.sockets && b.address in current
      ensures b in after
    {
      assert b in after[..|closed.sockets|];
    }
  }

  lemma NoneKept(sockets: seq<Bound>)
    ensures Kept(sockets, []) == []
  {
  }

  lemma DrainedIsEmpty(t: Table)
    ensures Drained(t).sockets == []
  {
    CloseGoneIs(t, [], 0);
    NoneKept(t.sockets);
    assert t.sockets[0..] == t.sockets;
  }

  /** One capture and its control, as the lock orders them. Nothing keeps a rebind
      from following a shutdown. */
  datatype Event =
    | Rebind(current: seq<Address>, attempts: seq<Attempt>)
    | Stopped
    | Dropped

  predicate Legal(t: Table, e: Event) {
    match e
    case Rebind(current, attempts) =>
      |attempts| == |current| && Apart(CloseGone(t, current, 0), current, attempts)
    case Stopped => true
    case Dropped => true
  }

  function Step(t: Table, e: Event): Table
    requires Legal(t, e)
  {
    match e
    case Rebind(current, attempts) => Reconciled(t, current, attempts)
    case Stopped => Drained(t)
    case Dropped => Drained(t)
  }

  predicate LegalRun(t: Table, events: seq<Event>)
    decreases |events|
  {
    events == [] || (Legal(t, events[0]) && LegalRun(Step(t, events[0]), events[1..]))
  }

  function Run(t: Table, events: seq<Event>): Table
    requires LegalRun(t, events)
    decreases |events|
  {
    if events == [] then t else Run(Step(t, events[0]), events[1..])
  }

  lemma StepKeepsInv(t: Table, e: Event)
    requires Inv(t) && Legal(t, e)
    ensures Inv(Step(t, e))
  {
    match e
    case Rebind(current, attempts) =>
      CloseGoneKeepsInv(t, current, 0);
      OpenMissingKeepsInv(CloseGone(t, current, 0), current, attempts);
    case Stopped => CloseGoneKeepsInv(t, [], 0);
    case Dropped => CloseGoneKeepsInv(t, [], 0);
  }

  /** In every interleaving addresses stay distinct and no handle leaks or is closed
      twice: what is held is what is open. */
  lemma {:induction false} RunKeepsInv(t: Table, events: seq<Event>)
    requires Inv(t) && LegalRun(t, events)
    ensures Inv(Run(t, events))
    decreases |events|
  {
    if events != [] {
      StepKeepsInv(t, events[0]);
      RunKeepsInv(Step(t, events[0]), events[1..]);
    }
  }

  function Count<T(==)>(s: seq<T>, x: T): nat {
    if s == [] then 0 else Count(s[..|s| - 1], x) + if s[|s| - 1] == x then 1 else 0
  }

  lemma {:induction false} SoundCounts(log: seq<Call>, h: Handle)
    requires Sound(log)
    ensures Count(log, Opened(h)) == Count(log, Closed(h)) + if h in OpenAfter(log) then 1 else 0
  {
    if log != [] {
      SoundCounts(log[..|log| - 1], h);
    }
  }

  /** Once the capture is dropped, whatever went before, every handle ever opened has
      been closed exactly as often as it was opened. */
  lemma DropClosesEverything(t: Table, events: seq<Event>, h: Handle)
    requires Inv(t) && LegalRun(t, events)
    ensures var end := Step(Run(t, events), Dropped);
      end.sockets == [] && OpenAfter(end.log) == {}
      && Count(end.log, Opened(h)) == Count(end.log, Closed(h))
  {
    RunKeepsInv(t, events);
    var last := Run(t, events);
    StepKeepsInv(last, Dropped);
    DrainedIsEmpty(last);
    SoundCounts(Step(last, Dropped).log, h);
  }

  // ----- the capture itself -----

  const REBIND_INTERVAL: nat := 15_000

  function HandlesInOrder(sockets: seq<Bound>): (handles: seq<Handle>)
    ensures |handles| == |sockets|
  {
    seq(|sockets|, i requires 0 <= i < |sockets| => sockets[i].handle)
  }

  function Answers(handles: seq<Handle>, recv: Handle -> Answer): (answers: seq<Answer>)
    ensures |answers| == |handles|
  {
    seq(|handles|, i requires 0 <= i < |handles| => recv(handles[i]))
  }

  class RawCapture {
    var stop: bool
    var sockets: seq<Bound>
    var next: nat
    var lastRebind: nat
    var oversizedPackets: u64
    ghost var log: seq<Call>

    ghost function View(): Table
      reads this
    {
      Table(sockets, log)
    }

    ghost predicate Valid()
      reads this
    {
      Inv(View())
    }

    constructor (handles: seq<Bound>, now: nat, ghost log: seq<Call>)
      requires Inv(Table(handles, log))
      ensures Valid() && View() == Table(handles, log)
      ensures !stop && next == 0 && lastRebind == now && oversizedPackets == 0
    {
      stop := false;
      sockets := handles;
      next := 0;
      lastRebind := now;
      oversizedPackets := 0;
      this.log := log;
    }

    /** Opening fails only when no address accepts a socket; nothing stays open then. */
    static method Open(addresses: seq<Address>, attempts: seq<Attempt>, now: nat)
      returns (capture: RawCapture?, ghost end: Table)
      requires |attempts| == |addresses|
      requires forall i, j :: 0 <= i < j < |addresses| ==> addresses[i] != addresses[j]
      requires Apart(Table([], []), addresses, attempts)
      ensures end == OpenMissing(Table([], []), addresses, attempts) && Inv(end)
      ensures capture == null <==> end.sockets == []
      ensures capture == null ==> OpenAfter(end.log) == {}
      ensures capture != null ==> fresh(capture) && capture.Valid() && capture.View() == end
    {
      var handles: seq<Bound> := [];
      end := Table([], []);
      OpenMissingKeepsInv(end, addresses, attempts);
      assert addresses[0..] == addresses && attempts[0..] == attempts;
      for i := 0 to |addresses|
        invariant handles == end.sockets
        invariant forall k :: 0 <= k < |handles| ==> handles[k].address in addresses[..i]
        invariant OpenMissing(end, addresses[i..], attempts[i..]) == OpenMissing(Table([], []), addresses, attempts)
      {
        assert addresses[i..][1..] == addresses[i + 1..] && attempts[i..][1..] == attempts[i + 1..];
        assert addresses[i] !in addresses[..i] && !IsBound(handles, addresses[i]);
        assert addresses[..i + 1] == addresses[..i] + [addresses[i]];
        end := OpenOne(end, addresses[i], attempts[i]);
        if attempts[i].Granted? {
          handles := handles + [Bound(addresses[i], attempts[i].handle)];
        }
      }
      if handles == [] {
        capture := null;
        assert Handles(end.sockets) == {};
      } else {
        capture := new RawCapture(handles, now, end.log);
      }
    }

    method CloseSocket(handle: Handle)
      modifies this`log
      ensures log == old(log) + [Closed(handle)]
    {
      log := log + [Closed(handle)];
    }

    /** Closes the sockets whose adapter is gone, then opens one for each new adapter;
        at most once per interval, and not at all when the adapters cannot be listed. */
    method MaybeRebind(now: nat, current: Option<seq<Address>>, attempts: seq<Attempt>)
      requires Valid() && lastRebind <= now
      requires current.Some? ==> Legal(View(), Rebind(current.value, attempts))
      modifies this`sockets, this`lastRebind, this`log
      ensures Valid()
      ensures lastRebind == if now - old(lastRebind) < 15_000 then old(lastRebind) else now
      ensures View() == if now - old(lastRebind) < 15_000 || current.None? then old(View())
                        else Step(old(View()), Rebind(current.value, attempts))
    {
      if now - lastRebind < REBIND_INTERVAL {
        return;
      }
      lastRebind := now;
      if current.None? {
        return;
      }
      StepKeepsInv(View(), Rebind(current.value, attempts));
      CloseVanished(current.value);
      OpenAppeared(current.value, attempts);
    }

    method CloseVanished(addresses: seq<Address>)
      modifies this`sockets, this`log
      ensures View() == CloseGone(old(View()), addresses, 0)
    {
      hide Without;
      var index := 0;
      while index < |sockets|
        invariant index <= |sockets|
        invariant CloseGone(View(), addresses, index) == CloseGone(old(View()), addresses, 0)
        decreases |sockets| - index
      {
        if sockets[index].address in addresses {
          index := index + 1;
        } else {
          var handle := sockets[index].handle;
          Around(sockets, index);
          sockets := Without(sockets, index);
          CloseSocket(handle);
        }
      }
    }

    method OpenAppeared(addresses: seq<Address>, attempts: seq<Attempt>)
      requires |attempts| == |addresses|
      modifies this`sockets, this`log
      ensures View() == OpenMissing(old(View()), addresses, attempts)
    {
      assert addresses[0..] == addresses && attempts[0..] == attempts;
      for i := 0 to |addresses|
        invariant OpenMissing(View(), addresses[i..], attempts[i..]) == OpenMissing(old(View()), addresses, attempts)
      {
        Around(addresses, i);
        Around(attempts, i);
        if !(exists k :: 0 <= k < |sockets| && sockets[k].address == addresses[i]) {
          match attempts[i] {
            case NoSocket =>
            case Refused(handle) =>
              log := log + [Opened(handle)];
              CloseSocket(handle);
            case Granted(handle) =>
              log := log + [Opened(handle)];
              sockets := sockets + [Bound(addresses[i], handle)];
          }
        }
      }
    }

    /** Asks the sockets in turn. Only the two counters change. */
    method PollOnce(handles: seq<Handle>, recv: Handle -> Answer) returns (packet: Option<bytes>)
      modifies this`next, this`oversizedPackets
      ensures Polled(packet, Turn(next, oversizedPackets))
           == Poll(old(Turn(next, oversizedPackets)), Answers(handles, recv))
    {
      if handles == [] {
        return None;
      }
      ghost var answers, start := Answers(handles, recv), Turn(next, oversizedPackets);
      hide Poll, Asking, Wrap, SatAdd;
      AskingStarts(start, answers);
      for offset := 0 to |handles|
        invariant Asking(start, answers, offset, Turn(next, oversizedPackets))
      {
        AskingStep(start, answers, offset, Turn(next, oversizedPackets));
        var index := Wrap(next + offset, |handles|);
        var read := recv(handles[index]);
        match read {
          case Data(bytes) =>
            next := Wrap(index + 1, |handles|);
            return Some(bytes);
          case TooLong =>
            oversizedPackets := SatAdd(oversizedPackets, 1);
          case Broken(stopped) =>
            if stopped {
              return None;
            }
          case Nothing =>
          case WouldBlock =>
        }
      }
      AskingEnds(start, answers, Turn(next, oversizedPackets));
      next := Wrap(next + 1, |handles|);
      return None;
    }

    method NextPacket(now: nat, current: Option<seq<Address>>, attempts: seq<Attempt>, recv: Handle -> Answer)
      returns (packet: Option<bytes>)
      requires Valid() && lastRebind <= now
      requires current.Some? ==> Legal(View(), Rebind(current.value, attempts))
      modifies this
      ensures Valid() && stop == old(stop)
      ensures stop ==> packet == None && View() == old(View()) && lastRebind == old(lastRebind)
      ensures stop ==> next == old(next) && oversizedPackets == old(oversizedPackets)
      ensures !stop ==>
        View() == if now - old(lastRebind) < 15_000 || current.None? then old(View())
                  else Step(old(View()), Rebind(current.value, attempts))
      ensures !stop ==>
        Polled(packet, Turn(next, oversizedPackets))
        == Poll(old(Turn(next, oversizedPackets)), Answers(HandlesInOrder(sockets), recv))
    {
      if stop {
        return None;
      }
      MaybeRebind(now, current, attempts);
      packet := PollOnce(HandlesInOrder(sockets), recv);
    }

    /** The control's shutdown: from now on no call asks a socket. */
    method Shutdown()
      requires Valid()
      modifies this`stop, this`sockets, this`log
      ensures Valid() && stop && View() == Step(old(View()), Stopped) && sockets == []
    {
      stop := true;
      CloseAll();
    }

    method Drop()
      requires Valid()
      modifies this`sockets, this`log
      ensures Valid() && View() == Step(old(View()), Dropped) && sockets == [] && OpenAfter(log) == {}
    {
      CloseAll();
    }

    method CloseAll()
      requires Valid()
      modifies this`sockets, this`log
      ensures Valid() && View() == Drained(old(View())) && sockets == [] && OpenAfter(log) == {}
    {
      ghost var start := View();
      while sockets != []
        invariant CloseGone(View(), [], 0) == CloseGone(start, [], 0)
        decreases |sockets|
      {
        var handle := sockets[0].handle;
        assert Without(sockets, 0) == sockets[1..];
        sockets := sockets[1..];
        CloseSocket(handle);
      }
      StepKeepsInv(start, Stopped);
      assert Handles(sockets) == {};
    }
  }
}
