/** The incremental parser as the source runs it: one object, shared maps, one
    method per step. Each method is proved against ParserState.StepRel. */
module Parser {
  import opened Basics
  import opened Search
  import opened Codecs
  import opened Hosts
  import opened Chunked
  import opened Framing
  import opened Connection
  import opened ParserState
  import opened ParserSafety
  import opened Budget

  class DiscoveryParser {
    const codec: Codec
    var buffers: map<Key, bytes>
    var hosts: map<Id, string>
    var pending: map<Id, seq<Request>>
    var lastSeen: map<Id, Time>
    var parseCount: nat
    var skipped: map<Key, nat>

    constructor (codec: Codec)
      ensures this.codec == codec && View() == INITIAL && Valid()
    {
      this.codec := codec;
      buffers, hosts, pending, lastSeen, parseCount, skipped := map[], map[], map[], map[], 0, map[];
    }

    ghost function View(): State
      reads this
    {
      State(buffers, hosts, pending, lastSeen, parseCount, skipped)
    }

    ghost predicate Valid()
      reads this
    {
      Inv(View())
    }

    // ----- touch_and_prune -----

    /** Among the candidates, one that has been silent the longest. */
    method Stalest(candidates: set<Id>) returns (id: Id)
      requires candidates != {} && candidates <= lastSeen.Keys
      ensures id in candidates
      ensures forall k :: k in candidates ==> lastSeen[id] <= lastSeen[k]
    {
      var left := candidates;
      id :| id in left;
      left := left - {id};
      while left != {}
        invariant left <= candidates && id in candidates
        invariant forall k :: k in candidates - left ==> lastSeen[id] <= lastSeen[k]
      {
        var k :| k in left;
        if lastSeen[k] < lastSeen[id] { id := k; }
        left := left - {k};
      }
    }

    method TouchAndPrune(id: Id, now: Time) returns (ghost crowded: set<Id>)
      modifies this
      ensures View() == Pruned(old(View()), id, now, crowded)
      ensures CrowdedOk(old(View()), id, now, crowded)
    {
      hide CrowdedOk, Victims, WithoutIds, Touched;
      ghost var s := View();
      NothingPruned(s, id, now);
      var victims;
      victims, crowded := TakeVictims(id, now);
      if victims == {} {
        return;
      }
      buffers := WithoutIds(buffers, victims);
      hosts := hosts - victims;
      pending := pending - victims;
      skipped := WithoutIds(skipped, victims);
    }

    /** Counts the call, touches the connection, and takes whoever must go out of
        `lastSeen`. */
    method TakeVictims(id: Id, now: Time) returns (victims: set<Id>, ghost crowded: set<Id>)
      modifies this`lastSeen, this`parseCount
      ensures victims == Victims(old(View()), id, now, crowded)
      ensures CrowdedOk(old(View()), id, now, crowded)
      ensures lastSeen == Touched(old(View()), id, now) - victims
      ensures parseCount == NextCount(old(parseCount))
    {
      hide Silent, OldestTaken, Victims, CrowdedOk, Scans, Touched, IsDue, NextCount;
      ghost var s := View();
      ScanFacts(s, id, now);
      var count := parseCount;
      parseCount := NextCount(parseCount);
      var guarded := hosts.Keys;
      lastSeen := lastSeen[id := now];
      ghost var seen := lastSeen;
      if !IsDue(count) && |lastSeen| <= MAX_DISCOVERY_CONNECTIONS {
        NoScan(s, id, now);
        MinusNone(seen);
        return {}, {};
      }
      victims, crowded := TakeSilentAndCrowded(guarded, now);
      ScanTaken(s, id, now, Silent(seen, guarded, now), crowded);
    }

    /** Those silent too long, and then as many of the oldest as there still are too many. */
    method TakeSilentAndCrowded(guarded: set<Id>, now: Time) returns (victims: set<Id>, ghost crowded: set<Id>)
      modifies this`lastSeen
      ensures victims == Silent(old(lastSeen), guarded, now) + crowded && lastSeen == old(lastSeen) - victims
      ensures OldestTaken(old(lastSeen) - Silent(old(lastSeen), guarded, now), guarded, crowded)
    {
      hide Silent, OldestTaken;
      ghost var seen := lastSeen;
      victims := Silent(lastSeen, guarded, now);
      ghost var expired := victims;
      crowded := {};
      lastSeen := lastSeen - victims;
      if |lastSeen| > MAX_DISCOVERY_CONNECTIONS {
        var evicted := EvictOldest(guarded);
        victims := victims + evicted;
        crowded := evicted;
      } else {
        NoneTaken(lastSeen, guarded);
      }
      MinusMinus(seen, expired, crowded);
    }

    /** Takes as many of the oldest unprotected connections as there are too many. */
    method EvictOldest(guarded: set<Id>) returns (crowded: set<Id>)
      requires |lastSeen| > MAX_DISCOVERY_CONNECTIONS
      modifies this`lastSeen
      ensures
        lastSeen == old(lastSeen) - crowded && OldestTaken(old(lastSeen), guarded, crowded)
    {
      ghost var left := lastSeen;
      var oldest := lastSeen.Keys - guarded;
      ghost var candidates := oldest;
      var take := |lastSeen| - MAX_DISCOVERY_CONNECTIONS;
      crowded := {};
      while take > 0 && oldest != {}
        invariant crowded <= candidates && oldest == candidates - crowded
        invariant lastSeen == left - crowded
        invariant take >= 0 && |crowded| + take == |left| - MAX_DISCOVERY_CONNECTIONS
        invariant forall v, k :: v in crowded && k in oldest ==> left[v] <= left[k]
        decreases take
      {
        var i := Stalest(oldest);
        lastSeen := lastSeen - {i};
        crowded := crowded + {i};
        oldest := oldest - {i};
        take := take - 1;
      }
      SetMinus(candidates, crowded);
    }

    // ----- the parts of parse_stream -----

    /** Drops the least recently seen other API connections until one more fits. */
    method MakeRoom(id: Id) returns (ghost dropped: set<Id>)
      requires hosts.Keys <= lastSeen.Keys && |hosts| <= MAX_TRACKED_API_CONNECTIONS
      modifies this`hosts
      ensures RoomMade(old(hosts), hosts, lastSeen, id, dropped)
      ensures |hosts| == Min(|old(hosts)|, MAX_TRACKED_API_CONNECTIONS - 1)
      ensures |dropped| == if |old(hosts)| == MAX_TRACKED_API_CONNECTIONS then 1 else 0
    {
      hide RoomMade;
      dropped := {};
      RoomAsItIs(hosts, lastSeen, id);
      while |hosts| >= MAX_TRACKED_API_CONNECTIONS
        invariant RoomMade(old(hosts), hosts, lastSeen, id, dropped)
        invariant hosts.Keys <= lastSeen.Keys && |hosts| <= MAX_TRACKED_API_CONNECTIONS
        invariant |hosts| + |dropped| == |old(hosts)| && |dropped| <= 1
        invariant |dropped| == 1 ==> |old(hosts)| == MAX_TRACKED_API_CONNECTIONS
        decreases |hosts|
      {
        var others := hosts.Keys - {id};
        AnotherHost(hosts, id);
        var stalest := Stalest(others);
        RoomForOneMore(old(hosts), hosts, lastSeen, id, dropped, stalest);
        hosts := hosts - {stalest};
        dropped := dropped + {stalest};
      }
    }

    /** The host a message belongs to; an API host is remembered. In a full table that
        costs one other connection its host, even if this one was in the table. */
    method TrackHost(id: Id, frame: Frame) returns (host: string, ghost dropped: set<Id>)
      requires hosts.Keys <= lastSeen.Keys && |hosts| <= MAX_TRACKED_API_CONNECTIONS && id in lastSeen
      modifies this`hosts
      ensures HostsMoved(old(hosts), hosts, lastSeen, id, dropped)
      ensures |dropped| == if NamesApiHost(frame) && |old(hosts)| == MAX_TRACKED_API_CONNECTIONS then 1 else 0
      ensures NamesApiHost(frame) && |old(hosts)| == MAX_TRACKED_API_CONNECTIONS && id in old(hosts) ==>
                |hosts| == MAX_TRACKED_API_CONNECTIONS - 1
      ensures HostUse(host, TalkIn(hosts, pending, id).host) == UseHost(TalkIn(old(hosts), pending, id).host, frame)
    {
      hide IsAllowedHost, ParseStartLine, HostsMoved;
      dropped := {};
      HostsStay(hosts, lastSeen, id);
      host := Header(frame, "host").GetOr("");
      if host != "" && IsAllowedHost(host) {
        dropped := MakeRoom(id);
        RoomTaken(old(hosts), hosts, lastSeen, id, host, dropped);
        OneMore(hosts, id, host);
        StillThere(old(hosts), hosts, lastSeen, id, dropped);
        hosts := hosts[id := host];
      } else if ParseStartLine(frame.head.start).status.Some? {
        host := if id in hosts then hosts[id] else "";
      }
    }

    /** Requests join the queue, responses take its front. */
    method PairUp(id: Id, line: StartLine) returns (paired: Paired)
      modifies this`pending
      ensures paired == Pair(line, TalkIn(hosts, old(pending), id).pending) && TalkIn(hosts, pending, id).pending == paired.pending
      ensures QueuesMoved(old(pending), pending, id)
    {
      var verb, path := line.verb, line.path;
      var queue := if id in pending then pending[id] else [];
      if verb.Some? && path.Some? {
        if |queue| >= MAX_PENDING_REQUESTS {
          queue := queue[1..];
        }
        queue := queue + [Request(verb.value, path.value)];
        pending := pending[id := queue];
      } else if line.status.Some? {
        if queue != [] {
          verb, path := Some(queue[0].verb), Some(queue[0].path);
          queue := queue[1..];
        }
        pending := pending[id := queue];
      }
      paired := Paired(verb, path, queue);
    }

    /** Host tracking, pairing and messages for one framed message. */
    method HandleFrame(id: Id, frame: Frame) returns (messages: seq<Message>, ghost dropped: set<Id>)
      requires hosts.Keys <= lastSeen.Keys && |hosts| <= MAX_TRACKED_API_CONNECTIONS && id in lastSeen
      modifies this`hosts, this`pending
      ensures HostsMoved(old(hosts), hosts, lastSeen, id, dropped)
      ensures QueuesMoved(old(pending), pending, id)
      ensures Absorbed(TalkIn(hosts, pending, id), messages) == Absorb(codec, TalkIn(old(hosts), old(pending), id), frame)
    {
      hide IsAllowedHost, ParseStartLine, IsStatsBody, IsStatsRequest, Emit, UseHost, Pair, HostsMoved, QueuesMoved;
      QueuesStay(pending, id);
      var host;
      host, dropped := TrackHost(id, frame);
      if !IsAllowedHost(host) {
        return [], dropped;
      }
      var first := PairUp(id, ParseStartLine(frame.head.start));
      var tag := first;
      if IsStatsBody(codec, frame) && !IsStatsRequest(first.verb, first.path) {
        tag := Paired(Some("POST"), Some(PLAYER_STATS_PATH), []);
        QueueCleared(old(pending), pending, id);
        pending := pending - {id};
      }
      messages := Emit(codec, frame, host, first, tag);
    }

    /** One more message of a call, on top of those already handled. */
    method HandleNext(id: Id, frame: Frame, messages: seq<Message>, ghost hosts0: map<Id, string>,
                      ghost pending0: map<Id, seq<Request>>, ghost frames: seq<Frame>, ghost dropped: set<Id>)
      returns (all: seq<Message>, ghost dropped': set<Id>)
      requires hosts.Keys <= lastSeen.Keys && |hosts| <= MAX_TRACKED_API_CONNECTIONS && id in lastSeen
      requires HostsMoved(hosts0, hosts, lastSeen, id, dropped) && QueuesMoved(pending0, pending, id)
      requires Absorbed(TalkIn(hosts, pending, id), messages)
            == AbsorbAll(codec, TalkIn(hosts0, pending0, id), frames)
      modifies this`hosts, this`pending
      ensures hosts.Keys <= lastSeen.Keys && |hosts| <= MAX_TRACKED_API_CONNECTIONS
      ensures HostsMoved(hosts0, hosts, lastSeen, id, dropped') && QueuesMoved(pending0, pending, id)
      ensures Absorbed(TalkIn(hosts, pending, id), all)
           == AbsorbAll(codec, TalkIn(hosts0, pending0, id), frames + [frame])
    {
      hide Absorb, AbsorbAll, HostsMoved, QueuesMoved, TalkIn;
      var more; ghost var gone;
      more, gone := HandleFrame(id, frame);
      TablesAfter(old(hosts), hosts, lastSeen, id, gone);
      HostsMovedTwice(hosts0, old(hosts), hosts, lastSeen, id, dropped, gone);
      QueuesMovedTwice(pending0, old(pending), pending, id);
      AbsorbOne(codec, TalkIn(hosts0, pending0, id), frames, frame);
      all, dropped' := messages + more, dropped + gone;
    }

    /** What the front of the buffer holds, by the branches of the source's loop. */
    method NextStep(buffer: bytes) returns (step: Step)
      ensures step == FrameStep(codec, buffer)
    {
      hide Decode, IsChunked, ContentLength, HeadOf;
      var found := Find(buffer, BLANK_LINE);
      if found.None? { return More; }
      var headerEnd := found.value;
      var total := headerEnd + 4;
      var text := codec.text(buffer[..headerEnd]);
      if text.None? { return Junk(total); }
      var head := ParseHead(text.value);
      if IsChunked(head) {
        var decoded := DecodeChunked(codec, buffer[total..]);
        if decoded.None? { return More; }
        return Complete(Frame(head, decoded.value.body), total + decoded.value.consumed);
      }
      var length := ContentLength(head);
      if SaturatingEnd(total, length) > MAX_MESSAGE_BYTES { return Oversized(total, length); }
      if |buffer| < total + length { return More; }
      return Complete(Frame(head, buffer[total..total + length]), total + length);
    }

    /** The framing loop: takes messages off the buffer and handles each in turn. */
    method FrameBuffer(key: Key, start: bytes)
      returns (messages: seq<Message>, buffer: bytes, ghost dropped: set<Id>)
      requires hosts.Keys <= lastSeen.Keys && |hosts| <= MAX_TRACKED_API_CONNECTIONS && key.id in lastSeen
      requires SkipIn(skipped, key) > 0 ==> start == []
      modifies this`hosts, this`pending, this`skipped
      ensures HostsMoved(old(hosts), hosts, lastSeen, key.id, dropped)
      ensures QueuesMoved(old(pending), pending, key.id)
      ensures SkipsMoved(old(skipped), skipped, key)
      ensures
        var d := DrainFrom(codec, start, SkipIn(old(skipped), key));
        buffer == d.rest && SkipIn(skipped, key) == d.skip
        && Absorbed(TalkIn(hosts, pending, key.id), messages)
           == AbsorbAll(codec, TalkIn(old(hosts), old(pending), key.id), d.frames)
    {
      hide OnCourse, FrameStep;
      ghost var was := Tables(hosts, pending, skipped);
      ghost var frames := [];
      buffer, messages, dropped := start, [], {};
      CourseStarts(codec, was, lastSeen, key, start);
      while true
        invariant OnCourse(codec, was, Tables(hosts, pending, skipped), lastSeen, key, start,
                           frames, buffer, messages, dropped)
        decreases |buffer|
      {
        ghost var now := Tables(hosts, pending, skipped);
        var step := NextStep(buffer);
        match step
        case More =>
          CourseEnds(codec, was, now, lastSeen, key, start, frames, buffer, messages, dropped);
          return;
        case Junk(size) =>
          CourseDrops(codec, was, now, lastSeen, key, start, frames, buffer, messages, dropped);
          buffer := buffer[size..];
        case Oversized(size, length) =>
          CourseSkips(codec, was, now, lastSeen, key, start, frames, buffer, messages, dropped);
          var alreadyHere := |buffer| - size;
          skipped := skipped[key := if length > alreadyHere then length - alreadyHere else 0];
          buffer := buffer[size + Min(alreadyHere, length)..];
        case Complete(frame, size) =>
          CourseTakes(codec, was, now, lastSeen, key, start, frames, buffer, messages, dropped);
          messages, dropped := HandleNext(key.id, frame, messages, was.hosts, was.pending, frames, dropped);
          CourseTook(codec, was, now, Tables(hosts, pending, skipped), lastSeen, key, start,
                     frames, frame, buffer, messages, dropped);
          buffer := buffer[size..];
          frames := frames + [frame];
      }
    }

    // ----- parse_stream -----

    /** Walks past what is outstanding of a body too large to hold. */
    method WalkPast(key: Key, all: bytes) returns (buffer: bytes)
      modifies this`skipped
      ensures SkipsMoved(old(skipped), skipped, key)
      ensures var step := Min(SkipIn(old(skipped), key), |all|);
              buffer == all[step..] && SkipIn(skipped, key) == SkipIn(old(skipped), key) - step
    {
      buffer := all;
      if key in skipped {
        var remaining := skipped[key];
        var step := Min(remaining, |buffer|);
        buffer := buffer[step..];
        remaining := remaining - step;
        if remaining == 0 {
          skipped := skipped - {key};
        } else {
          skipped := skipped[key := remaining];
        }
      }
    }

    /** The size of everything held. */
    method HeldBytes() returns (total: nat)
      ensures total == Total(buffers)
    {
      total := 0;
      var left := buffers;
      while left != map[]
        invariant left.Keys <= buffers.Keys && forall k :: k in left ==> left[k] == buffers[k]
        invariant total + Total(left) == Total(buffers)
        decreases |left|
      {
        var k :| k in left;
        TotalRemove(left, k);
        OneKeyFewer(left, k);
        total := total + |left[k]|;
        left := left - {k};
      }
    }

    /** Among the other buffers, one that is the largest. */
    method Fattest(others: set<Key>) returns (key: Key)
      requires others != {} && others <= buffers.Keys
      ensures key in others && forall k :: k in others ==> |buffers[k]| <= |buffers[key]|
    {
      var left := others;
      key :| key in left;
      left := left - {key};
      while left != {}
        invariant left <= others && key in others
        invariant forall k :: k in others - left ==> |buffers[k]| <= |buffers[key]|
      {
        var k :| k in left;
        if |buffers[k]| > |buffers[key]| { key := k; }
        left := left - {k};
      }
    }

    /** The byte budget over all connections. */
    method KeepBudget(key: Key) returns (ghost taken: set<Key>)
      requires key in buffers
      modifies this`buffers
      ensures TakenOk(old(buffers), key, taken) && buffers == old(buffers) - taken
    {
      hide Total, OverBudget;
      taken := {};
      ghost var full := buffers;
      MinusNoKeys(full);
      if |buffers[key]| <= MAX_SCAN_BUFFER {
        return;
      }
      var total := HeldBytes();
      NothingTaken(full, key);
      while total > MAX_TOTAL_SCAN_BYTES
        invariant buffers == full - taken && OverBudget(full, key, taken)
        invariant total == Total(buffers)
        decreases |buffers|
      {
        var others := buffers.Keys - {key};
        if others == {} {
          break;
        }
        var fattest := Fattest(others);
        TotalRemove(buffers, fattest);
        TakeOneMore(full, key, taken, fattest);
        total := total - |buffers[fattest]|;
        buffers := buffers - {fattest};
        taken := taken + {fattest};
      }
      BudgetKept(full, key, taken);
    }

    /** One piece of one direction of one connection. */
    method ParseStream(id: Id, call: Call, now: Time)
      returns (messages: seq<Message>, ghost ev: Evictions)
      requires Valid() && ClockAfter(View(), now)
      modifies this
      ensures StepRel(codec, old(View()), Parse(id, call, now), ev, View(), messages)
      ensures Valid()
    {
      hide Inv, CrowdedOk, Pruned, PieceRel, Local;
      ghost var s := View();
      ghost var crowded := TouchAndPrune(id, now);
      PrunedKeepsInv(s, id, now, crowded);
      PrunedFacts(View(), id);
      ghost var dropped, taken;
      messages, dropped, taken := ParsePiece(id, call);
      ev := Evictions(crowded, dropped, taken);
      PieceKeepsInv(codec, Pruned(s, id, now, crowded), id, call, dropped, taken, View(), messages);
    }

    /** Only unframed data is cut; a message that outgrew every limit is dropped. */
    method CapBuffer(rest: bytes) returns (kept: bytes)
      ensures kept == Cap(rest)
      ensures |kept| <= |rest| && kept == rest[|rest| - |kept|..]
      ensures |rest| > MAX_MESSAGE_BYTES ==> kept == []
      ensures MAX_SCAN_BUFFER < |rest| <= MAX_MESSAGE_BYTES && Find(rest, BLANK_LINE).None? ==>
                |kept| == MAX_SCAN_BUFFER
      ensures |rest| <= MAX_SCAN_BUFFER || (|rest| <= MAX_MESSAGE_BYTES && Find(rest, BLANK_LINE).Some?) ==>
                kept == rest
    {
      kept := rest;
      if |rest| > MAX_MESSAGE_BYTES {
        kept := [];
      } else if |rest| > MAX_SCAN_BUFFER && Find(rest, BLANK_LINE).None? {
        kept := rest[|rest| - MAX_SCAN_BUFFER..];
      }
    }

    /** The new data framed behind what was held, and the remainder capped. */
    method FramePiece(key: Key, data: bytes)
      returns (messages: seq<Message>, kept: bytes, ghost dropped: set<Id>)
      requires hosts.Keys <= lastSeen.Keys && |hosts| <= MAX_TRACKED_API_CONNECTIONS && key.id in lastSeen
      requires ValidLink(LinkIn(buffers, skipped, key))
      modifies this`hosts, this`pending, this`skipped
      ensures HostsMoved(old(hosts), hosts, lastSeen, key.id, dropped)
      ensures QueuesMoved(old(pending), pending, key.id)
      ensures SkipsMoved(old(skipped), skipped, key)
      ensures
        var d := Resume(codec, LinkIn(buffers, old(skipped), key), data);
        kept == Cap(d.rest) && SkipIn(skipped, key) == d.skip
        && Absorbed(TalkIn(hosts, pending, key.id), messages)
           == AbsorbAll(codec, TalkIn(old(hosts), old(pending), key.id), d.frames)
    {
      hide HostsMoved, QueuesMoved, SkipsMoved, AbsorbAll, Cap, Drain, TalkIn;
      var all := (if key in buffers then buffers[key] else []) + data;
      var buffer := WalkPast(key, all);
      ghost var walked := skipped;
      messages, buffer, dropped := FrameBuffer(key, buffer);
      SkipsMovedTwice(old(skipped), walked, skipped, key);
      kept := CapBuffer(buffer);
    }

    /** The rest of the call, once the tables are pruned. */
    method ParsePiece(id: Id, call: Call)
      returns (messages: seq<Message>, ghost dropped: set<Id>, ghost taken: set<Key>)
      requires TablesBounded(View()) && id in lastSeen && Local(View(), id).Valid()
      modifies this`buffers, this`hosts, this`pending, this`skipped
      ensures PieceRel(codec, old(View()), id, call, dropped, taken, View(), messages)
    {
      hide TakenOk, HostsMoved, QueuesMoved, SkipsMoved, Resume, AbsorbAll, Local, PieceRel, Cap, ValidLink;
      ghost var p := View();
      var key := Key(id, call.direction);
      LinkIsValid(p, id, call.direction);
      var kept;
      messages, kept, dropped := FramePiece(key, call.data);
      buffers := buffers[key := kept];
      taken := KeepBudget(key);
      PieceIs(codec, p, id, call, dropped, taken, View(), messages);
    }

    /** The collector forgets a connection it has closed. */
    method ForgetConnection(id: Id)
      requires Valid()
      modifies this`hosts
      ensures StepRel(codec, old(View()), Forget(id), NO_EVICTIONS, View(), [])
      ensures Valid()
    {
      ForgetKeepsContents(View(), id);
      hosts := hosts - {id};
    }
  }

  lemma SkipsMovedTwice(a: map<Key, nat>, b: map<Key, nat>, c: map<Key, nat>, key: Key)
    requires SkipsMoved(a, b, key) && SkipsMoved(b, c, key)
    ensures SkipsMoved(a, c, key)
  {
  }

  lemma PrunedFacts(p: State, id: Id)
    requires Inv(p)
    ensures TablesBounded(p) && Local(p, id).Valid() && forall k :: ValidLink(LinkAt(p, k))
  {
    assert ValidLink(LinkAt(p, Key(id, ToServer))) && ValidLink(LinkAt(p, Key(id, ToClient)));
  }

  lemma LinkIsValid(p: State, id: Id, direction: Direction)
    requires Local(p, id).Valid()
    ensures ValidLink(LinkAt(p, Key(id, direction)))
  {
  }

  /** The parts of the call add up to what the connection would do alone. */
  lemma PieceIs(codec: Codec, p: State, id: Id, call: Call, dropped: set<Id>,
                taken: set<Key>, s: State, out: seq<Message>)
    requires Local(p, id).Valid() && ValidLink(LinkAt(p, Key(id, call.direction)))
    requires s.lastSeen == p.lastSeen && s.parseCount == p.parseCount
    requires HostsMoved(p.hosts, s.hosts, p.lastSeen, id, dropped)
    requires QueuesMoved(p.pending, s.pending, id)
    requires
      var key := Key(id, call.direction);
      var d := Resume(codec, LinkAt(p, key), call.data);
      SkipsMoved(p.skipped, s.skipped, key) && SkipOf(s, key) == d.skip
      && Absorbed(TalkOf(s, id), out) == AbsorbAll(codec, TalkOf(p, id), d.frames)
      && TakenOk(p.buffers[key := Cap(d.rest)], key, taken)
      && s.buffers == p.buffers[key := Cap(d.rest)] - taken
    ensures PieceRel(codec, p, id, call, dropped, taken, s, out)
  {
    hide AbsorbAll, Resume, TakenOk, HostsMoved, QueuesMoved, SkipsMoved, Cap;
    var key := Key(id, call.direction);
    assert Local(p, id).Link(call.direction) == LinkAt(p, key);
  }

  /** Draining with a skip still outstanding: then nothing is held. */
  function DrainFrom(codec: Codec, buffer: bytes, skip: nat): Drained
  {
    if skip > 0 then Drained([], buffer, skip) else Drain(codec, buffer)
  }

  lemma AfterNone(d: Drained)
    ensures After([], d) == d
  {
    assert [] + d.frames == d.frames;
  }

  /** One turn of the loop, seen from the one-shot framing. */
  lemma DrainOnce(codec: Codec, buffer: bytes, skip: nat, frames: seq<Frame>)
    requires skip > 0 ==> buffer == []
    ensures FrameStep(codec, buffer).More? ==>
              After(frames, DrainFrom(codec, buffer, skip)) == Drained(frames, buffer, skip)
    ensures !FrameStep(codec, buffer).More? ==> skip == 0
    ensures
      match FrameStep(codec, buffer)
      case More => true
      case Junk(size) => DrainFrom(codec, buffer, skip) == DrainFrom(codec, buffer[size..], 0)
      case Oversized(size, length) =>
        var alreadyHere := |buffer| - size;
        var left := if length > alreadyHere then length - alreadyHere else 0;
        var rest := buffer[size + Min(alreadyHere, length)..];
        DrainFrom(codec, buffer, skip) == DrainFrom(codec, rest, left) && (left > 0 ==> rest == [])
      case Complete(frame, size) =>
        After(frames, DrainFrom(codec, buffer, skip))
        == After(frames + [frame], DrainFrom(codec, buffer[size..], 0))
  {
    hide FrameStep;
    EmptyIsMore(codec);
    match FrameStep(codec, buffer)
    case More =>
      assert frames + [] == frames;
    case Junk(size) =>
    case Oversized(size, length) =>
      if |buffer| - size == length {
        assert buffer[size + length..] == [];
      }
    case Complete(frame, size) =>
      var d := Drain(codec, buffer[size..]);
      assert frames + ([frame] + d.frames) == frames + [frame] + d.frames;
  }

  /** The tables the framing loop changes. */
  datatype Tables = Tables(hosts: map<Id, string>, pending: map<Id, seq<Request>>, skipped: map<Key, nat>)

  /** What the framing loop keeps: `frames` are framed and handled, and framing the rest
      of the buffer gives what framing `start` gives after them. */
  ghost predicate OnCourse(codec: Codec, was: Tables, now: Tables, seen: map<Id, Time>, key: Key, start: bytes,
                           frames: seq<Frame>, buffer: bytes, messages: seq<Message>, dropped: set<Id>) {
    (SkipIn(now.skipped, key) > 0 ==> buffer == [])
    && DrainFrom(codec, start, SkipIn(was.skipped, key))
       == After(frames, DrainFrom(codec, buffer, SkipIn(now.skipped, key)))
    && Absorbed(TalkIn(now.hosts, now.pending, key.id), messages)
       == AbsorbAll(codec, TalkIn(was.hosts, was.pending, key.id), frames)
    && HostsMoved(was.hosts, now.hosts, seen, key.id, dropped)
    && QueuesMoved(was.pending, now.pending, key.id)
    && SkipsMoved(was.skipped, now.skipped, key)
    && now.hosts.Keys <= seen.Keys && |now.hosts| <= MAX_TRACKED_API_CONNECTIONS
  }

  lemma CourseStarts(codec: Codec, was: Tables, seen: map<Id, Time>, key: Key, start: bytes)
    requires was.hosts.Keys <= seen.Keys && |was.hosts| <= MAX_TRACKED_API_CONNECTIONS
    requires SkipIn(was.skipped, key) > 0 ==> start == []
    ensures OnCourse(codec, was, was, seen, key, start, [], start, [], {})
  {
    hide DrainFrom, HostsMoved, QueuesMoved, SkipsMoved, AbsorbAll, After, TalkIn;
    HostsStay(was.hosts, seen, key.id);
    QueuesStay(was.pending, key.id);
    SkipsStay(was.skipped, key);
    AfterNone(DrainFrom(codec, start, SkipIn(was.skipped, key)));
    AbsorbNone(codec, TalkIn(was.hosts, was.pending, key.id));
  }

  lemma CourseEnds(codec: Codec, was: Tables, now: Tables, seen: map<Id, Time>, key: Key, start: bytes,
                   frames: seq<Frame>, buffer: bytes, messages: seq<Message>, dropped: set<Id>)
    requires OnCourse(codec, was, now, seen, key, start, frames, buffer, messages, dropped)
    requires FrameStep(codec, buffer).More?
    ensures HostsMoved(was.hosts, now.hosts, seen, key.id, dropped) && QueuesMoved(was.pending, now.pending, key.id)
    ensures SkipsMoved(was.skipped, now.skipped, key)
    ensures
      var d := DrainFrom(codec, start, SkipIn(was.skipped, key));
      buffer == d.rest && SkipIn(now.skipped, key) == d.skip
      && Absorbed(TalkIn(now.hosts, now.pending, key.id), messages)
         == AbsorbAll(codec, TalkIn(was.hosts, was.pending, key.id), d.frames)
  {
    hide DrainFrom, HostsMoved, QueuesMoved, SkipsMoved, AbsorbAll, After, TalkIn, FrameStep;
    DrainOnce(codec, buffer, SkipIn(now.skipped, key), frames);
  }

  lemma CourseDrops(codec: Codec, was: Tables, now: Tables, seen: map<Id, Time>, key: Key, start: bytes,
                    frames: seq<Frame>, buffer: bytes, messages: seq<Message>, dropped: set<Id>)
    requires OnCourse(codec, was, now, seen, key, start, frames, buffer, messages, dropped)
    requires FrameStep(codec, buffer).Junk?
    ensures OnCourse(codec, was, now, seen, key, start, frames, buffer[FrameStep(codec, buffer).size..],
                     messages, dropped)
  {
    hide DrainFrom, HostsMoved, QueuesMoved, SkipsMoved, AbsorbAll, After, TalkIn, FrameStep;
    DrainOnce(codec, buffer, SkipIn(now.skipped, key), frames);
  }

  lemma CourseSkips(codec: Codec, was: Tables, now: Tables, seen: map<Id, Time>, key: Key, start: bytes,
                    frames: seq<Frame>, buffer: bytes, messages: seq<Message>, dropped: set<Id>)
    requires OnCourse(codec, was, now, seen, key, start, frames, buffer, messages, dropped)
    requires FrameStep(codec, buffer).Oversized?
    ensures
      var Oversized(size, length) := FrameStep(codec, buffer);
      var alreadyHere := |buffer| - size;
      var left := if length > alreadyHere then length - alreadyHere else 0;
      OnCourse(codec, was, now.(skipped := now.skipped[key := left]), seen, key, start, frames,
               buffer[size + Min(alreadyHere, length)..], messages, dropped)
  {
    hide DrainFrom, HostsMoved, QueuesMoved, SkipsMoved, AbsorbAll, After, TalkIn, FrameStep;
    var Oversized(size, length) := FrameStep(codec, buffer);
    DrainOnce(codec, buffer, SkipIn(now.skipped, key), frames);
    SkipsSet(was.skipped, now.skipped, key, if length > |buffer| - size then length - (|buffer| - size) else 0);
  }

  lemma CourseTakes(codec: Codec, was: Tables, now: Tables, seen: map<Id, Time>, key: Key, start: bytes,
                    frames: seq<Frame>, buffer: bytes, messages: seq<Message>, dropped: set<Id>)
    requires OnCourse(codec, was, now, seen, key, start, frames, buffer, messages, dropped)
    ensures now.hosts.Keys <= seen.Keys && |now.hosts| <= MAX_TRACKED_API_CONNECTIONS
    ensures HostsMoved(was.hosts, now.hosts, seen, key.id, dropped) && QueuesMoved(was.pending, now.pending, key.id)
    ensures Absorbed(TalkIn(now.hosts, now.pending, key.id), messages)
         == AbsorbAll(codec, TalkIn(was.hosts, was.pending, key.id), frames)
  {
    hide HostsMoved, QueuesMoved, SkipsMoved, AbsorbAll, TalkIn;
  }

  /** `now` is before the message is handled and `after` behind it. */
  lemma CourseTook(codec: Codec, was: Tables, now: Tables, after: Tables, seen: map<Id, Time>, key: Key, start: bytes,
                   frames: seq<Frame>, frame: Frame, buffer: bytes, messages: seq<Message>, dropped: set<Id>)
    requires FrameStep(codec, buffer).Complete? && FrameStep(codec, buffer).frame == frame
    requires exists m, d :: OnCourse(codec, was, now, seen, key, start, frames, buffer, m, d)
    requires after.skipped == now.skipped
    requires after.hosts.Keys <= seen.Keys && |after.hosts| <= MAX_TRACKED_API_CONNECTIONS
    requires HostsMoved(was.hosts, after.hosts, seen, key.id, dropped) && QueuesMoved(was.pending, after.pending, key.id)
    requires Absorbed(TalkIn(after.hosts, after.pending, key.id), messages)
          == AbsorbAll(codec, TalkIn(was.hosts, was.pending, key.id), frames + [frame])
    ensures OnCourse(codec, was, after, seen, key, start, frames + [frame],
                     buffer[FrameStep(codec, buffer).size..], messages, dropped)
  {
    hide DrainFrom, HostsMoved, QueuesMoved, SkipsMoved, AbsorbAll, After, TalkIn, FrameStep;
    DrainOnce(codec, buffer, SkipIn(now.skipped, key), frames);
  }

  lemma EmptyIsMore(codec: Codec)
    ensures FrameStep(codec, []).More?
  {
  }

  lemma AbsorbNone(codec: Codec, talk: Talk)
    ensures AbsorbAll(codec, talk, []) == Absorbed(talk, [])
  {
  }

  lemma AbsorbOne(codec: Codec, talk: Talk, frames: seq<Frame>, frame: Frame)
    ensures
      var before := AbsorbAll(codec, talk, frames);
      var last := Absorb(codec, before.talk, frame);
      AbsorbAll(codec, talk, frames + [frame]) == Absorbed(last.talk, before.messages + last.messages)
  {
    hide Absorb;
    AbsorbAppend(codec, talk, frames, [frame]);
    var before := AbsorbAll(codec, talk, frames);
    var last := Absorb(codec, before.talk, frame);
    assert AbsorbAll(codec, last.talk, [frame][1..]) == Absorbed(last.talk, []);
    assert last.messages + [] == last.messages;
  }

  lemma SkipsStay(m: map<Key, nat>, key: Key)
    ensures SkipsMoved(m, m, key)
  {
  }

  lemma SkipsSet(before: map<Key, nat>, after: map<Key, nat>, key: Key, left: nat)
    requires SkipsMoved(before, after, key)
    ensures SkipsMoved(before, after[key := left], key)
  {
  }

  lemma QueuesMovedTwice(a: map<Id, seq<Request>>, b: map<Id, seq<Request>>, c: map<Id, seq<Request>>, id: Id)
    requires QueuesMoved(a, b, id) && QueuesMoved(b, c, id)
    ensures QueuesMoved(a, c, id)
  {
  }

  lemma HostsMovedTwice(a: map<Id, string>, b: map<Id, string>, c: map<Id, string>, seen: map<Id, Time>,
                        id: Id, d1: set<Id>, d2: set<Id>)
    requires HostsMoved(a, b, seen, id, d1) && HostsMoved(b, c, seen, id, d2)
    ensures HostsMoved(a, c, seen, id, d1 + d2)
  {
    hide HostKeysMoved;
    KeysMovedTwice(a, b, c, id, d1, d2);
    assert forall k :: k in c && k != id ==> k in b by {
      OthersStayed(b, c, id, d2);
    }
  }

  lemma OthersStayed(b: map<Id, string>, c: map<Id, string>, id: Id, dropped: set<Id>)
    requires HostKeysMoved(b, c, id, dropped)
    ensures forall k :: k in c && k != id ==> k in b
  {
    forall k | k in c && k != id
      ensures k in b
    {
      assert k in c.Keys - {id};
    }
  }

  lemma KeysMovedTwice(a: map<Id, string>, b: map<Id, string>, c: map<Id, string>,
                       id: Id, d1: set<Id>, d2: set<Id>)
    requires HostKeysMoved(a, b, id, d1) && HostKeysMoved(b, c, id, d2)
    ensures HostKeysMoved(a, c, id, d1 + d2)
  {
    KeySetsMovedTwice(a.Keys, b.Keys, c.Keys, id, d1, d2);
    SetSize(b.Keys + {id}, a.Keys + {id});
    if d2 == {} { MoreStay(b, c, id); }
    forall k | k in c && k in a && k != id
      ensures c[k] == a[k]
    {
      assert k in c.Keys - {id};
    }
  }

  lemma MoreStay(b: map<Id, string>, c: map<Id, string>, id: Id)
    requires HostKeysMoved(b, c, id, {})
    ensures |b| <= |c|
  {
    assert b.Keys <= (c.Keys - {id}) + {id} by {
      assert forall k :: k in b.Keys && k != id ==> k in b.Keys - {} - {id};
    }
    assert b.Keys <= c.Keys;
    SetSize(b.Keys, c.Keys);
    assert |b| == |b.Keys| && |c| == |c.Keys|;
  }

  lemma KeySetsMovedTwice(a: set<Id>, b: set<Id>, c: set<Id>, id: Id, d1: set<Id>, d2: set<Id>)
    requires d1 <= a - {id} && b - {id} == a - d1 - {id}
    requires d2 <= b - {id} && c - {id} == b - d2 - {id}
    ensures d1 + d2 <= a - {id} && c - {id} == a - (d1 + d2) - {id} && b + {id} <= a + {id}
  {
    assert b + {id} == (b - {id}) + {id};
    assert b - d2 - {id} == (b - {id}) - d2;
    assert a - (d1 + d2) - {id} == (a - d1 - {id}) - d2;
  }

  lemma TablesAfter(a: map<Id, string>, c: map<Id, string>, seen: map<Id, Time>, id: Id, dropped: set<Id>)
    requires HostsMoved(a, c, seen, id, dropped) && a.Keys <= seen.Keys && id in seen
    ensures c.Keys <= seen.Keys && |c| <= MAX_TRACKED_API_CONNECTIONS
  {
    OthersStayed(a, c, id, dropped);
  }

  lemma OneMore(m: map<Id, string>, id: Id, host: string)
    ensures |m[id := host]| == |m| + if id in m then 0 else 1
  {
    assert m[id := host].Keys == m.Keys + {id};
    assert |m| == |m.Keys| && |m[id := host]| == |m[id := host].Keys|;
  }

  lemma QueuesStay(m: map<Id, seq<Request>>, id: Id)
    ensures QueuesMoved(m, m, id)
  {
  }

  lemma QueueCleared(before: map<Id, seq<Request>>, after: map<Id, seq<Request>>, id: Id)
    requires QueuesMoved(before, after, id)
    ensures QueuesMoved(before, after - {id}, id)
  {
  }

  lemma HostsStay(m: map<Id, string>, seen: map<Id, Time>, id: Id)
    requires |m| <= MAX_TRACKED_API_CONNECTIONS
    ensures HostsMoved(m, m, seen, id, {})
  {
  }

  /** `dropped` went out of a full table, least recently seen first. */
  predicate RoomMade(before: map<Id, string>, left: map<Id, string>, seen: map<Id, Time>,
                     id: Id, dropped: set<Id>) {
    left == before - dropped && dropped <= before.Keys - {id}
    && (dropped != {} ==>
          |before| >= MAX_TRACKED_API_CONNECTIONS && |left| == MAX_TRACKED_API_CONNECTIONS - 1)
    && LeastRecent(left, seen, id, dropped)
  }

  lemma RoomAsItIs(m: map<Id, string>, seen: map<Id, Time>, id: Id)
    ensures RoomMade(m, m, seen, id, {})
  {
    assert m - {} == m;
  }

  lemma RoomForOneMore(before: map<Id, string>, left: map<Id, string>, seen: map<Id, Time>,
                       id: Id, dropped: set<Id>, stalest: Id)
    requires RoomMade(before, left, seen, id, dropped) && left.Keys <= seen.Keys
    requires stalest in left && stalest != id && |left| == MAX_TRACKED_API_CONNECTIONS
    requires forall k :: k in left.Keys - {id} ==> seen[stalest] <= seen[k]
    ensures RoomMade(before, left - {stalest}, seen, id, dropped + {stalest})
    ensures |left - {stalest}| < |left|
  {
    OneFewer(left, stalest);
    assert left - {stalest} == before - (dropped + {stalest});
    if dropped == {} { assert left == before; }
    forall d, k | d in dropped + {stalest} && k in left - {stalest} && k != id && k in seen && d in seen
      ensures seen[d] <= seen[k]
    {
      assert k in left.Keys - {id};
    }
  }

  lemma RoomTaken(before: map<Id, string>, left: map<Id, string>, seen: map<Id, Time>,
                  id: Id, host: string, dropped: set<Id>)
    requires RoomMade(before, left, seen, id, dropped) && |left| < MAX_TRACKED_API_CONNECTIONS
    ensures HostsMoved(before, left[id := host], seen, id, dropped)
  {
    hide LeastRecent;
    OneMore(left, id, host);
    RoomKeys(before, left, id, host, dropped);
    RoomOrder(left, seen, id, host, dropped);
  }

  lemma RoomKeys(before: map<Id, string>, left: map<Id, string>, id: Id, host: string, dropped: set<Id>)
    requires left == before - dropped && dropped <= before.Keys - {id}
    ensures left[id := host].Keys - {id} == before.Keys - dropped - {id}
    ensures |before| <= |before.Keys + {id}|
  {
    SetSize(before.Keys, before.Keys + {id});
    assert |before| == |before.Keys|;
  }

  lemma RoomOrder(left: map<Id, string>, seen: map<Id, Time>, id: Id, host: string, dropped: set<Id>)
    requires LeastRecent(left, seen, id, dropped)
    ensures LeastRecent(left[id := host], seen, id, dropped)
  {
  }

  lemma StillThere(before: map<Id, string>, left: map<Id, string>, seen: map<Id, Time>, id: Id, dropped: set<Id>)
    requires RoomMade(before, left, seen, id, dropped)
    ensures id in before ==> id in left
  {
  }

  lemma AnotherHost(hosts: map<Id, string>, id: Id)
    requires |hosts| >= 2
    ensures hosts.Keys - {id} != {}
  {
    assert |hosts| == |hosts.Keys|;
    if hosts.Keys - {id} == {} {
      SetSize(hosts.Keys, {id});
    }
  }

  lemma OneFewer(m: map<Id, string>, id: Id)
    requires id in m
    ensures |m - {id}| == |m| - 1
  {
    assert (m - {id}).Keys == m.Keys - {id};
    assert |m| == |m.Keys| && |m - {id}| == |(m - {id}).Keys|;
  }

  lemma MinusMinus<V>(m: map<Id, V>, a: set<Id>, b: set<Id>)
    ensures m - a - b == m - (a + b)
    ensures b == {} ==> m - a == m - (a + b)
  {
    if b == {} { assert a + b == a; }
  }

  lemma ScanTaken(s: State, id: Id, now: Time, expired: set<Id>, crowded: set<Id>)
    requires Scans(s, id, now) && expired == Silent(Touched(s, id, now), s.hosts.Keys, now)
    requires OldestTaken(Touched(s, id, now) - expired, s.hosts.Keys, crowded)
    ensures Victims(s, id, now, crowded) == expired + crowded && CrowdedOk(s, id, now, crowded)
  {
    hide Silent, OldestTaken;
  }

  lemma NoneTaken(left: map<Id, Time>, guarded: set<Id>)
    requires |left| <= MAX_DISCOVERY_CONNECTIONS
    ensures OldestTaken(left, guarded, {})
  {
  }

  lemma ScanFacts(s: State, id: Id, now: Time)
    ensures Touched(s, id, now) == s.lastSeen[id := now]
    ensures Scans(s, id, now) <==>
      IsDue(s.parseCount) || |s.lastSeen[id := now]| > MAX_DISCOVERY_CONNECTIONS
  {
  }

  lemma NoScan(s: State, id: Id, now: Time)
    requires !Scans(s, id, now)
    ensures Victims(s, id, now, {}) == {} && CrowdedOk(s, id, now, {})
  {
  }

  lemma WithoutNone<V>(m: map<Key, V>)
    ensures WithoutIds(m, {}) == m
  {
  }

  lemma MinusNone<V>(m: map<Id, V>)
    ensures m - {} == m
  {
  }

  lemma NothingPruned(s: State, id: Id, now: Time)
    ensures Without(s, id, now, {})
         == s.(lastSeen := Touched(s, id, now), parseCount := NextCount(s.parseCount))
  {
    hide WithoutIds;
    WithoutNone(s.buffers);
    WithoutNone(s.skipped);
    MinusNone(s.hosts);
    MinusNone(s.pending);
    MinusNone(Touched(s, id, now));
  }
}
