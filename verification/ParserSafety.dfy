/** Bounds that hold in every reachable state of the shared parser. */
module ParserSafety {
  import opened Basics
  import opened Codecs
  import opened Hosts
  import opened Framing
  import opened Connection
  import opened ParserState

  // ----- sums over the buffers -----

  lemma {:induction false} TotalRemove(m: map<Key, bytes>, k: Key)
    requires k in m
    ensures Total(m) == |m[k]| + Total(m - {k})
    decreases |m|
  {
    var c :| c in m && Total(m) == |m[c]| + Total(m - {c});
    if c != k {
      TotalRemove(m - {c}, k);
      TotalRemove(m - {k}, c);
      assert m - {c} - {k} == m - {k} - {c};
    }
  }

  lemma {:induction false} TotalOfSubmap(small: map<Key, bytes>, big: map<Key, bytes>)
    requires small.Keys <= big.Keys && forall k :: k in small ==> small[k] == big[k]
    ensures Total(small) <= Total(big)
    decreases |small|
  {
    if small != map[] {
      var k :| k in small;
      TotalRemove(small, k);
      TotalRemove(big, k);
      TotalOfSubmap(small - {k}, big - {k});
    }
  }

  lemma LargeRemove(m: map<Key, bytes>, k: Key)
    requires k in m
    ensures if k in Large(m) then Large(m) - {k} == Large(m - {k}) else Large(m) == Large(m - {k})
  {
    if k in Large(m) {
      assert Large(m) - {k} == Large(m - {k});
    } else {
      assert Large(m) == Large(m - {k});
    }
  }

  /** Small buffers add at most the scan limit each. */
  lemma {:induction false} TotalOfLarge(m: map<Key, bytes>)
    ensures Total(m) <= Total(Large(m)) + MAX_SCAN_BUFFER * |m|
    decreases |m|
  {
    if m == map[] {
      assert Large(m) == map[];
    } else {
      hide Total;
      var k :| k in m;
      TotalRemove(m, k);
      TotalOfLarge(m - {k});
      LargeRemove(m, k);
      if k in Large(m) {
        TotalRemove(Large(m), k);
      }
      assert |m - {k}| == |m| - 1;
    }
  }

  lemma {:induction false} KeysPerId(keys: set<Key>, ids: set<Id>)
    requires forall k :: k in keys ==> k.id in ids
    ensures |keys| <= 2 * |ids|
    decreases |ids|
  {
    if ids != {} {
      var i :| i in ids;
      var own := {Key(i, ToServer), Key(i, ToClient)};
      forall k | k in keys - own
        ensures k.id in ids - {i}
      {
        if k.id == i {
          match k.direction
          case ToServer =>
          case ToClient =>
        }
      }
      KeysPerId(keys - own, ids - {i});
      assert keys <= (keys - own) + own;
      SetSize(keys, (keys - own) + own);
    } else {
      assert keys == {};
    }
  }

  lemma SetSize<T>(a: set<T>, b: set<T>)
    requires a <= b
    ensures |a| <= |b|
  {
    assert b == a + (b - a);
  }

  /** Everything held at once: 160 MiB. */
  lemma MemoryBound(s: State)
    requires Inv(s)
    ensures Total(s.buffers)
         <= MAX_TOTAL_SCAN_BYTES + 2 * MAX_DISCOVERY_CONNECTIONS * MAX_SCAN_BUFFER
    ensures MAX_TOTAL_SCAN_BYTES + 2 * MAX_DISCOVERY_CONNECTIONS * MAX_SCAN_BUFFER == 160 * 1024 * 1024
  {
    hide Total, Large;
    TotalOfLarge(s.buffers);
    KeysPerId(s.buffers.Keys, s.lastSeen.Keys);
    assert |s.buffers| == |s.buffers.Keys| && |s.lastSeen| == |s.lastSeen.Keys|;
  }

  // ----- pruning -----

  lemma SetMinus<T>(a: set<T>, b: set<T>)
    requires b <= a
    ensures |a - b| == |a| - |b|
  {
  }

  /** With room to spare for the protected, taking the oldest others brings the
      number down to the limit and never reaches the newest of all. */
  lemma CrowdedSparesTheNewest(left: map<Id, Time>, guarded: set<Id>, crowded: set<Id>, id: Id)
    requires |left| > MAX_DISCOVERY_CONNECTIONS && |guarded| <= MAX_TRACKED_API_CONNECTIONS
    requires OldestTaken(left, guarded, crowded)
    requires forall k :: k in left && k != id ==> id in left && left[k] < left[id]
    ensures id !in crowded && |left.Keys - crowded| == MAX_DISCOVERY_CONNECTIONS
  {
    var candidates := left.Keys - guarded;
    assert left.Keys - (guarded * left.Keys) == candidates;
    SetMinus(left.Keys, guarded * left.Keys);
    SetSize(guarded * left.Keys, guarded);
    assert |left| == |left.Keys|;
    SetMinus(left.Keys, crowded);
    SetMinus(candidates, crowded);
    assert candidates - crowded != {};
  }

  lemma ExpiredIsSafe(s: State, id: Id, now: Time)
    requires ClockAfter(s, now)
    ensures
      var expired := Expired(s, id, now);
      id !in expired && expired !! s.hosts.Keys && expired <= s.lastSeen.Keys
      && (!Scans(s, id, now) ==> expired == {} && |Touched(s, id, now)| <= MAX_DISCOVERY_CONNECTIONS)
  {
  }

  /** Pruning keeps the number of connections at the limit, and takes neither an
      API connection nor the active one. */
  lemma PruningIsSafe(s: State, id: Id, now: Time, crowded: set<Id>)
    requires TablesBounded(s) && ClockAfter(s, now) && CrowdedOk(s, id, now, crowded)
    ensures
      var victims := Victims(s, id, now, crowded);
      id !in victims && victims !! s.hosts.Keys && victims <= s.lastSeen.Keys
      && |Touched(s, id, now) - victims| <= MAX_DISCOVERY_CONNECTIONS
  {
    hide Expired, OldestTaken, Scans;
    ExpiredIsSafe(s, id, now);
    var seen, expired := Touched(s, id, now), Expired(s, id, now);
    assert |s.hosts.Keys| == |s.hosts|;
    if Scans(s, id, now) {
      AfterTheScan(seen, expired, s.hosts.Keys, crowded, id);
    } else {
      MapSize(seen - (expired + crowded), seen);
    }
  }

  lemma MapSize(small: map<Id, Time>, big: map<Id, Time>)
    requires small.Keys <= big.Keys
    ensures |small| <= |big|
  {
    SetSize(small.Keys, big.Keys);
    assert |small| == |small.Keys| && |big| == |big.Keys|;
  }

  lemma AfterTheScan(seen: map<Id, Time>, expired: set<Id>, guarded: set<Id>, crowded: set<Id>, id: Id)
    requires id in seen && id !in expired && |guarded| <= MAX_TRACKED_API_CONNECTIONS
    requires forall k :: k in seen && k != id ==> seen[k] < seen[id]
    requires OldestTaken(seen - expired, guarded, crowded)
    ensures id !in crowded && crowded <= seen.Keys && crowded !! guarded
    ensures |seen - (expired + crowded)| <= MAX_DISCOVERY_CONNECTIONS
  {
    var left := seen - expired;
    var after := seen - (expired + crowded);
    assert after.Keys == left.Keys - crowded;
    assert |after| == |after.Keys| && |left| == |left.Keys|;
    if |left| > MAX_DISCOVERY_CONNECTIONS {
      CrowdedSparesTheNewest(left, guarded, crowded, id);
    }
  }

  /** On a clock that may stand still, the active connection itself can go out, and
      exactly then: it is new, the table is full, and every other connection that is
      not protected was seen at this very instant. */
  predicate OnlyTies(s: State, id: Id, now: Time) {
    id !in s.lastSeen && |s.lastSeen| == MAX_DISCOVERY_CONNECTIONS
    && forall c :: c in s.lastSeen && c !in s.hosts ==> s.lastSeen[c] == now
  }

  lemma ActivePrunedExactlyOnTies(s: State, id: Id, now: Time)
    requires TablesBounded(s) && forall c :: c in s.lastSeen ==> s.lastSeen[c] <= now
    ensures (exists crowded :: CrowdedOk(s, id, now, crowded) && id in Victims(s, id, now, crowded))
       <==> OnlyTies(s, id, now)
  {
    hide CrowdedOk, Victims, OnlyTies, Touched;
    if crowded :| CrowdedOk(s, id, now, crowded) && id in Victims(s, id, now, crowded) {
      TiesWhenTaken(s, id, now, crowded);
    }
    if OnlyTies(s, id, now) {
      TiesCanTake(s, id, now);
      assert CrowdedOk(s, id, now, {id}) && id in Victims(s, id, now, {id});
    }
  }

  lemma TouchedSize(m: map<Id, Time>, id: Id, now: Time)
    ensures |m[id := now]| == |m| + if id in m then 0 else 1
  {
    var after := m[id := now];
    assert after.Keys == m.Keys + {id};
    assert |after| == |after.Keys| && |m| == |m.Keys|;
  }

  lemma MinusSize(m: map<Id, Time>, gone: set<Id>)
    requires gone <= m.Keys
    ensures |m - gone| == |m| - |gone| && (|gone| == 0 ==> m - gone == m)
  {
    SetMinus(m.Keys, gone);
    assert (m - gone).Keys == m.Keys - gone;
    assert |m - gone| == |(m - gone).Keys| && |m| == |m.Keys|;
  }

  lemma TiesCanTake(s: State, id: Id, now: Time)
    requires TablesBounded(s) && OnlyTies(s, id, now)
    ensures CrowdedOk(s, id, now, {id}) && id in Victims(s, id, now, {id})
  {
    hide OldestTaken;
    var seen := Touched(s, id, now);
    TouchedSize(s.lastSeen, id, now);
    assert Expired(s, id, now) == {};
    MinusSize(seen, {});
    OldestIsAny(seen, s.hosts.Keys, id);
  }

  lemma OldestIsAny(left: map<Id, Time>, guarded: set<Id>, id: Id)
    requires |left| == MAX_DISCOVERY_CONNECTIONS + 1 && id in left && id !in guarded
    requires forall k :: k in left && k !in guarded ==> left[id] <= left[k]
    ensures OldestTaken(left, guarded, {id})
  {
    assert {id} <= left.Keys - guarded;
    SetSize({id}, left.Keys - guarded);
  }

  lemma TiesWhenTaken(s: State, id: Id, now: Time, crowded: set<Id>)
    requires TablesBounded(s) && forall c :: c in s.lastSeen ==> s.lastSeen[c] <= now
    requires CrowdedOk(s, id, now, crowded) && id in Victims(s, id, now, crowded)
    ensures OnlyTies(s, id, now)
  {
    hide OldestTaken;
    var seen, expired := Touched(s, id, now), Expired(s, id, now);
    TouchedSize(s.lastSeen, id, now);
    assert expired <= seen.Keys && id !in expired && id in crowded;
    MinusSize(seen, expired);
    TakenIsOldest(seen - expired, s.hosts.Keys, crowded, id);
  }

  lemma TakenIsOldest(left: map<Id, Time>, guarded: set<Id>, crowded: set<Id>, id: Id)
    requires OldestTaken(left, guarded, crowded) && id in crowded
    requires |left| <= MAX_DISCOVERY_CONNECTIONS + 1
    ensures |left| == MAX_DISCOVERY_CONNECTIONS + 1 && id in left && id !in guarded
    ensures forall k :: k in left && k !in guarded ==> left[id] <= left[k]
  {
    SetMinus(crowded, {id});
    assert |crowded| <= 1 && crowded - {id} == {};
  }

  lemma PrunedKeepsInv(s: State, id: Id, now: Time, crowded: set<Id>)
    requires Inv(s) && ClockAfter(s, now) && CrowdedOk(s, id, now, crowded)
    ensures
      var p := Pruned(s, id, now, crowded);
      Inv(p) && id in p.lastSeen && p.hosts == s.hosts && Local(p, id) == Local(s, id)
  {
    hide Victims, CrowdedOk, ContentsOk, IdsTracked, Local, WithoutIds, Large, Total, ClockAfter;
    PruningIsSafe(s, id, now, crowded);
    var victims := Victims(s, id, now, crowded);
    var p := Without(s, id, now, victims);
    MinusDisjoint(s.hosts, victims);
    WithoutContents(s, id, now, victims);
    WithoutIdsTracked(s, id, now, victims);
    WithoutLocal(s, id, now, victims);
    WithoutTotal(s.buffers, victims);
  }

  lemma MinusDisjoint<V>(m: map<Id, V>, ids: set<Id>)
    requires ids !! m.Keys
    ensures m - ids == m
  {
  }

  lemma WithoutContents(s: State, id: Id, now: Time, victims: set<Id>)
    requires ContentsOk(s)
    ensures ContentsOk(Without(s, id, now, victims))
  {
    hide IsAllowedHost;
    var p := Without(s, id, now, victims);
    forall k
      ensures ValidLink(LinkAt(p, k))
    {
      assert ValidLink(LinkAt(s, k));
    }
  }

  lemma WithoutIdsTracked(s: State, id: Id, now: Time, victims: set<Id>)
    requires IdsTracked(s)
    ensures IdsTracked(Without(s, id, now, victims))
  {
  }

  lemma WithoutLocal(s: State, id: Id, now: Time, victims: set<Id>)
    ensures forall c :: Local(Without(s, id, now, victims), c)
                     == if c in victims then NEW_CONN else Local(s, c)
  {
  }

  lemma WithoutTotal(m: map<Key, bytes>, victims: set<Id>)
    ensures Total(Large(WithoutIds(m, victims))) <= Total(Large(m))
  {
    TotalOfSubmap(Large(WithoutIds(m, victims)), Large(m));
  }

  // ----- one step keeps the invariant -----

  lemma BudgetKeepsTotal(before: map<Key, bytes>, key: Key, buffer: bytes, taken: set<Key>)
    requires Total(Large(before)) <= MAX_TOTAL_SCAN_BYTES && |buffer| <= MAX_MESSAGE_BYTES
    requires TakenOk(before[key := buffer], key, taken)
    ensures Total(Large(before[key := buffer] - taken)) <= MAX_TOTAL_SCAN_BYTES
    ensures |buffer| > MAX_SCAN_BUFFER ==> Total(before[key := buffer] - taken) <= MAX_TOTAL_SCAN_BYTES
  {
    var full := before[key := buffer];
    var after := full - taken;
    if |buffer| <= MAX_SCAN_BUFFER {
      assert after == full;
      LargeWithoutSmall(before, key, buffer);
      TotalOfSubmap(Large(full), Large(before));
    } else {
      if after.Keys == {key} {
        TotalRemove(after, key);
        assert after - {key} == map[];
      }
      TotalOfSubmap(Large(after), after);
    }
  }

  lemma LargeWithoutSmall(before: map<Key, bytes>, key: Key, buffer: bytes)
    requires |buffer| <= MAX_SCAN_BUFFER
    ensures
      var large := Large(before[key := buffer]);
      large.Keys <= Large(before).Keys && forall k :: k in large ==> large[k] == Large(before)[k]
  {
  }

  lemma PendingBounded(codec: Codec, talk: Talk, frames: seq<Frame>)
    requires |talk.pending| <= MAX_PENDING_REQUESTS
    requires talk.host.Some? ==> IsAllowedHost(talk.host.value)
    ensures
      var after := AbsorbAll(codec, talk, frames).talk;
      |after.pending| <= MAX_PENDING_REQUESTS
      && (after.host.Some? ==> IsAllowedHost(after.host.value))
      && (talk.host.Some? ==> after.host.Some?)
    decreases |frames|
  {
    hide IsAllowedHost, ParseStartLine, IsStatsBody, IsStatsRequest, Emit;
    if frames != [] {
      PendingBounded(codec, Absorb(codec, talk, frames[0]).talk, frames[1..]);
    }
  }

  /** What the active connection's reply looks like, for the invariant. */
  lemma ReplyBounded(codec: Codec, conn: Conn, call: Call)
    requires conn.Valid() && |conn.talk.pending| <= MAX_PENDING_REQUESTS
    requires conn.talk.host.Some? ==> IsAllowedHost(conn.talk.host.value)
    ensures
      var after := ConnStep(codec, conn, call).conn;
      |after.Link(call.direction).buffer| <= MAX_MESSAGE_BYTES
      && ValidLink(after.Link(call.direction))
      && |after.talk.pending| <= MAX_PENDING_REQUESTS
      && (after.talk.host.Some? ==> IsAllowedHost(after.talk.host.value))
  {
    hide Resume, AbsorbAll, IsAllowedHost;
    PendingBounded(codec, conn.talk, Feed(codec, conn.Link(call.direction), call.data).frames);
  }

  lemma LinksStayValid(p: State, s: State, key: Key, link: Link, taken: set<Key>)
    requires ContentsOk(p) && SkipsMoved(p.skipped, s.skipped, key)
    requires ValidLink(link) && |link.buffer| <= MAX_MESSAGE_BYTES && SkipOf(s, key) == link.skip
    requires key !in taken && s.buffers == p.buffers[key := link.buffer] - taken
    ensures forall k :: ValidLink(LinkAt(s, k))
    ensures forall k :: k in s.buffers ==> |s.buffers[k]| <= MAX_MESSAGE_BYTES
  {
    hide IsAllowedHost;
    forall k
      ensures ValidLink(LinkAt(s, k))
    {
      assert ValidLink(LinkAt(p, k));
    }
  }

  lemma TablesStayBounded(p: State, s: State, id: Id, dropped: set<Id>)
    requires TablesBounded(p) && id in p.lastSeen
    requires s.lastSeen == p.lastSeen && HostsMoved(p.hosts, s.hosts, p.lastSeen, id, dropped)
    ensures TablesBounded(s)
  {
    forall i | i in s.hosts
      ensures i in s.lastSeen
    {
      if i != id { assert i in s.hosts.Keys - {id}; }
    }
  }

  /** The room made in one call: one connection, or two if the active one is new. */
  lemma FewAreDropped(before: map<Id, string>, after: map<Id, string>, id: Id, dropped: set<Id>)
    requires HostKeysMoved(before, after, id, dropped) && |before| <= MAX_TRACKED_API_CONNECTIONS
    ensures |dropped| <= if id in before then 1 else 2
    ensures |dropped| == 2 ==> id in after && |before| == MAX_TRACKED_API_CONNECTIONS
  {
    if dropped != {} {
      var others := before.Keys - {id};
      SetMinus(others, dropped);
      assert after.Keys - {id} == others - dropped;
      assert |before| == |before.Keys| && |after| == |after.Keys|;
      TakeOut(before.Keys, id);
      TakeOut(after.Keys, id);
    }
  }

  lemma TakeOut(s: set<Id>, id: Id)
    ensures |s - {id}| == |s| - if id in s then 1 else 0
  {
    if id in s { SetMinus(s, {id}); } else { assert s - {id} == s; }
  }

  lemma TalkStaysOk(p: State, s: State, id: Id, dropped: set<Id>)
    requires ContentsOk(p) && s.lastSeen == p.lastSeen
    requires HostsMoved(p.hosts, s.hosts, p.lastSeen, id, dropped) && QueuesMoved(p.pending, s.pending, id)
    requires |TalkOf(s, id).pending| <= MAX_PENDING_REQUESTS
    requires TalkOf(s, id).host.Some? ==> IsAllowedHost(TalkOf(s, id).host.value)
    ensures forall i :: i in s.pending ==> |s.pending[i]| <= MAX_PENDING_REQUESTS
    ensures forall i :: i in s.hosts ==> IsAllowedHost(s.hosts[i])
  {
    hide IsAllowedHost;
    forall i | i in s.pending
      ensures |s.pending[i]| <= MAX_PENDING_REQUESTS
    {
      if i != id { assert i in p.pending; }
    }
    forall i | i in s.hosts
      ensures IsAllowedHost(s.hosts[i])
    {
      if i != id { assert i in s.hosts.Keys - {id}; }
    }
  }

  lemma IdsStayTracked(p: State, s: State, id: Id, key: Key, buffer: bytes, taken: set<Key>)
    requires IdsTracked(p) && id in p.lastSeen && key.id == id
    requires s.lastSeen == p.lastSeen && QueuesMoved(p.pending, s.pending, id)
    requires SkipsMoved(p.skipped, s.skipped, key)
    requires s.buffers == p.buffers[key := buffer] - taken
    ensures IdsTracked(s)
  {
  }

  /** Every step from a state that satisfies the invariant leads to one that does. */
  lemma StepKeepsInv(codec: Codec, s: State, a: Action, ev: Evictions, s': State, out: seq<Message>)
    requires Inv(s) && StepRel(codec, s, a, ev, s', out)
    requires a.Parse? ==> ClockAfter(s, a.now)
    ensures Inv(s')
    ensures a.Parse? ==> a.id in s'.lastSeen && (a.id in s.hosts ==> a.id in s'.hosts)
  {
    hide Total, Large, IsAllowedHost, ConnStep;
    match a
    case Forget(id) =>
      ForgetKeepsContents(s, id);
    case Parse(id, call, now) =>
      hide Pruned, CrowdedOk, PieceRel;
      PrunedKeepsInv(s, id, now, ev.crowded);
      var p, key := Pruned(s, id, now, ev.crowded), Key(id, call.direction);
      PieceKeepsInv(codec, p, id, call, ev.dropped, ev.taken, s', out);
  }

  lemma ForgetKeepsContents(s: State, id: Id)
    requires Inv(s)
    ensures Inv(s.(hosts := s.hosts - {id}))
  {
    hide Total, Large, IsAllowedHost;
    var after := s.(hosts := s.hosts - {id});
    forall k
      ensures ValidLink(LinkAt(after, k))
    {
      assert ValidLink(LinkAt(s, k));
    }
    SetSize(after.hosts.Keys, s.hosts.Keys);
    assert |after.hosts| == |after.hosts.Keys| && |s.hosts| == |s.hosts.Keys|;
  }

  lemma PieceKeepsInv(codec: Codec, p: State, id: Id, call: Call, dropped: set<Id>, taken: set<Key>,
                      s': State, out: seq<Message>)
    requires Inv(p) && id in p.lastSeen && Local(p, id).Valid()
    requires PieceRel(codec, p, id, call, dropped, taken, s', out)
    ensures Inv(s') && id in s'.lastSeen && (id in p.hosts ==> id in s'.hosts)
  {
    hide Total, Large, IsAllowedHost, ConnStep;
    var key := Key(id, call.direction);
    var r := ConnStep(codec, Local(p, id), call);
    ReplyBounded(codec, Local(p, id), call);
    hide HostKeysMoved, LeastRecent, QueuesMoved, SkipsMoved, TablesBounded, IdsTracked;
    LinksStayValid(p, s', key, r.conn.Link(call.direction), taken);
    TablesStayBounded(p, s', id, dropped);
    TalkStaysOk(p, s', id, dropped);
    IdsStayTracked(p, s', id, key, r.conn.Link(call.direction).buffer, taken);
    BudgetKeepsTotal(p.buffers, key, r.conn.Link(call.direction).buffer, taken);
  }
}
