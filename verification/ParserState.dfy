/** The state shared by all connections, and what one step may do to it. */
module ParserState {
  import opened Basics
  import opened Codecs
  import opened Hosts
  import opened Framing
  import opened Connection

  const MAX_TOTAL_SCAN_BYTES: nat := 96 * 1024 * 1024
  const MAX_DISCOVERY_CONNECTIONS: nat := 256
  const MAX_TRACKED_API_CONNECTIONS: nat := 64

  /** Forty-five minutes, in nanoseconds. */
  const CONNECTION_IDLE_TIMEOUT: nat := 45 * 60 * 1_000_000_000

  type Id = nat
  type Time = nat

  datatype Key = Key(id: Id, direction: Direction)

  datatype State = State(
    buffers: map<Key, bytes>,
    hosts: map<Id, string>,
    pending: map<Id, seq<Request>>,
    lastSeen: map<Id, Time>,
    parseCount: nat,
    skipped: map<Key, nat>)

  const INITIAL: State := State(map[], map[], map[], map[], 0, map[])

  // ----- one connection's share of the state -----

  function BufferIn(buffers: map<Key, bytes>, key: Key): bytes {
    if key in buffers then buffers[key] else []
  }

  function SkipIn(skipped: map<Key, nat>, key: Key): nat { if key in skipped then skipped[key] else 0 }

  function SkipOf(s: State, key: Key): nat { SkipIn(s.skipped, key) }

  function TalkIn(hosts: map<Id, string>, pending: map<Id, seq<Request>>, id: Id): Talk {
    Talk(if id in hosts then Some(hosts[id]) else None, if id in pending then pending[id] else [])
  }

  function TalkOf(s: State, id: Id): Talk { TalkIn(s.hosts, s.pending, id) }

  function LinkIn(buffers: map<Key, bytes>, skipped: map<Key, nat>, key: Key): Link {
    Link(BufferIn(buffers, key), SkipIn(skipped, key))
  }

  function LinkAt(s: State, key: Key): Link { LinkIn(s.buffers, s.skipped, key) }

  /** An absent entry means the same as an empty one. */
  function Local(s: State, id: Id): Conn {
    Conn(LinkAt(s, Key(id, ToServer)), LinkAt(s, Key(id, ToClient)), TalkOf(s, id))
  }

  // ----- sizes -----

  ghost function Total(m: map<Key, bytes>): nat {
    if m == map[] then 0
    else
      var k :| k in m;
      |m[k]| + Total(m - {k})
  }

  function Large(m: map<Key, bytes>): map<Key, bytes> {
    map k | k in m && |m[k]| > MAX_SCAN_BUFFER :: m[k]
  }

  // ----- the invariant -----

  predicate IdsTracked(s: State) {
    s.pending.Keys <= s.lastSeen.Keys
    && (forall k :: k in s.buffers ==> k.id in s.lastSeen)
    && (forall k :: k in s.skipped ==> k.id in s.lastSeen)
  }

  predicate TablesBounded(s: State) {
    |s.lastSeen| <= MAX_DISCOVERY_CONNECTIONS
    && |s.hosts| <= MAX_TRACKED_API_CONNECTIONS
    && s.hosts.Keys <= s.lastSeen.Keys
  }

  ghost predicate ContentsOk(s: State) {
    (forall k :: ValidLink(LinkAt(s, k)))
    && (forall k :: k in s.buffers ==> |s.buffers[k]| <= MAX_MESSAGE_BYTES)
    && (forall i :: i in s.pending ==> |s.pending[i]| <= MAX_PENDING_REQUESTS)
    && (forall i :: i in s.hosts ==> IsAllowedHost(s.hosts[i]))
  }

  ghost predicate Inv(s: State) {
    TablesBounded(s) && IdsTracked(s) && ContentsOk(s)
    && Total(Large(s.buffers)) <= MAX_TOTAL_SCAN_BYTES
  }

  /** The clock has moved on since every earlier call. */
  predicate ClockAfter(s: State, now: Time) {
    forall i :: i in s.lastSeen ==> s.lastSeen[i] < now
  }

  // ----- forgetting connections -----

  function Touched(s: State, id: Id, now: Time): map<Id, Time> { s.lastSeen[id := now] }

  predicate IsDue(count: nat) { count % 128 == 0 }

  /** The counter of calls wraps. */
  function NextCount(count: nat): nat { (count + 1) % (U64_MAX + 1) }

  /** Every 128th call, and whenever there are too many connections. */
  predicate Scans(s: State, id: Id, now: Time) {
    IsDue(s.parseCount) || |Touched(s, id, now)| > MAX_DISCOVERY_CONNECTIONS
  }

  /** Silent too long and not an API connection. */
  function Silent(seen: map<Id, Time>, guarded: set<Id>, now: Time): set<Id> {
    set i | i in seen && i !in guarded && now - seen[i] > CONNECTION_IDLE_TIMEOUT
  }

  function Expired(s: State, id: Id, now: Time): set<Id> {
    if Scans(s, id, now) then Silent(Touched(s, id, now), s.hosts.Keys, now) else {}
  }

  /** `crowded` are the oldest unprotected connections, as many as there are too many. */
  predicate CrowdedOk(s: State, id: Id, now: Time, crowded: set<Id>) {
    if Scans(s, id, now)
    then OldestTaken(Touched(s, id, now) - Expired(s, id, now), s.hosts.Keys, crowded)
    else crowded == {}
  }

  predicate OldestTaken(left: map<Id, Time>, guarded: set<Id>, crowded: set<Id>) {
    var candidates := left.Keys - guarded;
    if |left| <= MAX_DISCOVERY_CONNECTIONS then crowded == {}
    else
      crowded <= candidates
      && |crowded| == Min(|left| - MAX_DISCOVERY_CONNECTIONS, |candidates|)
      && forall v, k :: v in crowded && k in candidates - crowded ==> left[v] <= left[k]
  }

  function Victims(s: State, id: Id, now: Time, crowded: set<Id>): set<Id> {
    Expired(s, id, now) + crowded
  }

  function WithoutIds<V>(m: map<Key, V>, ids: set<Id>): map<Key, V> {
    map k | k in m && k.id !in ids :: m[k]
  }

  /** The call counted, the active connection touched, the victims forgotten. */
  function Without(s: State, id: Id, now: Time, victims: set<Id>): State {
    State(WithoutIds(s.buffers, victims), s.hosts - victims, s.pending - victims,
          Touched(s, id, now) - victims, NextCount(s.parseCount),
          WithoutIds(s.skipped, victims))
  }

  function Pruned(s: State, id: Id, now: Time, crowded: set<Id>): State {
    Without(s, id, now, Victims(s, id, now, crowded))
  }

  // ----- making room -----

  /** Only connection `id`'s host may have changed, except that `dropped` made
      room, only in a full table, and only until one more fitted. */
  predicate HostKeysMoved(before: map<Id, string>, after: map<Id, string>, id: Id, dropped: set<Id>) {
    dropped <= before.Keys - {id}
    && after.Keys - {id} == before.Keys - dropped - {id}
    && (forall c :: c in after && c in before && c != id ==> after[c] == before[c])
    && (id in before ==> id in after)
    && |after| <= MAX_TRACKED_API_CONNECTIONS
    && (dropped != {} ==>
          |before.Keys + {id}| >= MAX_TRACKED_API_CONNECTIONS && |after| >= MAX_TRACKED_API_CONNECTIONS - 1)
  }

  /** The hosts that made room were seen no later than the others that stayed. */
  predicate LeastRecent(after: map<Id, string>, seen: map<Id, Time>, id: Id, dropped: set<Id>) {
    forall d, k :: d in dropped && k in after && k != id && k in seen && d in seen ==> seen[d] <= seen[k]
  }

  predicate HostsMoved(before: map<Id, string>, after: map<Id, string>, seen: map<Id, Time>,
                       id: Id, dropped: set<Id>) {
    HostKeysMoved(before, after, id, dropped) && LeastRecent(after, seen, id, dropped)
  }

  /** Only connection `id`'s queue has changed; absent and empty are the same. */
  ghost predicate QueuesMoved(before: map<Id, seq<Request>>, after: map<Id, seq<Request>>, id: Id) {
    (forall c :: c != id && c in before ==> c in after && after[c] == before[c])
    && after.Keys <= before.Keys + {id}
  }

  /** Only one key's skip count has changed; absent and 0 are the same. */
  ghost predicate SkipsMoved(before: map<Key, nat>, after: map<Key, nat>, key: Key) {
    (forall k :: k != key ==> SkipIn(after, k) == SkipIn(before, k))
    && after.Keys <= before.Keys + {key}
  }

  ghost predicate EachWasNeeded(full: map<Key, bytes>, taken: set<Key>) {
    forall t :: t in taken ==> Total(full - (taken - {t})) > MAX_TOTAL_SCAN_BYTES
  }

  /** The byte budget: only after a call that leaves a large buffer, largest others
      first, until the total fits or only that buffer is left, and no longer: with any
      one of the taken put back the total would not fit. */
  ghost predicate TakenOk(full: map<Key, bytes>, key: Key, taken: set<Key>) {
    key in full && key !in taken && taken <= full.Keys
    && if |full[key]| <= MAX_SCAN_BUFFER then taken == {}
       else
         (Total(full - taken) <= MAX_TOTAL_SCAN_BYTES || (full - taken).Keys == {key})
         && EachWasNeeded(full, taken)
         && forall t, k :: t in taken && k in full && k !in taken && k != key ==> |full[k]| <= |full[t]|
  }

  // ----- steps -----

  datatype Action =
    | Parse(id: Id, call: Call, now: Time)
    | Forget(id: Id)

  /** What a step removed beyond what it was asked to do. */
  datatype Evictions = Evictions(crowded: set<Id>, dropped: set<Id>, taken: set<Key>)

  const NO_EVICTIONS: Evictions := Evictions({}, {}, {})

  /** What a call does once the tables are pruned: the active connection does what
      it would do alone, and `dropped` and `taken` make room. */
  ghost predicate PieceRel(codec: Codec, p: State, id: Id, call: Call, dropped: set<Id>, taken: set<Key>,
                           s: State, out: seq<Message>)
    requires Local(p, id).Valid()
  {
    var key := Key(id, call.direction);
    var r := ConnStep(codec, Local(p, id), call);
    var full := p.buffers[key := r.conn.Link(call.direction).buffer];
    out == r.messages
    && s.lastSeen == p.lastSeen && s.parseCount == p.parseCount
    && HostsMoved(p.hosts, s.hosts, p.lastSeen, id, dropped)
    && QueuesMoved(p.pending, s.pending, id)
    && SkipsMoved(p.skipped, s.skipped, key)
    && TalkOf(s, id) == r.conn.talk
    && SkipOf(s, key) == r.conn.Link(call.direction).skip
    && TakenOk(full, key, taken)
    && s.buffers == full - taken
  }

  /** One step of the shared parser. */
  ghost predicate StepRel(codec: Codec, s: State, a: Action, ev: Evictions, s': State, out: seq<Message>) {
    match a
    case Forget(id) => ev == NO_EVICTIONS && out == [] && s' == s.(hosts := s.hosts - {id})
    case Parse(id, call, now) =>
      var p := Pruned(s, id, now, ev.crowded);
      CrowdedOk(s, id, now, ev.crowded)
      && Local(p, id).Valid()
      && PieceRel(codec, p, id, call, ev.dropped, ev.taken, s', out)
  }
}
