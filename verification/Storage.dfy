/** The local database as far as the stream needs it: one session row, and two
    append-only tables that are cut to their newest rows now and then. */
module Storage {
  import opened Basics
  import opened Overlay

  const MAX_OBSERVATIONS: nat := 5_000
  const MAX_USER_EVENTS: nat := 1_000
  const STREAM_SESSION_SCHEMA_VERSION: nat := 2

  /** Calendar days, in order. */
  type Day = nat

  datatype Persisted = Persisted(schemaVersion: nat, day: Day, startedAt: nat, updatedAt: nat,
                                 baseline: OverlayStats, overlay: OverlayStats)

  datatype UserEvent = UserEvent(at: nat, day: Day, level: string, message: string)

  datatype Observation = Observation(at: nat, direction: string, host: string, shape: string)

  // ----- tables: rows in the order of their ids -----

  /** `DELETE .. WHERE id NOT IN (the n newest)`. */
  function KeepNewest<T>(rows: seq<T>, n: nat): (kept: seq<T>)
    ensures |kept| == Min(|rows|, n)
  {
    if |rows| <= n then rows else rows[|rows| - n..]
  }

  /** The newest rows first, at most `limit`. */
  function NewestFirst<T>(rows: seq<T>, limit: nat): seq<T>
    decreases |rows|
  {
    if rows == [] || limit == 0 then []
    else [rows[|rows| - 1]] + NewestFirst(rows[..|rows| - 1], limit - 1)
  }

  /** The newest events of one day first, at most `limit`. */
  function NewestOfDay(rows: seq<UserEvent>, day: Day, limit: nat): (r: seq<UserEvent>)
    ensures |r| <= limit
    decreases |rows|
  {
    if rows == [] || limit == 0 then []
    else
      var last := rows[|rows| - 1];
      if last.day == day then [last] + NewestOfDay(rows[..|rows| - 1], day, limit - 1)
      else NewestOfDay(rows[..|rows| - 1], day, limit)
  }

  /** The events of one day, in the order they were written. */
  function OfDay(rows: seq<UserEvent>, day: Day): seq<UserEvent> {
    if rows == [] then []
    else OfDay(rows[..|rows| - 1], day) + if rows[|rows| - 1].day == day then [rows[|rows| - 1]] else []
  }

  /** Newest first, and none missing up to the limit. */
  predicate IsNewest<T(==)>(newest: seq<T>, all: seq<T>, limit: nat) {
    |newest| == Min(|all|, limit) && forall k :: 0 <= k < |newest| ==> newest[k] == all[|all| - 1 - k]
  }

  lemma {:induction false} NewestOfDayIsNewest(rows: seq<UserEvent>, day: Day, limit: nat)
    ensures IsNewest(NewestOfDay(rows, day, limit), OfDay(rows, day), limit)
    ensures forall r :: r in OfDay(rows, day) <==> r in rows && r.day == day
    decreases |rows|
  {
    if rows != [] {
      var last, front := rows[|rows| - 1], rows[..|rows| - 1];
      assert rows == front + [last];
      var days := OfDay(front, day);
      if limit == 0 || last.day != day {
        NewestOfDayIsNewest(front, day, limit);
      } else {
        NewestOfDayIsNewest(front, day, limit - 1);
        var newest := NewestOfDay(front, day, limit - 1);
        var longer := [last] + newest;
        forall k | 0 <= k < |longer|
          ensures longer[k] == (days + [last])[|days| - k]
        {
          if k > 0 { assert newest[k - 1] == days[|days| - k]; }
        }
      }
    }
  }

  lemma {:induction false} NewestFirstIsNewest<T>(rows: seq<T>, limit: nat)
    ensures IsNewest(NewestFirst(rows, limit), rows, limit)
    decreases |rows|
  {
    if rows != [] && limit > 0 {
      var front := rows[..|rows| - 1];
      NewestFirstIsNewest(front, limit - 1);
      var newest := NewestFirst(front, limit - 1);
      var longer := [rows[|rows| - 1]] + newest;
      forall k | 0 <= k < |longer|
        ensures longer[k] == rows[|rows| - 1 - k]
      {
        if k > 0 { assert newest[k - 1] == front[|front| - k]; }
      }
    }
  }

  predicate DaysInOrder(rows: seq<UserEvent>) {
    forall i, j :: 0 <= i <= j < |rows| ==> rows[i].day <= rows[j].day
  }

  predicate UpTo(rows: seq<UserEvent>, day: Day) {
    forall i :: 0 <= i < |rows| ==> rows[i].day <= day
  }

  /** Asking for fewer gives the front of what asking for more gives. */
  lemma {:induction false} NewestIsPrefix(rows: seq<UserEvent>, day: Day, few: nat, many: nat)
    requires few <= many
    ensures NewestOfDay(rows, day, few)
         == NewestOfDay(rows, day, many)[..Min(few, |NewestOfDay(rows, day, many)|)]
    decreases |rows|
  {
    if rows != [] && few > 0 {
      var last, front := rows[|rows| - 1], rows[..|rows| - 1];
      if last.day == day {
        NewestIsPrefix(front, day, few - 1, many - 1);
        var tail := NewestOfDay(front, day, many - 1);
        assert ([last] + tail)[..Min(few, 1 + |tail|)] == [last] + tail[..Min(few - 1, |tail|)];
      } else {
        NewestIsPrefix(front, day, few, many);
      }
    }
  }

  lemma {:induction false} NoneOfDay(rows: seq<UserEvent>, day: Day, limit: nat)
    requires forall i :: 0 <= i < |rows| ==> rows[i].day < day
    ensures NewestOfDay(rows, day, limit) == []
    decreases |rows|
  {
    if rows != [] && limit > 0 {
      NoneOfDay(rows[..|rows| - 1], day, limit);
    }
  }

  /** With days in order, the newest of the current day are among the newest rows. */
  lemma {:induction false} OldRowsDoNotMatter(rows: seq<UserEvent>, day: Day, limit: nat, from: nat)
    requires DaysInOrder(rows) && UpTo(rows, day)
    requires from <= |rows| && limit <= |rows| - from
    ensures NewestOfDay(rows[from..], day, limit) == NewestOfDay(rows, day, limit)
    decreases |rows|
  {
    if limit > 0 {
      var last, front := rows[|rows| - 1], rows[..|rows| - 1];
      assert rows[from..][|rows| - from - 1] == last;
      assert rows[from..][..|rows| - from - 1] == front[from..];
      if last.day == day {
        OldRowsDoNotMatter(front, day, limit - 1, from);
      } else {
        NoneOfDay(rows, day, limit);
        NoneOfDay(rows[from..], day, limit);
      }
    }
  }

  lemma PruningKeepsTheDay(rows: seq<UserEvent>, day: Day, limit: nat)
    requires DaysInOrder(rows) && UpTo(rows, day) && limit <= MAX_USER_EVENTS
    ensures NewestOfDay(KeepNewest(rows, MAX_USER_EVENTS), day, limit) == NewestOfDay(rows, day, limit)
  {
    if |rows| > MAX_USER_EVENTS {
      OldRowsDoNotMatter(rows, day, limit, |rows| - MAX_USER_EVENTS);
    }
  }

  /** A new event of the day goes to the front, and one may fall off the end. */
  lemma NewEventGoesFirst(rows: seq<UserEvent>, event: UserEvent, limit: nat)
    requires limit > 0
    ensures
      var before := NewestOfDay(rows, event.day, limit);
      NewestOfDay(rows + [event], event.day, limit)
      == ([event] + before)[..Min(limit, 1 + |before|)]
  {
    var before := NewestOfDay(rows, event.day, limit);
    assert (rows + [event])[..|rows|] == rows;
    NewestIsPrefix(rows, event.day, limit - 1, limit);
    assert ([event] + before)[..Min(limit, 1 + |before|)] == [event] + before[..Min(limit - 1, |before|)];
  }

  // ----- the database object -----

  class Database {
    var session: Option<Persisted>
    var events: seq<UserEvent>
    var observations: seq<Observation>
    var eventWrites: nat
    var observationWrites: nat
    ghost var allEvents: seq<UserEvent>
    ghost var allObservations: seq<Observation>

    /** The tables hold the newest of everything ever written, and never grow far
        past their limits. */
    ghost predicate Valid()
      reads this`events, this`eventWrites, this`allEvents
      reads this`observations, this`observationWrites, this`allObservations
    {
      IsCut(allEvents, events, MAX_USER_EVENTS) && |events| <= MAX_USER_EVENTS + eventWrites % 64
      && IsCut(allObservations, observations, MAX_OBSERVATIONS)
      && |observations| <= MAX_OBSERVATIONS + observationWrites % 256
    }

    constructor ()
      ensures Valid() && session == None && events == [] && observations == []
      ensures eventWrites == 0 && observationWrites == 0 && allEvents == [] && allObservations == []
    {
      session, events, observations, eventWrites, observationWrites := None, [], [], 0, 0;
      allEvents, allObservations := [], [];
    }

    /** A new process opens the file: history is cut, and the counters start over. */
    method Reopen()
      requires Valid()
      modifies this
      ensures Valid() && session == old(session)
      ensures events == KeepNewest(old(events), MAX_USER_EVENTS)
      ensures observations == KeepNewest(old(observations), MAX_OBSERVATIONS)
      ensures eventWrites == 0 && observationWrites == 0
      ensures allEvents == old(allEvents) && allObservations == old(allObservations)
    {
      hide IsCut, KeepNewest;
      CutAgain(allEvents, events, MAX_USER_EVENTS);
      CutAgain(allObservations, observations, MAX_OBSERVATIONS);
      events := KeepNewest(events, MAX_USER_EVENTS);
      observations := KeepNewest(observations, MAX_OBSERVATIONS);
      eventWrites, observationWrites := 0, 0;
    }

    method SaveStreamSession(row: Persisted)
      modifies this`session
      ensures session == Some(row)
    {
      session := Some(row);
    }

    /** A row of another schema version is not restored. */
    method LoadStreamSession() returns (row: Option<Persisted>)
      ensures row == if session.Some? && session.value.schemaVersion == STREAM_SESSION_SCHEMA_VERSION
                     then session else None
    {
      if session.None? || session.value.schemaVersion != STREAM_SESSION_SCHEMA_VERSION {
        return None;
      }
      return session;
    }

    method InsertUserEvent(event: UserEvent)
      requires Valid()
      modifies this`events, this`eventWrites, this`allEvents
      ensures Valid() && allEvents == old(allEvents) + [event]
      ensures eventWrites == old(eventWrites) + 1
      ensures events == EventsAfter(old(events), old(eventWrites), event)
    {
      hide IsCut, KeepNewest;
      CutGrows(allEvents, events, MAX_USER_EVENTS, event);
      events := events + [event];
      allEvents := allEvents + [event];
      if eventWrites % 64 == 63 {
        CutAgain(allEvents, events, MAX_USER_EVENTS);
        events := KeepNewest(events, MAX_USER_EVENTS);
      }
      eventWrites := eventWrites + 1;
    }

    method InsertObservation(row: Observation)
      requires Valid()
      modifies this`observations, this`observationWrites, this`allObservations
      ensures Valid() && allObservations == old(allObservations) + [row]
      ensures observationWrites == old(observationWrites) + 1
      ensures observations == ObservationsAfter(old(observations), old(observationWrites), row)
    {
      hide IsCut, KeepNewest;
      CutGrows(allObservations, observations, MAX_OBSERVATIONS, row);
      observations := observations + [row];
      allObservations := allObservations + [row];
      if observationWrites % 256 == 255 {
        CutAgain(allObservations, observations, MAX_OBSERVATIONS);
        observations := KeepNewest(observations, MAX_OBSERVATIONS);
      }
      observationWrites := observationWrites + 1;
    }

    /** Up to the table's limit, what is read is the newest ever written. */
    method RecentObservations(limit: nat) returns (rows: seq<Observation>)
      requires Valid()
      ensures IsNewest(rows, observations, limit)
      ensures limit <= MAX_OBSERVATIONS ==> IsNewest(rows, allObservations, limit)
    {
      NewestFirstIsNewest(observations, limit);
      NewestFirstIsNewest(allObservations, limit);
      rows := NewestFirst(observations, limit);
      if limit <= MAX_OBSERVATIONS {
        NewestOfCut(allObservations, observations, MAX_OBSERVATIONS, limit);
      }
    }

    /** Only the day's events, newest first, none missing up to the limit and to 100. */
    method UserEventsForDay(day: Day, limit: nat) returns (rows: seq<UserEvent>)
      ensures IsNewest(rows, OfDay(events, day), Min(limit, 100))
      ensures forall r :: r in rows ==> r in events && r.day == day
      ensures |rows| < Min(limit, 100) ==> forall r :: r in events && r.day == day ==> r in rows
      ensures rows == NewestOfDay(events, day, Min(limit, 100))
    {
      NewestOfDayIsNewest(events, day, Min(limit, 100));
      rows := NewestOfDay(events, day, Min(limit, 100));
      var all := OfDay(events, day);
      assert forall k :: 0 <= k < |rows| ==> rows[k] == all[|all| - 1 - k] && rows[k] in all;
      if |rows| < Min(limit, 100) {
        forall r | r in all
          ensures r in rows
        {
          var i :| 0 <= i < |all| && all[i] == r;
          assert rows[|all| - 1 - i] == r;
        }
      }
    }
  }

  function EventsAfter(events: seq<UserEvent>, writes: nat, event: UserEvent): seq<UserEvent> {
    if writes % 64 == 63 then KeepNewest(events + [event], MAX_USER_EVENTS) else events + [event]
  }

  function ObservationsAfter(rows: seq<Observation>, writes: nat, row: Observation): seq<Observation> {
    if writes % 256 == 255 then KeepNewest(rows + [row], MAX_OBSERVATIONS) else rows + [row]
  }

  /** `rows` are the newest of `all`, and at least `n` of them if there are as many. */
  predicate IsCut<T(==)>(all: seq<T>, rows: seq<T>, n: nat) {
    |rows| <= |all| && rows == all[|all| - |rows|..] && (|rows| >= n || rows == all)
  }

  lemma CutGrows<T>(all: seq<T>, rows: seq<T>, n: nat, row: T)
    requires IsCut(all, rows, n)
    ensures IsCut(all + [row], rows + [row], n)
  {
  }

  lemma CutAgain<T>(all: seq<T>, rows: seq<T>, n: nat)
    requires IsCut(all, rows, n)
    ensures IsCut(all, KeepNewest(rows, n), n)
  {
  }

  lemma {:induction false} NewestOfCut<T>(all: seq<T>, rows: seq<T>, n: nat, limit: nat)
    requires IsCut(all, rows, n) && limit <= n
    ensures NewestFirst(rows, limit) == NewestFirst(all, limit)
    decreases limit
  {
    if limit > 0 && rows != [] {
      var a, r := all[..|all| - 1], rows[..|rows| - 1];
      assert r == a[|a| - |r|..];
      NewestOfCut(a, r, n - 1, limit - 1);
    }
  }
}
