/** What the stream's counters are, without the application: the delta from the first
    response of the day or the last reset. The application shows exactly that through
    restarts and demo data, unless demo numbers are saved or made the baseline. */
module Restarts {
  import opened Basics
  import opened Overlay
  import opened Stats
  import opened Widgets
  import opened Storage
  import opened Session

  // ----- the reference -----

  /** The stream as the game reports it: the totals counted from and since when, and of
      the newest response the totals, the rows and the day. */
  datatype Stream = Stream(day: Day, base: Option<Totals>, started: Option<nat>,
                           last: Totals, rows: u64, today: Today)

  function OnDay(i: Stream, today: Day): Stream {
    if today == i.day then i
    else i.(day := today, base := None, started := None, today := Today(0, 0, false, map[]))
  }

  /** Only responses, resets and new days matter; a new process only notices the day. */
  function Follow(i: Stream, a: Action): Stream {
    match a
    case Probe(payload, _, now) =>
      i.(base := Some(i.base.GetOr(payload.totals)), started := if i.base.None? then Some(now) else i.started,
         last := payload.totals, rows := payload.statsRows, today := payload.today)
    case Reset(now) => i.(base := Some(i.last), started := Some(now))
    case Rollover(today) => OnDay(i, today)
    case Restart(today, _, _, _, _) => OnDay(i, today)
    case Crash(today, _, _, _) => OnDay(i, today)
    case _ => i
  }

  /** What is seen at a game response: the counters, the day, and since when it counts. */
  datatype Reading = Reading(counters: Counters, today: Today, started: Option<nat>)

  /** What each game response should show. */
  function Expected(i: Stream, actions: seq<Action>): seq<Reading>
    decreases |actions|
  {
    if actions == [] then []
    else
      var a, next := actions[0], Follow(i, actions[0]);
      ExpectedAt(a, next) + Expected(next, actions[1..])
  }

  function ExpectedAt(a: Action, next: Stream): seq<Reading> {
    if a.Probe? && next.base.Some?
    then [Reading(SessionDelta(a.payload.totals, next.base.value), next.today, next.started)] else []
  }

  /** What is shown after each game response. */
  function Readings(s: Live, actions: seq<Action>): seq<Reading>
    decreases |actions|
  {
    if actions == [] then []
    else ReadingAt(actions[0], Step(s, actions[0])) + Readings(Step(s, actions[0]), actions[1..])
  }

  function ReadingAt(a: Action, after: Live): seq<Reading> {
    if a.Probe? then [Reading(after.overlay.session, after.overlay.today, after.startedAt)] else []
  }

  ghost predicate SameReading(a: Reading, b: Reading) {
    SameCounters(a.counters, b.counters) && a.today == b.today && a.started == b.started
  }

  ghost predicate SameReadings(a: seq<Reading>, b: seq<Reading>) {
    |a| == |b| && forall i :: 0 <= i < |a| ==> SameReading(a[i], b[i])
  }

  function StreamOf(s: Live): Stream {
    Stream(s.day, if s.baseline.Some? then Some(s.baseline.value.totals) else None, s.startedAt,
           s.overlay.totals, s.overlay.statsRows, s.overlay.today)
  }

  // ----- which steps are safe -----

  /** The overlay shows counted numbers that are not demo numbers. */
  predicate CanReset(s: Live) { s.overlay.statsRows > 0 && s.overlay.mode != "demo" }

  /** A reset is confirmed only while real numbers are shown, as the button that asks
      for it requires, and the game does not stop while demo numbers are shown. */
  predicate Clean(s: Live, a: Action) {
    match a
    case Reset(_) => CanReset(s)
    case GameStopped(_) => s.overlay.mode != "demo"
    case _ => true
  }

  predicate CleanAll(s: Live, actions: seq<Action>)
    decreases |actions|
  {
    actions == [] || (Clean(s, actions[0]) && CleanAll(Step(s, actions[0]), actions[1..]))
  }

  /** Baselines no response can tell apart. */
  ghost predicate SameBase(a: Totals, b: Totals) {
    a.downs == b.downs && a.extractions == b.extractions && a.deaths == b.deaths
    && a.lootValue == b.lootValue && a.valueBroughtIn == b.valueBroughtIn && SameRaw(a.raw, b.raw)
  }

  lemma SameBaseTrans(a: Totals, b: Totals, c: Totals)
    requires SameBase(a, b) && SameBase(b, c)
    ensures SameBase(a, c)
  {
    forall k
      ensures Lookup(a.raw, k) == Lookup(c.raw, k)
    {
      assert Lookup(a.raw, k) == Lookup(b.raw, k) && Lookup(b.raw, k) == Lookup(c.raw, k);
    }
  }

  lemma SameBaseSym(a: Totals, b: Totals)
    requires SameBase(a, b)
    ensures SameBase(b, a)
  {
    forall k
      ensures Lookup(b.raw, k) == Lookup(a.raw, k)
    {
      assert Lookup(a.raw, k) == Lookup(b.raw, k);
    }
  }

  lemma HydratedIsSameBase(t: Totals)
    requires Neutral(t)
    ensures SameBase(HydrateLegacy(t), t) && SameBase(t, HydrateLegacy(t)) && SameBase(t, t)
  {
    HydrationIsNeutral(t);
    SameBaseSym(HydrateLegacy(t), t);
  }

  lemma SameBaseDelta(now: Totals, a: Totals, b: Totals)
    requires SameBase(a, b)
    ensures SameCounters(SessionDelta(now, a), SessionDelta(now, b))
  {
    forall k
      ensures Lookup(RawDelta(now.raw, a.raw), k) == Lookup(RawDelta(now.raw, b.raw), k)
    {
      LookupDelta(now.raw, a.raw, k);
      LookupDelta(now.raw, b.raw, k);
      assert Lookup(a.raw, k) == Lookup(b.raw, k);
    }
  }

  /** The application agrees with the stream: on the baseline, on what a reset would
      make the baseline, and on what a restart would restore for such a reset. */
  ghost predicate Related(s: Live, i: Stream) {
    s.day == i.day
    && (s.baseline.Some? <==> i.base.Some?)
    && (s.baseline.Some? ==> SameBase(s.baseline.value.totals, i.base.value) && s.startedAt == i.started)
    && (CanReset(s) ==> SameBase(s.overlay.totals, i.last))
    && RowRelated(s, i)
  }

  ghost predicate RowRelated(s: Live, i: Stream) {
    s.baseline.Some? && s.stored.Some? && s.stored.value.overlay.statsRows > 0 ==>
      SameBase(HydrateLegacy(s.stored.value.overlay.totals), i.last)
  }

  // ----- what the steps do to the numbers -----

  predicate IsStart(a: Action) { a.Restart? || a.Crash? }

  lemma StepOnNumbers(s: Live, a: Action)
    requires !IsStart(a)
    ensures
      var after := Step(s, a);
      match a
      case Probe(payload, _, _) =>
        after.day == s.day && after.baseline == Some(s.baseline.GetOr(payload))
        && after.overlay.today == payload.today
        && after.startedAt == (if s.baseline.None? then Some(a.now) else Some(s.startedAt.GetOr(a.now)))
        && after.overlay.mode == payload.mode && after.overlay.totals == payload.totals
        && after.overlay.statsRows == payload.statsRows
        && after.overlay.session == SessionDelta(payload.totals, s.baseline.GetOr(payload).totals)
        && after.stored.Some? && after.stored.value.overlay == after.overlay
      case Reset(_) =>
        after.day == s.day && after.baseline == Some(s.overlay) && after.startedAt == Some(a.now)
        && after.overlay.today == s.overlay.today
        && after.overlay.mode == "live" && after.overlay.totals == s.overlay.totals
        && after.overlay.statsRows == s.overlay.statsRows
        && after.stored.Some? && after.stored.value.overlay == after.overlay
      case Rollover(today) =>
        after.day == today && (today == s.day ==> after == s)
        && (today != s.day ==> after.baseline == None && after.startedAt == None && after.overlay.today == NO_TODAY)
        && after.overlay.mode == s.overlay.mode && after.overlay.totals == s.overlay.totals
        && after.overlay.statsRows == s.overlay.statsRows && after.stored == s.stored
      case GameStopped(_) =>
        after.day == s.day && after.baseline == s.baseline && after.overlay == s.overlay
        && if s.baseline.None? then after == s
           else after.stored.Some? && after.stored.value.overlay == s.overlay
                && after.startedAt == Some(s.startedAt.GetOr(a.now))
      case LoadDemo =>
        after.day == s.day && after.baseline == s.baseline && after.stored == s.stored
        && after.startedAt == s.startedAt
        && after.overlay.mode == "demo" && after.overlay.statsRows == s.overlay.statsRows
        && after.overlay.totals == DemoOverlay(s.overlay).totals
      case ClearDemo =>
        after.day == s.day && after.baseline == s.baseline && after.stored == s.stored
        && after.startedAt == s.startedAt
        && after.overlay.mode == "live" && after.overlay.statsRows == 0
      case _ =>
        after.day == s.day && after.baseline == s.baseline && after.stored == s.stored
        && after.startedAt == s.startedAt && after.overlay.today == s.overlay.today
        && after.overlay.mode == s.overlay.mode
        && after.overlay.totals == s.overlay.totals && after.overlay.statsRows == s.overlay.statsRows
  {
    hide ResolveAll, SessionDelta, DemoOverlay;
    if a.LoadDemo? { DemoKeepsRows(s.overlay); }
  }

  lemma DemoKeepsRows(o: OverlayStats)
    ensures DemoOverlay(o).mode == "demo" && DemoOverlay(o).statsRows == o.statsRows
    ensures DemoOverlay(o).totals.lootValue == 428_750
  {
  }

  /** The record a new process finds: the one saved now, or in demo mode and after a
      crash the last one saved. */
  function SavedRecord(s: Live, a: Action): OverlayStats
    requires s.baseline.Some? ==> s.stored.Some?
  {
    if (s.overlay.mode == "demo" || a.Crash?) && s.stored.Some? then s.stored.value.overlay else s.overlay
  }

  lemma RestartOnNumbers(s: Live, a: Action)
    requires Inv(s) && IsStart(a) && a.today >= s.day
    ensures
      var after := Step(s, a);
      after.day == a.today && after.overlay.mode == "live"
      && (after.baseline.Some? <==> s.baseline.Some? && a.today == s.day)
      && (after.baseline.Some? ==> SameTotals(after.baseline.value.totals, s.baseline.value.totals))
      && (after.baseline.None? ==> after.overlay.statsRows == 0 && after.startedAt == None)
      && (after.baseline.Some? ==>
            after.overlay.totals == HydrateLegacy(SavedRecord(s, a).totals)
            && after.overlay.statsRows == SavedRecord(s, a).statsRows
            && after.overlay.today == SavedRecord(s, a).today && after.startedAt == s.startedAt
            && after.stored.Some? && after.stored.value.overlay == SavedRecord(s, a))
  {
    hide ResolveAll, SessionDelta, SameTotals, HydrateLegacy, CountersFit, PresetsFit, Neutral;
    if s.baseline.Some? { HydrationIsNeutral(s.baseline.value.totals); }
  }

  // ----- when a step keeps the agreement -----

  /** A reset must make real totals the baseline, and a stop must save real totals or
      none at all. */
  ghost predicate Harmless(s: Live, i: Stream, a: Action) {
    match a
    case Reset(_) => SameBase(s.overlay.totals, i.last)
    case GameStopped(_) =>
      s.baseline.Some? && s.overlay.statsRows > 0 ==> SameBase(s.overlay.totals, i.last)
    case _ => true
  }

  lemma CleanIsHarmless(s: Live, i: Stream, a: Action)
    requires Inv(s) && Related(s, i) && Clean(s, a)
    ensures Harmless(s, i, a)
  {
  }

  /** A step keeps the agreement exactly when it is harmless. */
  lemma StepStaysRelated(s: Live, i: Stream, a: Action)
    requires Inv(s) && Related(s, i) && Offered(s, a)
    ensures Related(Step(s, a), Follow(i, a)) <==> Harmless(s, i, a)
  {
    hide Step, SameBase, SameTotals, SessionDelta, HydrateLegacy, DemoOverlay, CountersFit, PresetsFit, Neutral, Agree;
    if IsStart(a) {
      RestartOnNumbers(s, a);
      RestartStaysRelated(s, i, a);
    } else {
      StepOnNumbers(s, a);
      match a
      case Probe(payload, _, _) => HydratedIsSameBase(payload.totals);
      case Reset(_) => SavedTotals(s, i);
      case GameStopped(_) => SavedTotals(s, i);
      case _ =>
    }
  }

  /** A saved record of the application compares as the record itself. */
  lemma SavedTotals(s: Live, i: Stream)
    requires Inv(s)
    ensures SameBase(HydrateLegacy(s.overlay.totals), i.last) <==> SameBase(s.overlay.totals, i.last)
  {
    hide SameBase, HydrateLegacy, CountersFit, PresetsFit, DiskFits;
    var t := s.overlay.totals;
    HydratedIsSameBase(t);
    if SameBase(t, i.last) { SameBaseTrans(HydrateLegacy(t), t, i.last); }
    if SameBase(HydrateLegacy(t), i.last) { SameBaseTrans(t, HydrateLegacy(t), i.last); }
  }

  lemma RestartStaysRelated(s: Live, i: Stream, a: Action)
    requires Inv(s) && Related(s, i) && IsStart(a) && Offered(s, a)
    ensures Related(Step(s, a), Follow(i, a))
  {
    hide Step, SameBase, SameTotals, HydrateLegacy, CountersFit, PresetsFit, Neutral;
    RestartOnNumbers(s, a);
    SavedTotals(s, i);
    var after := Step(s, a);
    if after.baseline.Some? {
      SameIsSameBase(after.baseline.value.totals, s.baseline.value.totals);
      SameBaseTrans(after.baseline.value.totals, s.baseline.value.totals, i.base.value);
    }
  }

  lemma SameIsSameBase(a: Totals, b: Totals)
    requires SameTotals(a, b)
    ensures SameBase(a, b)
  {
  }

  // ----- over runs -----

  lemma ReadingOfProbe(s: Live, i: Stream, a: Action)
    requires Inv(s) && Related(s, i) && a.Probe?
    ensures SameReadings(ReadingAt(a, Step(s, a)), ExpectedAt(a, Follow(i, a)))
  {
    hide SessionDelta, SameCounters, SameBase, CountersFit, PresetsFit, AllNeutral, SameTotals, HydrateLegacy, Step;
    StepOnNumbers(s, a);
    if s.baseline.Some? {
      SameBaseDelta(a.payload.totals, s.baseline.value.totals, i.base.value);
    } else {
      SameCountersSelf(SessionDelta(a.payload.totals, a.payload.totals));
    }
  }

  lemma NothingRead(a: Action, after: Live, next: Stream)
    requires !a.Probe?
    ensures ReadingAt(a, after) == [] && ExpectedAt(a, next) == []
  {
  }

  /** Over every run of clean steps, with restarts and demo data anywhere, every game
      response shows what the reference expects. */
  lemma {:induction false} CountersFollowTheStream(s: Live, i: Stream, actions: seq<Action>)
    requires Inv(s) && Related(s, i) && OfferedAll(s, actions) && CleanAll(s, actions)
    ensures SameReadings(Readings(s, actions), Expected(i, actions))
    decreases |actions|
  {
    hide Inv, Related, Step, Follow, Offered, Clean, Harmless, SameReading, ReadingAt, ExpectedAt;
    if actions != [] {
      var a := actions[0];
      CleanIsHarmless(s, i, a);
      StepStaysRelated(s, i, a);
      StepKeepsInv(s, a);
      CountersFollowTheStream(Step(s, a), Follow(i, a), actions[1..]);
      if a.Probe? { ReadingOfProbe(s, i, a); } else { NothingRead(a, Step(s, a), Follow(i, a)); }
    }
  }

  /** Between responses too, real numbers on screen or on disk are the newest response's,
      its rows and its day included. */
  ghost predicate ShowsNewest(s: Live, i: Stream) {
    (CanReset(s) ==> IsNewest(s.overlay, s.overlay.totals, i))
    && (s.baseline.Some? && s.stored.Some? && s.stored.value.overlay.statsRows > 0 ==>
          IsNewest(s.stored.value.overlay, HydrateLegacy(s.stored.value.overlay.totals), i))
  }

  ghost predicate IsNewest(o: OverlayStats, totals: Totals, i: Stream) {
    SameTotals(totals, i.last) && o.statsRows == i.rows && o.today == i.today
  }

  lemma StepShowsNewest(s: Live, i: Stream, a: Action)
    requires Inv(s) && Offered(s, a) && Clean(s, a) && ShowsNewest(s, i) && s.day == i.day
    ensures ShowsNewest(Step(s, a), Follow(i, a))
  {
    hide Step, SameTotals, SessionDelta, HydrateLegacy, DemoOverlay, CountersFit, PresetsFit, Neutral, Agree;
    HydratedIsSame(s.overlay.totals);
    SavedIsSame(s.overlay.totals, i.last);
    if IsStart(a) {
      RestartOnNumbers(s, a);
    } else {
      StepOnNumbers(s, a);
      if a.Probe? {
        SameTotalsSelf(a.payload.totals);
        HydratedIsSame(a.payload.totals);
      }
    }
  }

  lemma HydratedIsSame(t: Totals)
    ensures Neutral(t) ==> SameTotals(HydrateLegacy(t), t)
  {
    HydrationIsNeutral(t);
  }

  lemma SavedIsSame(t: Totals, last: Totals)
    requires Neutral(t)
    ensures SameTotals(t, last) ==> SameTotals(HydrateLegacy(t), last)
  {
    hide HydrateLegacy;
    HydratedIsSame(t);
    if SameTotals(t, last) {
      forall k
        ensures Lookup(HydrateLegacy(t).raw, k) == Lookup(last.raw, k)
      {
        assert Lookup(HydrateLegacy(t).raw, k) == Lookup(t.raw, k) && Lookup(t.raw, k) == Lookup(last.raw, k);
      }
    }
  }

  function FollowAll(i: Stream, actions: seq<Action>): Stream
    decreases |actions|
  {
    if actions == [] then i else FollowAll(Follow(i, actions[0]), actions[1..])
  }

  /** After every clean run, with restarts, crashes and demo data anywhere, real numbers on
      screen are the newest response's, with its day; after a new day there is no day. */
  lemma {:induction false} RunShowsNewest(s: Live, i: Stream, actions: seq<Action>)
    requires Inv(s) && ShowsNewest(s, i) && s.day == i.day && OfferedAll(s, actions) && CleanAll(s, actions)
    ensures ShowsNewest(RunAll(s, actions), FollowAll(i, actions))
    ensures Inv(RunAll(s, actions)) && RunAll(s, actions).day == FollowAll(i, actions).day
    decreases |actions|
  {
    hide Inv, ShowsNewest, Step, Follow, Offered, Clean;
    if actions != [] {
      var a := actions[0];
      StepShowsNewest(s, i, a);
      StepKeepsInv(s, a);
      DayFollows(s, i, a);
      RunShowsNewest(Step(s, a), Follow(i, a), actions[1..]);
    }
  }

  lemma DayFollows(s: Live, i: Stream, a: Action)
    requires Inv(s) && s.day == i.day && Offered(s, a)
    ensures Step(s, a).day == Follow(i, a).day
  {
    hide Step;
    if IsStart(a) { RestartOnNumbers(s, a); } else { StepOnNumbers(s, a); }
  }

  // ----- nothing weaker would do -----

  /** Some clean run shows something else than expected. */
  ghost predicate GoesWrong(s: Live, i: Stream) {
    exists actions :: OfferedAll(s, actions) && CleanAll(s, actions)
                      && !SameReadings(Readings(s, actions), Expected(i, actions))
  }

  lemma OneStep(s: Live, i: Stream, a: Action, others: seq<Action>)
    ensures Readings(s, [a] + others)
         == ReadingAt(a, Step(s, a)) + Readings(Step(s, a), others)
    ensures Expected(i, [a] + others)
         == ExpectedAt(a, Follow(i, a)) + Expected(Follow(i, a), others)
    ensures OfferedAll(s, [a] + others) <==> Offered(s, a) && OfferedAll(Step(s, a), others)
    ensures CleanAll(s, [a] + others) <==> Clean(s, a) && CleanAll(Step(s, a), others)
  {
    hide Step, Follow, Offered, Clean, ReadingAt, ExpectedAt;
    assert ([a] + others)[1..] == others;
  }

  lemma WrongLater(s: Live, i: Stream, a: Action)
    requires Offered(s, a) && Clean(s, a) && GoesWrong(Step(s, a), Follow(i, a))
    ensures GoesWrong(s, i)
  {
    hide Step, Offered, Clean, SessionDelta, Readings, Expected, OfferedAll, CleanAll, SameReading;
    var others :| OfferedAll(Step(s, a), others) && CleanAll(Step(s, a), others)
                  && !SameReadings(Readings(Step(s, a), others), Expected(Follow(i, a), others));
    OneStep(s, i, a, others);
    var x, y := Readings(Step(s, a), others), Expected(Follow(i, a), others);
    assert [] + x == x && [] + y == y;
    if a.Probe? {
      TailDiffers(ReadingAt(a, Step(s, a))[0], x, ExpectedAt(a, Follow(i, a))[0], y);
    }
    assert !SameReadings(Readings(s, [a] + others), Expected(i, [a] + others));
  }

  lemma TailDiffers(first: Reading, x: seq<Reading>, second: Reading, y: seq<Reading>)
    ensures SameReadings([first] + x, [second] + y) ==> SameReadings(x, y) && SameReading(first, second)
  {
    hide SameReading;
    if SameReadings([first] + x, [second] + y) {
      assert SameReading(([first] + x)[0], ([second] + y)[0]);
      forall k | 0 <= k < |x|
        ensures SameReading(x[k], y[k])
      {
        assert ([first] + x)[k + 1] == x[k] && ([second] + y)[k + 1] == y[k];
      }
    }
  }

  /** Totals a response can carry, from their raw aggregates. */
  function TotalsFrom(raw: map<string, u64>): Totals {
    NO_TOTALS.(downs := Lookup(raw, "event.204"), extractions := Lookup(raw, "event.9801"),
               deaths := Lookup(raw, "event.9802"), valueBroughtIn := Lookup(raw, "event.9804"),
               lootValue := Lookup(raw, "event.9805"),
               eliminations := Lookup(raw, "event.200.target.995408715"), raw := raw)
  }

  function ResponseFrom(raw: map<string, u64>): OverlayStats {
    OverlayStats("live", "account", NO_LOOK, TotalsFrom(raw), 1, NO_COUNTERS, NO_TODAY, [])
  }

  lemma ResponseFromIsResponse(raw: map<string, u64>)
    ensures IsResponse(ResponseFrom(raw))
  {
    hide Lookup;
    AgreeingIsNeutral(TotalsFrom(raw));
  }

  /** The totals that tell two different baselines apart: in the first field that
      differs, one of the two counters is 0 and the other is not. */
  lemma BaselinesTellApart(a: Totals, b: Totals) returns (raw: map<string, u64>)
    requires !SameBase(a, b)
    ensures !SameCounters(SessionDelta(TotalsFrom(raw), a), SessionDelta(TotalsFrom(raw), b))
  {
    if a.downs != b.downs { raw := map["event.204" := Max(a.downs, b.downs)]; }
    else if a.extractions != b.extractions { raw := map["event.9801" := Max(a.extractions, b.extractions)]; }
    else if a.deaths != b.deaths { raw := map["event.9802" := Max(a.deaths, b.deaths)]; }
    else if a.lootValue != b.lootValue { raw := map["event.9805" := Max(a.lootValue, b.lootValue)]; }
    else if !SameRaw(a.raw, b.raw) {
      var k :| Lookup(a.raw, k) != Lookup(b.raw, k);
      raw := map[k := Max(Lookup(a.raw, k), Lookup(b.raw, k))];
      LookupDelta(raw, a.raw, k);
      LookupDelta(raw, b.raw, k);
    } else {
      KeysDiffer();
      raw := map["event.9804" := Max(a.valueBroughtIn, b.valueBroughtIn)];
    }
  }

  /** Different baselines show at the next response. */
  lemma WrongBaseline(s: Live, i: Stream)
    requires s.baseline.Some? && i.base.Some? && !SameBase(s.baseline.value.totals, i.base.value)
    ensures GoesWrong(s, i)
  {
    hide SessionDelta, SameCounters, SameBase, IsResponse, TotalsFrom;
    var raw := BaselinesTellApart(s.baseline.value.totals, i.base.value);
    ResponseFromIsResponse(raw);
    var a := Probe(ResponseFrom(raw), None, 0);
    StepOnNumbers(s, a);
    OneStep(s, i, a, []);
    TailDiffers(ReadingAt(a, Step(s, a))[0], [], ExpectedAt(a, Follow(i, a))[0], []);
    assert !SameReadings(Readings(s, [a] + []), Expected(i, [a] + []));
  }

  /** Counting since another time shows at the next response. */
  lemma WrongTime(s: Live, i: Stream)
    requires Inv(s) && s.baseline.Some? && i.base.Some? && s.startedAt != i.started
    ensures GoesWrong(s, i)
  {
    hide SessionDelta, SameCounters, IsResponse, TotalsFrom, CountersFit, PresetsFit, AllNeutral, SameTotals;
    ResponseFromIsResponse(map[]);
    var a := Probe(ResponseFrom(map[]), None, 0);
    StepOnNumbers(s, a);
    OneStep(s, i, a, []);
    TailDiffers(ReadingAt(a, Step(s, a))[0], [], ExpectedAt(a, Follow(i, a))[0], []);
    assert !SameReadings(Readings(s, [a] + []), Expected(i, [a] + []));
  }

  /** A baseline on one side only shows at the second response. */
  lemma WrongStart(s: Live, i: Stream)
    requires s.baseline.Some? != i.base.Some?
    ensures GoesWrong(s, i)
  {
    hide SessionDelta, SameCounters, IsResponse, OnProbe;
    var base := if s.baseline.Some? then s.baseline.value.totals else i.base.value;
    var raw := map["x" := if Lookup(base.raw, "x") == 0 then 1 else 0];
    assert Lookup(raw, "x") != Lookup(base.raw, "x");
    ResponseFromIsResponse(raw);
    var a := Probe(ResponseFrom(raw), None, 0);
    StepOnNumbers(s, a);
    WrongBaseline(Step(s, a), Follow(i, a));
    WrongLater(s, i, a);
  }

  /** Wrong totals on screen show after a reset. */
  lemma WrongTotals(s: Live, i: Stream)
    requires CanReset(s) && !SameBase(s.overlay.totals, i.last)
    ensures GoesWrong(s, i)
  {
    hide SameBase, OnReset;
    var a := Reset(0);
    StepOnNumbers(s, a);
    WrongBaseline(Step(s, a), Follow(i, a));
    WrongLater(s, i, a);
  }

  /** A wrong record on disk shows after demo data, a restart and a reset. */
  lemma WrongRow(s: Live, i: Stream)
    requires Inv(s) && s.day == i.day && !RowRelated(s, i)
    ensures GoesWrong(s, i)
  {
    hide SameBase, HydrateLegacy, Inv, Opened, DemoOverlay, Apply;
    var demo := Step(s, LoadDemo);
    StepOnNumbers(s, LoadDemo);
    StepKeepsInv(s, LoadDemo);
    var a := Restart(s.day, s.config, s.overlay.look, s.overlay.preset, 0);
    RestartOnNumbers(demo, a);
    WrongTotals(Step(demo, a), Follow(i, a));
    WrongLater(demo, i, a);
    WrongLater(s, i, LoadDemo);
  }

  /** Application and stream agree if and only if every clean run from here on shows
      what the reference expects. */
  lemma AgreementIsExact(s: Live, i: Stream)
    requires Inv(s) && s.day == i.day
    ensures Related(s, i) <==> !GoesWrong(s, i)
  {
    hide Inv, RowRelated, SameBase, SameReadings, OfferedAll, CleanAll, Readings, Expected;
    if Related(s, i) {
      forall actions | OfferedAll(s, actions) && CleanAll(s, actions)
        ensures SameReadings(Readings(s, actions), Expected(i, actions))
      {
        CountersFollowTheStream(s, i, actions);
      }
    } else if s.baseline.Some? != i.base.Some? {
      WrongStart(s, i);
    } else if s.baseline.Some? && !SameBase(s.baseline.value.totals, i.base.value) {
      WrongBaseline(s, i);
    } else if s.baseline.Some? && s.startedAt != i.started {
      WrongTime(s, i);
    } else if CanReset(s) && !SameBase(s.overlay.totals, i.last) {
      WrongTotals(s, i);
    } else {
      WrongRow(s, i);
    }
  }

  /** So a step leaves every later response right if and only if it is harmless. */
  lemma HarmIsExact(s: Live, i: Stream, a: Action)
    requires Inv(s) && Related(s, i) && Offered(s, a)
    ensures GoesWrong(Step(s, a), Follow(i, a)) <==> !Harmless(s, i, a)
  {
    hide Inv, RowRelated, SameBase, GoesWrong, Harmless, Step, Follow;
    StepKeepsInv(s, a);
    StepStaysRelated(s, i, a);
    DayFollows(s, i, a);
    AgreementIsExact(Step(s, a), Follow(i, a));
  }

  // ----- two runs that go wrong -----

  /** A response with a loot total. */
  function Loot(total: u64): Action { Probe(ResponseFrom(map["event.9805" := total]), None, 0) }

  /** The game stops while demo numbers are shown: they are saved, restored as real
      ones, and made the baseline by the next reset. */
  function DemoSaved(restart: Action): seq<Action> {
    [Loot(1_000)] + ([LoadDemo] + ([GameStopped(0)] + ([restart] + ([Reset(0)] + ([Loot(2_000)] + [])))))
  }

  /** The same without the stop. */
  function DemoNotSaved(restart: Action): seq<Action> {
    [Loot(1_000)] + ([LoadDemo] + ([restart] + ([Reset(0)] + ([Loot(2_000)] + []))))
  }

  /** A reset asked for before the demo and confirmed during it. */
  function DemoReset(): seq<Action> {
    [Loot(1_000)] + ([LoadDemo] + ([Reset(0)] + ([Loot(2_000)] + [])))
  }

  lemma LootDelta(payload: OverlayStats, base: Totals)
    ensures SessionDelta(payload.totals, base).lootValue == SatSub(payload.totals.lootValue, base.lootValue)
  {
  }

  /** What a run shows at its last response depends on the last action alone. */
  lemma LootAtTheEnd(s: Live, total: u64)
    requires s.baseline.Some?
    ensures OfferedAll(s, [Loot(total)] + []) && CleanAll(s, [Loot(total)] + [])
    ensures |Readings(s, [Loot(total)] + [])| == 1
    ensures Readings(s, [Loot(total)] + [])[0].counters.lootValue == SatSub(total, s.baseline.value.totals.lootValue)
  {
    hide IsResponse, SessionDelta, OnProbe, Lookup;
    assert Loot(total).payload.totals.lootValue == total by { LootOf(total); }
    ResponseFromIsResponse(map["event.9805" := total]);
    StepOnNumbers(s, Loot(total));
    OneStep(s, StreamOf(s), Loot(total), []);
    LootDelta(Loot(total).payload, s.baseline.value.totals);
  }

  lemma LootOf(total: u64)
    ensures ResponseFrom(map["event.9805" := total]).totals.lootValue == total
    ensures ResponseFrom(map["event.9805" := total]).statsRows == 1
    ensures ResponseFrom(map["event.9805" := total]).totals.raw != map[]
  {
    assert "event.9805" in map["event.9805" := total];
  }

  /** A start without a row, one response, and demo data on top. */
  lemma DemoState(today: Day, config: WidgetConfig, look: Look, preset: string) returns (s1: Live, s2: Live)
    ensures
      var start := Opened(None, today, config, look, preset);
      s1 == Step(start, Loot(1_000)) && s2 == Step(s1, LoadDemo)
      && Inv(start) && Inv(s1) && Inv(s2) && Offered(start, Loot(1_000)) && s2.day == today
    ensures s1.stored.Some? && s1.stored.value.overlay == s1.overlay
    ensures s1.overlay.totals.lootValue == 1_000 && s1.overlay.totals.raw != map[] && s1.overlay.statsRows == 1
    ensures s2.baseline.Some? && s2.stored == s1.stored && s2.overlay.mode == "demo"
    ensures s2.overlay.totals.lootValue == 428_750 && s2.overlay.totals.raw != map[] && s2.overlay.statsRows == 1
  {
    hide Inv, IsResponse, OnProbe, Opened, Apply, Lookup, SessionDelta;
    var start := Opened(None, today, config, look, preset);
    OpenedIsInv(None, today, config, look, preset);
    OpenedOnNumbers(None, today, config, look, preset);
    LootOf(1_000);
    ResponseFromIsResponse(map["event.9805" := 1_000]);
    s1 := Step(start, Loot(1_000));
    StepKeepsInv(start, Loot(1_000));
    StepOnNumbers(start, Loot(1_000));
    s2 := Step(s1, LoadDemo);
    StepKeepsInv(s1, LoadDemo);
    StepOnNumbers(s1, LoadDemo);
    DemoKeepsRows(s1.overlay);
    assert "event.101" in DemoOverlay(s1.overlay).totals.raw;
  }

  lemma ExpectedStep(i: Stream, a: Action, others: seq<Action>)
    ensures Expected(i, [a] + others)
         == ExpectedAt(a, Follow(i, a)) + Expected(Follow(i, a), others)
  {
    hide Follow, ExpectedAt;
    assert ([a] + others)[1..] == others;
  }

  /** The reference expects 1,000 at the end of each of these runs. */
  lemma LootExpected(i: Stream, restart: Action)
    requires i.base.None? && restart.Restart? && restart.today == i.day
    ensures |Expected(i, DemoSaved(restart))| == 2 && Expected(i, DemoSaved(restart))[1].counters.lootValue == 1_000
    ensures |Expected(i, DemoReset())| == 2 && Expected(i, DemoReset())[1].counters.lootValue == 1_000
  {
    hide Expected, SessionDelta, ResponseFrom;
    LootOf(1_000);
    LootOf(2_000);
    var i1 := Follow(i, Loot(1_000));
    var i2 := Follow(i1, Reset(0));
    var last := [Loot(2_000)] + [];
    LootDelta(Loot(2_000).payload, i2.base.value);
    NothingExpected(Follow(i2, Loot(2_000)));
    ExpectedStep(i2, Loot(2_000), []);
    var reset := [Reset(0)] + last;
    QuietStep(i1, Reset(0), last);
    QuietStep(i1, restart, reset);
    QuietStep(i1, GameStopped(0), [restart] + reset);
    QuietStep(i1, LoadDemo, [GameStopped(0)] + ([restart] + reset));
    QuietStep(i1, LoadDemo, reset);
    ExpectedStep(i, Loot(1_000), [LoadDemo] + ([GameStopped(0)] + ([restart] + reset)));
    ExpectedStep(i, Loot(1_000), [LoadDemo] + reset);
  }

  lemma QuietStep(i: Stream, a: Action, others: seq<Action>)
    requires !a.Probe?
    ensures Expected(i, [a] + others) == Expected(Follow(i, a), others)
    ensures a.Restart? && a.today == i.day ==> Follow(i, a) == i
  {
    ExpectedStep(i, a, others);
    assert [] + Expected(Follow(i, a), others) == Expected(Follow(i, a), others);
  }

  lemma NothingExpected(i: Stream)
    ensures Expected(i, []) == []
  {
  }

  /** After a restart out of demo mode and a reset, loot counts from the saved record. */
  lemma RestartAndReset(s: Live, restart: Action, loot: u64)
    requires Inv(s) && s.baseline.Some? && s.overlay.mode == "demo" && s.stored.Some?
    requires restart.Restart? && restart.today == s.day
    requires s.stored.value.overlay.totals.lootValue == loot && s.stored.value.overlay.totals.raw != map[]
    requires s.stored.value.overlay.statsRows == 1
    ensures
      var rest := [restart] + ([Reset(0)] + ([Loot(2_000)] + []));
      OfferedAll(s, rest) && CleanAll(s, rest)
      && |Readings(s, rest)| == 1 && Readings(s, rest)[0].counters.lootValue == SatSub(2_000, loot)
  {
    hide Inv, Step, Readings, OfferedAll, CleanAll, Loot, Expected, Follow;
    RestartOnNumbers(s, restart);
    var reopened := Step(s, restart);
    StepOnNumbers(reopened, Reset(0));
    var last := [Loot(2_000)] + [];
    LootAtTheEnd(Step(reopened, Reset(0)), 2_000);
    OneStep(reopened, StreamOf(s), Reset(0), last);
    OneStep(s, StreamOf(s), restart, [Reset(0)] + last);
  }

  /** The loot grew by 1,000 since the reset, and the counter shows 0: every step was
      possible, and the same run without the stop shows 1,000. */
  lemma DemoSavedGoesWrong(today: Day, config: WidgetConfig, look: Look, preset: string, now: nat)
    ensures
      var start, restart := Opened(None, today, config, look, preset), Restart(today, config, look, preset, now);
      OfferedAll(start, DemoSaved(restart))
      && |Readings(start, DemoSaved(restart))| == 2 && Readings(start, DemoSaved(restart))[1].counters.lootValue == 0
      && |Expected(StreamOf(start), DemoSaved(restart))| == 2
      && Expected(StreamOf(start), DemoSaved(restart))[1].counters.lootValue == 1_000
    ensures
      var start, restart := Opened(None, today, config, look, preset), Restart(today, config, look, preset, now);
      OfferedAll(start, DemoNotSaved(restart)) && CleanAll(start, DemoNotSaved(restart))
      && |Readings(start, DemoNotSaved(restart))| == 2 && Readings(start, DemoNotSaved(restart))[1].counters.lootValue == 1_000
  {
    hide Inv, Step, Opened, Readings, OfferedAll, CleanAll, Loot, Expected, Follow;
    var start, restart := Opened(None, today, config, look, preset), Restart(today, config, look, preset, now);
    OpenedOnNumbers(None, today, config, look, preset);
    LootExpected(StreamOf(start), restart);
    var s1, s2 := DemoState(today, config, look, preset);
    var stopped := Step(s2, GameStopped(0));
    StepKeepsInv(s2, GameStopped(0));
    StepOnNumbers(s2, GameStopped(0));
    RestartAndReset(stopped, restart, 428_750);
    RestartAndReset(s2, restart, 1_000);
    var rest := [restart] + ([Reset(0)] + ([Loot(2_000)] + []));
    OneStep(s2, StreamOf(s2), GameStopped(0), rest);
    OneStep(s1, StreamOf(s2), LoadDemo, [GameStopped(0)] + rest);
    OneStep(s1, StreamOf(s2), LoadDemo, rest);
    NowLoot(start, 1_000);
    OneStep(start, StreamOf(s2), Loot(1_000), [LoadDemo] + ([GameStopped(0)] + rest));
    OneStep(start, StreamOf(s2), Loot(1_000), [LoadDemo] + rest);
  }

  lemma NowLoot(s: Live, total: u64)
    ensures Loot(total).Probe? && !LoadDemo.Probe? && Clean(s, Loot(total))
  {
  }

  /** The other unsafe step: a reset asked for before the demo and confirmed during it
      counts from the demo numbers. */
  lemma DemoResetGoesWrong(today: Day, config: WidgetConfig, look: Look, preset: string)
    ensures
      var start := Opened(None, today, config, look, preset);
      OfferedAll(start, DemoReset())
      && |Readings(start, DemoReset())| == 2 && Readings(start, DemoReset())[1].counters.lootValue == 0
      && |Expected(StreamOf(start), DemoReset())| == 2
      && Expected(StreamOf(start), DemoReset())[1].counters.lootValue == 1_000
  {
    hide Inv, Step, Opened, Readings, OfferedAll, CleanAll, Loot, Expected, Follow;
    var start := Opened(None, today, config, look, preset);
    OpenedOnNumbers(None, today, config, look, preset);
    LootExpected(StreamOf(start), Restart(today, config, look, preset, 0));
    var s1, s2 := DemoState(today, config, look, preset);
    StepOnNumbers(s2, Reset(0));
    var last := [Loot(2_000)] + [];
    LootAtTheEnd(Step(s2, Reset(0)), 2_000);
    OneStep(s2, StreamOf(s2), Reset(0), last);
    OneStep(s1, StreamOf(s2), LoadDemo, [Reset(0)] + last);
    NowLoot(start, 1_000);
    OneStep(start, StreamOf(s2), Loot(1_000), [LoadDemo] + ([Reset(0)] + last));
  }

  // ----- restart transparency -----

  predicate IsDemo(a: Action) { a.LoadDemo? || a.ClearDemo? || a.FlipDemoBalance? }

  /** The same run in one process that never shows demo data: a restart or a crash only
      notices the day. */
  function Undisturbed(actions: seq<Action>): seq<Action> {
    if actions == [] then []
    else
      var a := actions[0];
      (if IsStart(a) then [Rollover(a.today)] else if IsDemo(a) then [] else [a]) + Undisturbed(actions[1..])
  }

  /** A process that always shows the newest totals. */
  ghost predicate Steady(s: Live, i: Stream) {
    s.day == i.day
    && (s.baseline.Some? <==> i.base.Some?)
    && (s.baseline.Some? ==>
          SameBase(s.baseline.value.totals, i.base.value) && s.startedAt == i.started && s.startedAt.Some?)
    && SameBase(s.overlay.totals, i.last)
  }

  lemma SteadyStep(s: Live, i: Stream, a: Action)
    requires Steady(s, i) && !IsStart(a) && !IsDemo(a)
    ensures Steady(Step(s, a), Follow(i, a))
    ensures SameReadings(ReadingAt(a, Step(s, a)), ExpectedAt(a, Follow(i, a)))
  {
    hide Step, SameCounters, SessionDelta;
    StepOnNumbers(s, a);
    if a.Probe? {
      if s.baseline.Some? {
        SameBaseDelta(a.payload.totals, s.baseline.value.totals, i.base.value);
      } else {
        SameCountersSelf(SessionDelta(a.payload.totals, a.payload.totals));
      }
    }
  }

  function Plain(a: Action): Action { if IsStart(a) then Rollover(a.today) else a }

  lemma FirstUndisturbed(actions: seq<Action>)
    requires actions != []
    ensures Undisturbed(actions)
         == (if IsDemo(actions[0]) then [] else [Plain(actions[0])]) + Undisturbed(actions[1..])
  {
  }

  lemma PlainFollows(i: Stream, a: Action)
    requires !IsDemo(a)
    ensures Follow(i, Plain(a)) == Follow(i, a) && !IsStart(Plain(a)) && !IsDemo(Plain(a))
    ensures Plain(a).Probe? == a.Probe? && (a.Probe? ==> Plain(a) == a)
  {
  }

  lemma SameExpected(i: Stream, a: Action)
    requires !IsDemo(a)
    ensures ExpectedAt(Plain(a), Follow(i, a)) == ExpectedAt(a, Follow(i, a))
  {
  }

  lemma {:induction false} UndisturbedFollows(s: Live, i: Stream, actions: seq<Action>)
    requires Steady(s, i)
    ensures SameReadings(Readings(s, Undisturbed(actions)), Expected(i, actions))
    decreases |actions|
  {
    hide Steady, Step, SameReading, ReadingAt, ExpectedAt, Plain, Follow, Undisturbed, IsStart;
    if actions == [] {
      assert Undisturbed(actions) == [] by { NothingUndisturbed(); }
    } else {
      var a, others := actions[0], Undisturbed(actions[1..]);
      FirstUndisturbed(actions);
      if IsDemo(a) {
        assert [] + others == others;
        DemoIsNothing(i, a);
        assert [] + Expected(i, actions[1..]) == Expected(i, actions[1..]);
        UndisturbedFollows(s, i, actions[1..]);
      } else {
        PlainFollows(i, a);
        SameExpected(i, a);
        SteadyStep(s, i, Plain(a));
        OneStep(s, i, Plain(a), others);
        UndisturbedFollows(Step(s, Plain(a)), Follow(i, a), actions[1..]);
      }
    }
  }

  lemma NothingUndisturbed()
    ensures Undisturbed([]) == []
  {
  }

  lemma DemoIsNothing(i: Stream, a: Action)
    requires IsDemo(a)
    ensures Follow(i, a) == i && ExpectedAt(a, i) == []
  {
  }

  lemma SameCountersVia(a: Counters, b: Counters, c: Counters)
    requires SameCounters(a, c) && SameCounters(b, c)
    ensures SameCounters(a, b)
  {
    forall k
      ensures Lookup(a.raw, k) == Lookup(b.raw, k)
    {
      assert Lookup(a.raw, k) == Lookup(c.raw, k) && Lookup(b.raw, k) == Lookup(c.raw, k);
    }
  }

  lemma SameReadingsVia(a: seq<Reading>, b: seq<Reading>, c: seq<Reading>)
    requires SameReadings(a, c) && SameReadings(b, c)
    ensures SameReadings(a, b)
  {
    hide SameCounters;
    forall i | 0 <= i < |a|
      ensures SameReading(a[i], b[i])
    {
      assert SameReading(a[i], c[i]) && SameReading(b[i], c[i]);
      SameCountersVia(a[i].counters, b[i].counters, c[i].counters);
    }
  }

  lemma StartShowsNewest(s: Live)
    requires s.baseline.Some? ==>
      s.stored.Some? && s.overlay.totals == HydrateLegacy(s.stored.value.overlay.totals)
      && s.overlay.statsRows == s.stored.value.overlay.statsRows && s.overlay.today == s.stored.value.overlay.today
    ensures ShowsNewest(s, StreamOf(s))
  {
    hide SameTotals, HydrateLegacy;
    SameTotalsSelf(s.overlay.totals);
  }

  lemma StartsRelated(s: Live)
    requires Inv(s) && s.overlay.mode == "live"
    requires s.baseline.Some? ==> s.overlay.totals == HydrateLegacy(s.stored.value.overlay.totals)
    ensures Related(s, StreamOf(s)) && Steady(s, StreamOf(s))
  {
    hide CountersFit, PresetsFit;
  }

  /** Restart transparency, from a start over any stored row: with restarts,
      crashes and demo data inserted anywhere, every game response shows the counters of the run
      without them, and those the reference expects. */
  lemma RestartsAreInvisible(stored: Option<Persisted>, today: Day, config: WidgetConfig, look: Look,
                             preset: string, actions: seq<Action>)
    requires NotAhead(stored, today)
    requires var start := Opened(stored, today, config, look, preset);
             OfferedAll(start, actions) && CleanAll(start, actions)
    ensures
      var start := Opened(stored, today, config, look, preset);
      SameReadings(Readings(start, actions), Expected(StreamOf(start), actions))
      && SameReadings(Readings(start, actions), Readings(start, Undisturbed(actions)))
      && ShowsNewest(RunAll(start, actions), FollowAll(StreamOf(start), actions))
  {
    hide ShowsNewest, RunAll, FollowAll;
    hide Inv, Related, Steady, Readings, Expected, SameReadings, Undisturbed, OfferedAll, CleanAll, Opened;
    var start := Opened(stored, today, config, look, preset);
    OpenedIsInv(stored, today, config, look, preset);
    OpenedOnNumbers(stored, today, config, look, preset);
    StartsRelated(start);
    CountersFollowTheStream(start, StreamOf(start), actions);
    UndisturbedFollows(start, StreamOf(start), actions);
    StartShowsNewest(start);
    RunShowsNewest(start, StreamOf(start), actions);
    SameReadingsVia(Readings(start, actions), Readings(start, Undisturbed(actions)),
                    Expected(StreamOf(start), actions));
  }

  lemma OpenedOnNumbers(stored: Option<Persisted>, today: Day, config: WidgetConfig, look: Look, preset: string)
    ensures
      var start := Opened(stored, today, config, look, preset);
      start.overlay.mode == "live" && start.day == today && start.stored == stored
      && (start.baseline.Some? <==> IsOfDay(stored, today))
      && (start.baseline.Some? ==>
            start.overlay.totals == HydrateLegacy(stored.value.overlay.totals)
            && start.overlay.statsRows == stored.value.overlay.statsRows
            && start.overlay.today == stored.value.overlay.today)
      && (start.baseline.None? ==> start.overlay.statsRows == 0)
  {
    hide ResolveAll, SessionDelta, HydrateLegacy;
  }
}
