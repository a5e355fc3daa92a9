/** The stream session as a state machine on values: what is shown, what is
    remembered, and what is on disk. */
module Session {
  import opened Basics
  import opened Overlay
  import opened Stats
  import opened Text
  import opened Widgets
  import opened Storage

  datatype Live = Live(
    overlay: OverlayStats,
    baseline: Option<OverlayStats>,
    day: Day,
    startedAt: Option<nat>,
    config: WidgetConfig,
    stored: Option<Persisted>)

  datatype Action =
    | Probe(payload: OverlayStats, config: Option<WidgetConfig>, now: nat)
    | Reset(now: nat)
    | Rollover(today: Day)
    | GameStopped(now: nat)
    | LoadDemo
    | ClearDemo
    | FlipDemoBalance
    | ReloadPresets(config: Option<WidgetConfig>)
    | ReloadAll(config: Option<WidgetConfig>, newLook: Option<Look>, newPreset: string)
    | ChangeLook(look: Look)
    | SelectPreset(id: string)
    | Restart(today: Day, onDisk: WidgetConfig, look: Look, preset: string, now: nat)
    | Crash(today: Day, onDisk: WidgetConfig, look: Look, preset: string)

  // ----- the steps -----

  function LimitLook(look: Look): Look {
    look.(opacity := Min(look.opacity, 100), backgroundBlur := Min(look.backgroundBlur, 20))
  }

  /** The look carried over to a game response; any language but English is Russian. */
  function CarryLook(look: Look): Look {
    LimitLook(look).(language := if look.language == "en" then "en" else "ru")
  }

  function Contains(config: WidgetConfig, id: string): bool {
    exists p :: p in config.presets && p.id == id
  }

  /** Without a baseline there is nothing to save. */
  function Persist(s: Live, overlay: OverlayStats, now: nat): Live {
    if s.baseline.None? then s
    else
      var started := s.startedAt.GetOr(now);
      s.(startedAt := Some(started),
         stored := Some(Persisted(STREAM_SESSION_SCHEMA_VERSION, s.day, started, now,
                                  s.baseline.value, overlay)))
  }

  function OnProbe(s: Live, payload: OverlayStats, config: Option<WidgetConfig>, now: nat): Live {
    var first := s.baseline.None?;
    var base := s.baseline.GetOr(payload);
    var counted := ApplySessionBaseline(payload, base);
    var current := config.GetOr(s.config);
    var shown := Apply(current, counted.(preset := s.overlay.preset)).(look := CarryLook(s.overlay.look));
    Persist(s.(overlay := shown, baseline := Some(base), config := current,
               startedAt := if first then Some(now) else s.startedAt),
            shown, now)
  }

  function OnReset(s: Live, now: nat): Live {
    var shown := Apply(s.config, s.overlay.(mode := "live", session := NO_COUNTERS));
    Persist(s.(overlay := shown, baseline := Some(s.overlay), startedAt := Some(now)), shown, now)
  }

  function OnRollover(s: Live, today: Day): Live {
    if today == s.day then s
    else
      s.(day := today, baseline := None, startedAt := None,
         overlay := Apply(s.config, s.overlay.(session := NO_COUNTERS, today := NO_TODAY)))
  }

  function DemoOverlay(o: OverlayStats): OverlayStats {
    o.(mode := "demo",
       totals := o.totals.(eliminations := 24, downs := 24, raiderDamage := 28_640, lootValue := 428_750,
                           raw := o.totals.raw["event.200.target.995408715" := 24]["event.101" := 28_640]),
       session := Counters(6, 3, 2, 128_400, -56_100,
                           o.session.raw["event.200.target.995408715" := 6]["event.101" := 55_600]
                                        ["event.101.target.995408715" := 18_700]
                                        ["event.101.target.200993951" := 900]),
       today := o.today.(extractions := 5, deaths := 3, available := true))
  }

  function EmptyOverlay(preset: string, look: Look): OverlayStats {
    OverlayStats("live", preset, look, NO_TOTALS, 0, NO_COUNTERS, NO_TODAY, [])
  }

  function OnFlip(s: Live): Live {
    var money := if s.overlay.session.moneyDelta < 0 then 72_300 else -56_100;
    s.(overlay := Apply(s.config, s.overlay.(session := s.overlay.session.(moneyDelta := money))))
  }

  function OnReloadAll(s: Live, config: Option<WidgetConfig>, look: Option<Look>, preset: string): Live {
    var dressed :=
      match look
      case None => s.overlay
      case Some(l) => s.overlay.(look := LimitLook(l),
                                 preset := if Contains(s.config, preset) then preset else s.overlay.preset);
    var current := config.GetOr(s.config);
    s.(config := current, overlay := Apply(current, dressed))
  }

  /** A row that can be restored on this day; one of another schema is as good as none. */
  predicate IsOfDay(stored: Option<Persisted>, day: Day) {
    stored.Some? && stored.value.schemaVersion == STREAM_SESSION_SCHEMA_VERSION && stored.value.day == day
  }

  /** No row that can be restored is from a later day. */
  predicate NotAhead(stored: Option<Persisted>, day: Day) {
    stored.Some? && stored.value.schemaVersion == STREAM_SESSION_SCHEMA_VERSION ==> stored.value.day <= day
  }

  /** What a process finds when it starts. */
  function Opened(stored: Option<Persisted>, today: Day, config: WidgetConfig, look: Look, preset: string): Live {
    var blank := Apply(config, EmptyOverlay(preset, look));
    if IsOfDay(stored, today) then
      var row := stored.value;
      var base := row.baseline.(totals := HydrateLegacy(row.baseline.totals));
      var counted := ApplySessionBaseline(row.overlay.(totals := HydrateLegacy(row.overlay.totals)), base);
      var shown := Apply(config, counted).(mode := "live", preset := blank.preset, look := blank.look);
      Live(shown, Some(base), today, Some(row.startedAt), config, stored)
    else Live(blank, None, today, None, config, stored)
  }

  /** What a process saves when it ends. */
  function Closed(s: Live, now: nat): Live {
    if s.overlay.mode != "demo" then Persist(s, s.overlay, now) else s
  }

  function Step(s: Live, a: Action): Live {
    match a
    case Probe(payload, config, now) => OnProbe(s, payload, config, now)
    case Reset(now) => OnReset(s, now)
    case Rollover(today) => OnRollover(s, today)
    case GameStopped(now) => Persist(s, s.overlay, now)
    case LoadDemo => s.(overlay := Apply(s.config, DemoOverlay(s.overlay)))
    case ClearDemo => s.(overlay := Apply(s.config, EmptyOverlay(s.overlay.preset, s.overlay.look)))
    case FlipDemoBalance => OnFlip(s)
    case ReloadPresets(config) =>
      (match config
       case None => s
       case Some(c) => s.(config := c, overlay := Apply(c, s.overlay)))
    case ReloadAll(config, look, preset) => OnReloadAll(s, config, look, preset)
    case ChangeLook(look) => s.(overlay := s.overlay.(look := LimitLook(look)))
    case SelectPreset(id) => if Contains(s.config, id) then s.(overlay := s.overlay.(preset := id)) else s
    case Restart(today, config, look, preset, now) => Opened(Closed(s, now).stored, today, config, look, preset)
    // a process that ended without being closed leaves the row as it was
    case Crash(today, config, look, preset) => Opened(s.stored, today, config, look, preset)
  }

  // ----- when they happen -----

  /** Payloads come from the normaliser, days never go back, and the demo balance
      is flipped only in demo mode. A reset can be confirmed at any time once it was
      asked for, in demo mode too. */
  predicate Offered(s: Live, a: Action) {
    match a
    case Probe(payload, _, _) => IsResponse(payload)
    case Rollover(today) => today >= s.day
    case FlipDemoBalance => s.overlay.mode == "demo"
    case Restart(today, _, _, _, _) => today >= s.day
    case Crash(today, _, _, _) => today >= s.day
    case _ => true
  }

  // ----- the invariant -----

  /** In live mode with a baseline, the counters are the delta of the totals. */
  ghost predicate CountersFit(s: Live) {
    s.overlay.mode == "live" && s.baseline.Some? ==>
      SameCounters(s.overlay.session, SessionDelta(s.overlay.totals, s.baseline.value.totals))
  }

  /** The published presets are the current formulas on the current numbers. */
  predicate PresetsFit(s: Live) { s.overlay.presets == ResolveAll(s.config, s.overlay) }

  /** There is a baseline exactly when the row on disk is for the current day, and
      then it is what restoring that row would give. */
  ghost predicate DiskFits(s: Live) {
    NotAhead(s.stored, s.day)
    && (s.baseline.Some? <==> IsOfDay(s.stored, s.day))
    && (s.baseline.Some? ==>
          SameTotals(HydrateLegacy(s.stored.value.baseline.totals), s.baseline.value.totals))
    && s.startedAt == if s.baseline.Some? then Some(s.stored.value.startedAt) else None
  }

  /** No record in memory has numbers without their aggregates. */
  predicate AllNeutral(s: Live) {
    Neutral(s.overlay.totals) && (s.baseline.Some? ==> Neutral(s.baseline.value.totals))
  }

  ghost predicate Inv(s: Live) {
    (s.overlay.mode == "live" || s.overlay.mode == "demo")
    && CountersFit(s) && PresetsFit(s) && DiskFits(s) && AllNeutral(s)
  }

  lemma ApplyFits(config: WidgetConfig, o: OverlayStats)
    ensures
      var after := Apply(config, o);
      after.presets == ResolveAll(config, after)
      && after == o.(preset := after.preset, presets := after.presets)
  {
    hide ResolveAll;
    PresetsFollowTheNumbers(config, o, Apply(config, o));
  }

  lemma SameTotalsSelf(t: Totals)
    ensures SameTotals(t, t) && SameCounters(SessionDelta(t, t), SessionDelta(t, t))
  {
  }

  lemma ProbeKeepsInv(s: Live, payload: OverlayStats, config: Option<WidgetConfig>, now: nat)
    requires Inv(s) && IsResponse(payload)
    ensures Inv(OnProbe(s, payload, config, now))
  {
    hide SessionDelta, ResolveAll, Apply, SameTotals, Neutral, Agree, HydrateLegacy;
    var base := s.baseline.GetOr(payload);
    var counted := ApplySessionBaseline(payload, base);
    var current := config.GetOr(s.config);
    var dressed := counted.(preset := s.overlay.preset);
    ApplyFits(current, dressed);
    SameTotalsSelf(base.totals);
    HydrationIsNeutral(base.totals);
    var shown := Apply(current, dressed);
    PresetsFollowTheNumbers(current, shown, shown.(look := CarryLook(s.overlay.look)));
  }

  lemma ResetKeepsInv(s: Live, now: nat)
    requires Inv(s)
    ensures Inv(OnReset(s, now))
  {
    hide SessionDelta, ResolveAll, Apply, SameTotals, Neutral, HydrateLegacy;
    var dressed := s.overlay.(mode := "live", session := NO_COUNTERS);
    ApplyFits(s.config, dressed);
    DeltaFromSelf(s.overlay.totals);
    HydrationIsNeutral(s.overlay.totals);
  }

  lemma RolloverKeepsInv(s: Live, today: Day)
    requires Inv(s) && today >= s.day
    ensures Inv(OnRollover(s, today))
  {
    hide SessionDelta, ResolveAll, Apply, SameTotals, Neutral;
    ApplyFits(s.config, s.overlay.(session := NO_COUNTERS, today := NO_TODAY));
  }

  lemma PersistKeepsInv(s: Live, now: nat)
    requires Inv(s)
    ensures Inv(Persist(s, s.overlay, now))
  {
    hide SessionDelta, ResolveAll, SameTotals, Neutral, HydrateLegacy;
    if s.baseline.Some? { HydrationIsNeutral(s.baseline.value.totals); }
  }

  lemma DemoKeepsInv(s: Live)
    requires Inv(s)
    ensures Inv(Step(s, LoadDemo)) && Inv(Step(s, ClearDemo))
    ensures s.overlay.mode == "demo" ==> Inv(Step(s, FlipDemoBalance))
  {
    hide SessionDelta, ResolveAll, Apply, SameTotals;
    ApplyFits(s.config, DemoOverlay(s.overlay));
    ApplyFits(s.config, EmptyOverlay(s.overlay.preset, s.overlay.look));
    var money := if s.overlay.session.moneyDelta < 0 then 72_300 else -56_100;
    ApplyFits(s.config, s.overlay.(session := s.overlay.session.(moneyDelta := money)));
    if s.baseline.Some? { DeltaOfNothing(s.baseline.value.totals); }
    assert "event.101" in DemoOverlay(s.overlay).totals.raw;
  }

  lemma SettingsKeepInv(s: Live, a: Action)
    requires Inv(s) && (a.ReloadPresets? || a.ReloadAll? || a.ChangeLook? || a.SelectPreset?)
    ensures Inv(Step(s, a))
  {
    hide SessionDelta, ResolveAll, Apply, SameTotals, Neutral;
    match a
    case ReloadPresets(config) =>
      if config.Some? { ApplyFits(config.value, s.overlay); }
    case ReloadAll(config, look, preset) =>
      var dressed :=
        match look
        case None => s.overlay
        case Some(l) => s.overlay.(look := LimitLook(l),
                                   preset := if Contains(s.config, preset) then preset else s.overlay.preset);
      ApplyFits(config.GetOr(s.config), dressed);
    case ChangeLook(look) =>
      PresetsFollowTheNumbers(s.config, s.overlay, s.overlay.(look := LimitLook(look)));
    case SelectPreset(id) =>
      PresetsFollowTheNumbers(s.config, s.overlay, s.overlay.(preset := id));
  }

  lemma HydratedIsNeutral(t: Totals)
    ensures Neutral(HydrateLegacy(t))
  {
    if t.raw == map[] {
      assert "event.204" in HydrateLegacy(t).raw;
    }
  }

  lemma OpenedIsInv(stored: Option<Persisted>, today: Day, config: WidgetConfig, look: Look, preset: string)
    requires NotAhead(stored, today)
    ensures Inv(Opened(stored, today, config, look, preset))
  {
    hide SessionDelta, ResolveAll, Apply, HydrateLegacy, SameTotals, Neutral;
    ApplyFits(config, EmptyOverlay(preset, look));
    assert Neutral(NO_TOTALS) by { EmptyIsNeutral(); }
    if IsOfDay(stored, today) {
      var row := stored.value;
      var base := row.baseline.(totals := HydrateLegacy(row.baseline.totals));
      var counted := ApplySessionBaseline(row.overlay.(totals := HydrateLegacy(row.overlay.totals)), base);
      ApplyFits(config, counted);
      HydratedIsNeutral(row.overlay.totals);
      HydratedIsNeutral(row.baseline.totals);
      var shown := Apply(config, counted);
      PresetsFollowTheNumbers(config, shown, Opened(stored, today, config, look, preset).overlay);
      SameTotalsSelf(base.totals);
      SameCountersSelf(counted.session);
    }
  }

  lemma EmptyIsNeutral()
    ensures Neutral(NO_TOTALS)
  {
  }

  lemma SameCountersSelf(c: Counters)
    ensures SameCounters(c, c)
  {
  }

  /** Every step keeps what is shown, what is remembered and what is on disk in
      agreement. */
  lemma StepKeepsInv(s: Live, a: Action)
    requires Inv(s) && Offered(s, a)
    ensures Inv(Step(s, a))
  {
    hide Inv, OnProbe, OnReset, OnRollover, OnReloadAll, OnFlip, Opened;
    match a
    case Probe(payload, config, now) => ProbeKeepsInv(s, payload, config, now);
    case Reset(now) => ResetKeepsInv(s, now);
    case Rollover(today) => RolloverKeepsInv(s, today);
    case GameStopped(now) => PersistKeepsInv(s, now);
    case Restart(today, config, look, preset, now) =>
      PersistKeepsInv(s, now);
      NotAheadLater(Closed(s, now), today);
      OpenedIsInv(Closed(s, now).stored, today, config, look, preset);
    case Crash(today, config, look, preset) =>
      NotAheadLater(s, today);
      OpenedIsInv(s.stored, today, config, look, preset);
    case _ =>
      if a.LoadDemo? || a.ClearDemo? || a.FlipDemoBalance? { DemoKeepsInv(s); }
      else { SettingsKeepInv(s, a); }
  }

  lemma NotAheadLater(s: Live, today: Day)
    requires Inv(s) && s.day <= today
    ensures NotAhead(s.stored, today)
  {
  }

  // ----- what each step shows and saves -----

  /** After a response the record shown is the response's own, in mode, totals, rows and
      day; the counters are the delta from the baseline, the presets those of the current
      configuration, the selection the old one if it is still offered, and the look the
      old one within its limits. That record is saved. */
  lemma ProbeShows(s: Live, payload: OverlayStats, config: Option<WidgetConfig>, now: nat)
    ensures
      var after := OnProbe(s, payload, config, now);
      var o, look := after.overlay, s.overlay.look;
      var base := if s.baseline.Some? then s.baseline.value else payload;
      o.mode == payload.mode && o.totals == payload.totals && o.statsRows == payload.statsRows
      && o.today == payload.today && o.session == SessionDelta(payload.totals, base.totals)
      && after.config == (if config.Some? then config.value else s.config)
      && o.presets == ResolveAll(after.config, o)
      && (Offers(o.presets, s.overlay.preset) ==> o.preset == s.overlay.preset)
      && (!Offers(o.presets, s.overlay.preset) && o.presets != [] ==> o.preset == o.presets[0].id)
      && o.look == look.(language := if look.language == "en" then "en" else "ru",
                         opacity := Min(look.opacity, 100), backgroundBlur := Min(look.backgroundBlur, 20))
      && after.baseline == Some(base) && after.day == s.day && after.startedAt.Some?
      && (s.baseline.None? ==> after.startedAt == Some(now))
      && (s.baseline.Some? && s.startedAt.Some? ==> after.startedAt == s.startedAt)
      && after.stored == Some(Persisted(2, s.day, after.startedAt.value, now, base, o))
  {
    hide SessionDelta, ResolveAll;
    var base := s.baseline.GetOr(payload);
    var dressed := ApplySessionBaseline(payload, base).(preset := s.overlay.preset);
    var current := config.GetOr(s.config);
    ApplyFits(current, dressed);
    var shown := Apply(current, dressed);
    PresetsFollowTheNumbers(current, shown, shown.(look := CarryLook(s.overlay.look)));
  }

  /** A reset counts from what is shown, and shows it with every counter at 0. */
  lemma ResetShows(s: Live, now: nat)
    ensures
      var after := OnReset(s, now);
      var o := after.overlay;
      o.mode == "live" && o.totals == s.overlay.totals && o.statsRows == s.overlay.statsRows
      && o.today == s.overlay.today && o.look == s.overlay.look && o.session == Counters(0, 0, 0, 0, 0, map[])
      && after.baseline == Some(s.overlay) && after.day == s.day && after.startedAt == Some(now)
      && after.stored == Some(Persisted(2, s.day, now, now, s.overlay, o))
  {
    hide ResolveAll;
  }

  /** A new day starts blank, noticed while running or by a new process. */
  lemma NewDayIsBlank(s: Live, a: Action)
    requires Inv(s) && Offered(s, a)
    requires (a.Rollover? || a.Restart? || a.Crash?) && a.today != s.day
    ensures
      var after := Step(s, a);
      after.day == a.today && after.baseline == None && after.startedAt == None
      && after.overlay.session == Counters(0, 0, 0, 0, 0, map[])
      && after.overlay.today == Today(0, 0, false, map[])
      && (a.Rollover? ==> after.overlay.totals == s.overlay.totals && after.overlay.statsRows == s.overlay.statsRows)
  {
    hide ResolveAll, CountersFit, PresetsFit, AllNeutral, SameTotals;
  }

  /** The look a process starts with and the user chooses is kept by everything else, and
      stays within its limits. */
  lemma LookIsKept(s: Live, a: Action)
    ensures
      var look := Step(s, a).overlay.look;
      match a
      case Probe(_, _, _) => look == CarryLook(s.overlay.look)
      case ReloadAll(_, newLook, _) =>
        look == if newLook.Some? then LimitLook(newLook.value) else s.overlay.look
      case ChangeLook(newLook) => look == LimitLook(newLook)
      case Restart(_, _, newLook, _, _) => look == newLook
      case Crash(_, _, newLook, _) => look == newLook
      case _ => look == s.overlay.look
    ensures a.Probe? || a.ChangeLook? ==> Step(s, a).overlay.look.opacity <= 100 && Step(s, a).overlay.look.backgroundBlur <= 20
  {
    hide ResolveAll, SessionDelta, DemoOverlay, HydrateLegacy;
    assert DemoOverlay(s.overlay).look == s.overlay.look by { DemoKeepsLook(s.overlay); }
  }

  /** A start over today's row shows the row's own record, filled in, with the counters it
      had; any other start shows nothing. The selection is the given one if offered. */
  lemma OpenedShows(stored: Option<Persisted>, today: Day, config: WidgetConfig, look: Look, preset: string)
    ensures
      var after := Opened(stored, today, config, look, preset);
      var o := after.overlay;
      o.mode == "live" && o.look == look && after.config == config && after.day == today && after.stored == stored
      && o.presets == ResolveAll(config, o)
      && (Offers(o.presets, preset) ==> o.preset == preset)
      && (!Offers(o.presets, preset) && o.presets != [] ==> o.preset == o.presets[0].id)
      && if IsOfDay(stored, today) then
           var row := stored.value;
           after.startedAt == Some(row.startedAt) && after.baseline.Some?
           && after.baseline.value == row.baseline.(totals := HydrateLegacy(row.baseline.totals))
           && o.totals == HydrateLegacy(row.overlay.totals) && o.statsRows == row.overlay.statsRows
           && o.today == row.overlay.today && o.session == SessionDelta(o.totals, after.baseline.value.totals)
         else
           after.startedAt == None && after.baseline == None && o.totals == NO_TOTALS && o.statsRows == 0
           && o.session == Counters(0, 0, 0, 0, 0, map[]) && o.today == Today(0, 0, false, map[])
  {
    hide SessionDelta, HydrateLegacy, ResolveAll, Offers;
    var blank := EmptyOverlay(preset, look);
    ApplyFits(config, blank);
    SelectionOfApply(config, blank);
    if IsOfDay(stored, today) {
      var row := stored.value;
      var base := row.baseline.(totals := HydrateLegacy(row.baseline.totals));
      var counted := ApplySessionBaseline(row.overlay.(totals := HydrateLegacy(row.overlay.totals)), base);
      ApplyFits(config, counted);
      var shown := Apply(config, counted);
      var o := Opened(stored, today, config, look, preset).overlay;
      PresetsFollowTheNumbers(config, shown, o);
      SameIds(config, counted, blank, preset);
    }
  }

  lemma SelectionOfApply(config: WidgetConfig, o: OverlayStats)
    ensures
      var after := Apply(config, o);
      (Offers(after.presets, o.preset) ==> after.preset == o.preset)
      && (!Offers(after.presets, o.preset) && after.presets != [] ==> after.preset == after.presets[0].id)
  {
    hide ResolveAll;
  }

  /** Which presets are offered depends on the configuration alone. */
  lemma SameIds(config: WidgetConfig, a: OverlayStats, b: OverlayStats, id: string)
    ensures Offers(ResolveAll(config, a), id) <==> Offers(ResolveAll(config, b), id)
    ensures config.presets != [] ==> ResolveAll(config, a)[0].id == ResolveAll(config, b)[0].id
  {
    hide ResolveAll, Offers;
    OfferedIds(config, a, id);
    OfferedIds(config, b, id);
  }

  lemma OfferedIds(config: WidgetConfig, o: OverlayStats, id: string)
    ensures Offers(ResolveAll(config, o), id)
       <==> exists i :: 0 <= i < |config.presets| && Trim(config.presets[i].id) == id
    ensures config.presets != [] ==>
      ResolveAll(config, o) != [] && ResolveAll(config, o)[0].id == Trim(config.presets[0].id)
  {
    hide Trim, ResolveCell;
    var shown := ResolveAll(config, o);
    forall i | 0 <= i < |shown|
      ensures shown[i].id == Trim(config.presets[i].id) && shown[i] in shown
    {
    }
    assert Offers(shown, id) ==> exists i :: 0 <= i < |shown| && shown[i].id == id;
  }

  /** A preset is selected exactly when the configuration has it, by the id as it is written
      there; nothing else changes. */
  lemma SelectShows(s: Live, id: string)
    ensures
      var after := Step(s, SelectPreset(id));
      after == s.(overlay := s.overlay.(preset := after.overlay.preset))
      && after.overlay.preset == if exists p :: p in s.config.presets && p.id == id then id else s.overlay.preset
  {
  }

  /** Leaving the demo shows nothing, with look and selection kept. */
  lemma ClearDemoShows(s: Live)
    ensures
      var o := Step(s, ClearDemo).overlay;
      o.mode == "live" && o.look == s.overlay.look && o.totals == NO_TOTALS && o.statsRows == 0
      && o.session == Counters(0, 0, 0, 0, 0, map[]) && o.today == Today(0, 0, false, map[])
      && (Offers(o.presets, s.overlay.preset) ==> o.preset == s.overlay.preset)
  {
    hide ResolveAll, Offers;
    ApplyFits(s.config, EmptyOverlay(s.overlay.preset, s.overlay.look));
    SelectionOfApply(s.config, EmptyOverlay(s.overlay.preset, s.overlay.look));
  }

  /** Both configuration files reread: the look within its limits, the selection if the
      configuration before had it, and the presets of the one after. */
  lemma ReloadShows(s: Live, config: Option<WidgetConfig>, look: Option<Look>, preset: string)
    ensures
      var after := OnReloadAll(s, config, look, preset);
      var o, wanted := after.overlay,
        if look.Some? && (exists p :: p in s.config.presets && p.id == preset) then preset else s.overlay.preset;
      after == s.(overlay := o, config := after.config) && after.config == config.GetOr(s.config)
      && o.mode == s.overlay.mode && o.totals == s.overlay.totals && o.session == s.overlay.session
      && o.today == s.overlay.today && o.presets == ResolveAll(after.config, o)
      && (Offers(o.presets, wanted) ==> o.preset == wanted)
      && (!Offers(o.presets, wanted) && o.presets != [] ==> o.preset == o.presets[0].id)
  {
    hide ResolveAll, Offers;
    var dressed :=
      match look
      case None => s.overlay
      case Some(l) => s.overlay.(look := LimitLook(l),
                                 preset := if Contains(s.config, preset) then preset else s.overlay.preset);
    ApplyFits(config.GetOr(s.config), dressed);
    SelectionOfApply(config.GetOr(s.config), dressed);
  }

  lemma DemoKeepsLook(o: OverlayStats)
    ensures DemoOverlay(o).look == o.look && DemoOverlay(o).preset == o.preset
  {
  }

  /** The demo balance starts negative, and every flip changes its sign. */
  lemma DemoBalanceFlips(s: Live)
    ensures Step(s, LoadDemo).overlay.session.moneyDelta < 0
    ensures (Step(s, FlipDemoBalance).overlay.session.moneyDelta < 0) == (s.overlay.session.moneyDelta >= 0)
    ensures Step(Step(Step(s, LoadDemo), FlipDemoBalance), FlipDemoBalance).overlay.session.moneyDelta
         == Step(s, LoadDemo).overlay.session.moneyDelta
  {
    hide ResolveAll;
  }

  // ----- runs -----

  function RunAll(s: Live, actions: seq<Action>): Live
    decreases |actions|
  {
    if actions == [] then s else RunAll(Step(s, actions[0]), actions[1..])
  }

  predicate OfferedAll(s: Live, actions: seq<Action>)
    decreases |actions|
  {
    actions == [] || (Offered(s, actions[0]) && OfferedAll(Step(s, actions[0]), actions[1..]))
  }

  /** The session invariant holds after every run of the application. */
  lemma {:induction false} RunKeepsInv(s: Live, actions: seq<Action>)
    requires Inv(s) && OfferedAll(s, actions)
    ensures Inv(RunAll(s, actions))
    decreases |actions|
  {
    hide Inv, Step, Offered;
    if actions != [] {
      StepKeepsInv(s, actions[0]);
      RunKeepsInv(Step(s, actions[0]), actions[1..]);
    }
  }
}
