/** The application object as the source has it: fields overwritten in place, the
    database beside it. Each method is proved against its step in Session. */
module App {
  import opened Basics
  import opened Overlay
  import opened Stats
  import opened Widgets
  import opened Storage
  import opened Session

  const CACHED_EVENTS: nat := 30

  class ArcLiveApp {
    const db: Database
    var overlay: OverlayStats
    var sessionBaseline: Option<OverlayStats>
    var streamDay: Day
    var streamStartedAt: Option<nat>
    var widgetConfig: WidgetConfig
    var userEvents: seq<UserEvent>

    ghost function View(): Live
      reads this`overlay, this`sessionBaseline, this`streamDay, this`streamStartedAt, this`widgetConfig
      reads db`session
    {
      Live(overlay, sessionBaseline, streamDay, streamStartedAt, widgetConfig, db.session)
    }

    /** The list on screen is the table's newest rows of the current day. */
    ghost predicate EventsFit()
      reads this`userEvents, this`streamDay
      reads db`events, db`eventWrites, db`allEvents
      reads db`observations, db`observationWrites, db`allObservations
    {
      db.Valid() && DaysInOrder(db.events) && UpTo(db.events, streamDay)
      && userEvents == NewestOfDay(db.events, streamDay, CACHED_EVENTS)
    }

    ghost predicate Valid()
      reads this, db
    {
      EventsFit() && Inv(View())
    }

    constructor (db: Database, config: WidgetConfig, look: Look, preset: string, today: Day, now: nat)
      requires db.Valid() && DaysInOrder(db.events) && UpTo(db.events, today)
      requires NotAhead(db.session, today)
      modifies db
      ensures this.db == db && Valid()
      ensures View() == Opened(old(db.session), today, config, look, preset)
      ensures db.session == old(db.session)
    {
      hide Inv, Opened, NewestOfDay, IsCut;
      this.db := db;
      var cached := db.UserEventsForDay(today, CACHED_EVENTS);
      var saved := db.LoadStreamSession();
      var start := Opened(saved, today, config, look, preset);
      overlay, sessionBaseline, streamDay := start.overlay, start.baseline, start.day;
      streamStartedAt, widgetConfig := start.startedAt, start.config;
      userEvents := cached;
      new;
      OpenedFacts(db.session, today, config, look, preset);
      OpenedIsInv(db.session, today, config, look, preset);
      if start.baseline.Some? {
        RecordUserEvent("success", "Статистика текущего стрима восстановлена", now);
      } else if saved.Some? && saved.value.day != today {
        RecordUserEvent("info", "Начался новый день — счётчики стрима начнутся заново", now);
      }
      RecordUserEvent("info", "ARC Live запущена", now);
    }

    method RecordUserEvent(level: string, message: string, now: nat)
      requires EventsFit()
      modifies this`userEvents, db`events, db`eventWrites, db`allEvents
      ensures EventsFit()
      ensures db.allEvents == old(db.allEvents) + [UserEvent(now, streamDay, level, message)]
    {
      hide NewestOfDay, IsCut;
      var event := UserEvent(now, streamDay, level, message);
      ghost var rows := db.events;
      db.InsertUserEvent(event);
      userEvents := [event] + userEvents;
      if |userEvents| > CACHED_EVENTS {
        userEvents := userEvents[..CACHED_EVENTS];
      }
      NewEventFits(rows, old(db.eventWrites), event, old(userEvents));
    }

    method PersistStreamSession(shown: OverlayStats, now: nat)
      modifies this`streamStartedAt, db`session
      ensures View() == Persist(old(View()), shown, now)
    {
      if sessionBaseline.None? { return; }
      if streamStartedAt.None? { streamStartedAt := Some(now); }
      db.SaveStreamSession(Persisted(STREAM_SESSION_SCHEMA_VERSION, streamDay, streamStartedAt.value, now,
                                     sessionBaseline.value, shown));
    }

    method RolloverDayIfNeeded(today: Day, now: nat)
      requires Valid() && today >= streamDay
      modifies this, db
      ensures Valid() && View() == OnRollover(old(View()), today)
      ensures db.allEvents == old(db.allEvents) + if today == old(streamDay) then [] else
                [UserEvent(now, today, "info", "Начался новый день — счётчики стрима продолжат работу после синхронизации")]
      ensures db.allObservations == old(db.allObservations)
    {
      hide Inv, NewestOfDay, DaysInOrder, UpTo, Apply, IsCut;
      if today == streamDay { return; }
      ghost var s := View();
      RolloverKeepsInv(s, today);
      OrderSurvives(db.events, streamDay, today);
      streamDay := today;
      sessionBaseline := None;
      streamStartedAt := None;
      userEvents := db.UserEventsForDay(streamDay, CACHED_EVENTS);
      overlay := overlay.(session := NO_COUNTERS, today := NO_TODAY);
      overlay := Apply(widgetConfig, overlay);
      RecordUserEvent("info", "Начался новый день — счётчики стрима продолжат работу после синхронизации", now);
    }

    method StartNewStream(now: nat)
      requires Valid()
      modifies this, db
      ensures Valid() && View() == OnReset(old(View()), now)
      ensures db.allEvents == old(db.allEvents) + [UserEvent(now, streamDay, "success", "Статистика стрима сброшена — счётчики обнулены")]
      ensures db.allObservations == old(db.allObservations)
    {
      hide Inv, NewestOfDay, DaysInOrder, UpTo, Apply, IsCut;
      ResetKeepsInv(View(), now);
      var baseline := overlay;
      overlay := overlay.(mode := "live", session := NO_COUNTERS);
      overlay := Apply(widgetConfig, overlay);
      sessionBaseline := Some(baseline);
      streamStartedAt := Some(now);
      PersistStreamSession(overlay, now);
      RecordUserEvent("success", "Статистика стрима сброшена — счётчики обнулены", now);
    }

    /** `config` is what reading the widget file gave; `message` what the event log
        says about the change. */
    method ApplyProbe(payload: OverlayStats, observation: Observation, config: Option<WidgetConfig>,
                      level: string, message: string, now: nat)
      requires Valid() && IsResponse(payload)
      modifies this, db
      ensures Valid() && View() == OnProbe(old(View()), payload, config, now)
      ensures db.allEvents == old(db.allEvents) + [UserEvent(now, streamDay, level, message)]
      ensures db.allObservations == old(db.allObservations) + [observation]
    {
      hide Inv, NewestOfDay, DaysInOrder, UpTo, Apply, SessionDelta, IsCut, IsResponse;
      ProbeKeepsInv(View(), payload, config, now);
      db.InsertObservation(observation);
      var shown := payload;
      if sessionBaseline.None? {
        sessionBaseline := Some(shown);
        streamStartedAt := Some(now);
      }
      shown := ApplySessionBaseline(shown, sessionBaseline.value);
      if config.Some? { widgetConfig := config.value; }
      shown := shown.(preset := overlay.preset);
      shown := Apply(widgetConfig, shown);
      shown := shown.(look := CarryLook(overlay.look));
      overlay := shown;
      PersistStreamSession(shown, now);
      RecordUserEvent(level, message, now);
    }

    method GameStopped(now: nat)
      requires Valid()
      modifies this, db
      ensures Valid() && View() == Persist(old(View()), old(overlay), now)
      ensures db.allEvents == old(db.allEvents) + [UserEvent(now, streamDay, "info", "Игра закрыта — данные текущего стрима сохранены")]
      ensures db.allObservations == old(db.allObservations)
    {
      hide Inv, NewestOfDay, DaysInOrder, UpTo, IsCut;
      PersistKeepsInv(View(), now);
      RecordUserEvent("info", "Игра закрыта — данные текущего стрима сохранены", now);
      PersistStreamSession(overlay, now);
    }

    method LoadDemoStats()
      requires Valid()
      modifies this
      ensures Valid() && View() == Step(old(View()), LoadDemo)
    {
      hide Inv, NewestOfDay, DaysInOrder, UpTo, Apply, IsCut;
      DemoKeepsInv(View());
      overlay := Apply(widgetConfig, DemoOverlay(overlay));
    }

    method ClearDemoStats()
      requires Valid()
      modifies this
      ensures Valid() && View() == Step(old(View()), ClearDemo)
    {
      hide Inv, NewestOfDay, DaysInOrder, UpTo, Apply, IsCut;
      DemoKeepsInv(View());
      overlay := EmptyOverlay(overlay.preset, overlay.look);
      overlay := Apply(widgetConfig, overlay);
    }

    /** A rejected file leaves everything as it was. */
    method ReloadWidgetConfig(config: Option<WidgetConfig>, now: nat)
      requires Valid()
      modifies this, db
      ensures Valid() && View() == Step(old(View()), ReloadPresets(config))
      ensures db.allEvents == old(db.allEvents) + if config.None? then [] else
                [UserEvent(now, streamDay, "success", "Пресеты перечитаны из файла")]
      ensures db.allObservations == old(db.allObservations)
    {
      hide Inv, NewestOfDay, DaysInOrder, UpTo, Apply, IsCut;
      SettingsKeepInv(View(), ReloadPresets(config));
      if config.None? { return; }
      widgetConfig := config.value;
      overlay := Apply(widgetConfig, overlay);
      RecordUserEvent("success", "Пресеты перечитаны из файла", now);
    }

    /** Both configuration files reread; the presets are resolved again either way. */
    method ReloadConfiguration(config: Option<WidgetConfig>, look: Option<Look>, preset: string,
                               level: string, message: string, now: nat)
      requires Valid()
      modifies this, db
      ensures Valid() && View() == OnReloadAll(old(View()), config, look, preset)
      ensures db.allEvents == old(db.allEvents) + [UserEvent(now, streamDay, level, message)]
      ensures db.allObservations == old(db.allObservations)
    {
      hide Inv, NewestOfDay, DaysInOrder, UpTo, Apply, IsCut;
      SettingsKeepInv(View(), ReloadAll(config, look, preset));
      if look.Some? {
        overlay := overlay.(look := LimitLook(look.value));
        if Contains(widgetConfig, preset) { overlay := overlay.(preset := preset); }
      }
      if config.Some? { widgetConfig := config.value; }
      overlay := Apply(widgetConfig, overlay);
      RecordUserEvent(level, message, now);
    }

    method SelectOverlayPreset(id: string)
      requires Valid()
      modifies this`overlay
      ensures Valid() && View() == Step(old(View()), SelectPreset(id))
    {
      hide Inv, NewestOfDay, DaysInOrder, UpTo, IsCut;
      SettingsKeepInv(View(), SelectPreset(id));
      if !Contains(widgetConfig, id) { return; }
      overlay := overlay.(preset := id);
    }

    method FlipDemo()
      requires Valid() && overlay.mode == "demo"
      modifies this`overlay
      ensures Valid() && View() == OnFlip(old(View()))
    {
      hide Inv, NewestOfDay, DaysInOrder, UpTo, Apply, IsCut;
      DemoKeepsInv(View());
      var money: i64 := if overlay.session.moneyDelta < 0 then 72_300 else -56_100;
      overlay := overlay.(session := overlay.session.(moneyDelta := money));
      overlay := Apply(widgetConfig, overlay);
    }

    /** The end of the process: real numbers are saved, demo numbers are not. */
    method Close(now: nat)
      requires Valid()
      modifies this, db
      ensures EventsFit() && View() == Closed(old(View()), now)
      ensures db.allEvents == old(db.allEvents) + [UserEvent(now, streamDay, "info", "ARC Live закрыта — данные стрима сохранены")]
      ensures db.allObservations == old(db.allObservations)
    {
      hide NewestOfDay, DaysInOrder, UpTo, IsCut;
      if overlay.mode != "demo" {
        PersistStreamSession(overlay, now);
      }
      RecordUserEvent("info", "ARC Live закрыта — данные стрима сохранены", now);
    }
  }

  lemma OpenedFacts(stored: Option<Persisted>, today: Day, config: WidgetConfig, look: Look, preset: string)
    ensures
      var start := Opened(stored, today, config, look, preset);
      start.day == today && start.stored == stored
    ensures
      stored.Some? && stored.value.schemaVersion != STREAM_SESSION_SCHEMA_VERSION ==>
        Opened(stored, today, config, look, preset)
        == Opened(None, today, config, look, preset).(stored := stored)
  {
  }

  lemma OrderSurvives(rows: seq<UserEvent>, day: Day, later: Day)
    requires DaysInOrder(rows) && UpTo(rows, day) && day <= later
    ensures UpTo(rows, later)
    ensures DaysInOrder(KeepNewest(rows, MAX_USER_EVENTS)) && UpTo(KeepNewest(rows, MAX_USER_EVENTS), later)
  {
  }

  /** The cache after an event equals the table's newest rows after it, whether or
      not the table was cut. */
  lemma NewEventFits(rows: seq<UserEvent>, writes: nat, event: UserEvent, cached: seq<UserEvent>)
    requires DaysInOrder(rows) && UpTo(rows, event.day)
    requires cached == NewestOfDay(rows, event.day, CACHED_EVENTS)
    ensures
      var after := EventsAfter(rows, writes, event);
      var shown := [event] + cached;
      DaysInOrder(after) && UpTo(after, event.day)
      && NewestOfDay(after, event.day, CACHED_EVENTS)
         == if |shown| > CACHED_EVENTS then shown[..CACHED_EVENTS] else shown
  {
    hide NewestOfDay;
    NewEventGoesFirst(rows, event, CACHED_EVENTS);
    PruningKeepsTheDay(rows + [event], event.day, CACHED_EVENTS);
  }

  /** A new process over the same file: the table is cut, the day's newest stay. */
  method Restart(app: ArcLiveApp, today: Day, config: WidgetConfig, look: Look, preset: string, now: nat)
    returns (next: ArcLiveApp)
    requires app.Valid() && today >= app.streamDay
    modifies app, app.db
    ensures next.db == app.db && next.Valid()
    ensures next.View() == Step(old(app.View()), Action.Restart(today, config, look, preset, now))
  {
    hide Inv, NewestOfDay, DaysInOrder, UpTo, Opened, IsCut;
    ghost var s := app.View();
    PersistKeepsInv(s, now);
    NotAheadLater(Closed(s, now), today);
    app.Close(now);
    OrderSurvives(app.db.events, app.streamDay, today);
    app.db.Reopen();
    next := new ArcLiveApp(app.db, config, look, preset, today, now);
  }

  /** A new process after one that was not closed: the file is as it was left. */
  method StartAfterCrash(app: ArcLiveApp, today: Day, config: WidgetConfig, look: Look, preset: string, now: nat)
    returns (next: ArcLiveApp)
    requires app.Valid() && today >= app.streamDay
    modifies app.db
    ensures next.db == app.db && next.Valid()
    ensures next.View() == Step(old(app.View()), Crash(today, config, look, preset))
  {
    hide Inv, NewestOfDay, DaysInOrder, UpTo, Opened, IsCut;
    NotAheadLater(app.View(), today);
    OrderSurvives(app.db.events, app.streamDay, today);
    app.db.Reopen();
    next := new ArcLiveApp(app.db, config, look, preset, today, now);
  }
}
