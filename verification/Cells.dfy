/** What the named widget sources stand for, and every cell that is shipped. */
module Cells {
  import opened Basics
  import opened Search
  import opened Codecs
  import opened Overlay
  import opened Stats
  import opened Widgets

  // ----- names -----

  lemma AccountNames1(t: Totals, s: Counters, d: Today)
    ensures NamedSource("account", "raids", t, s, d) == t.raids
    ensures NamedSource("account", "extractions", t, s, d) == t.extractions
    ensures NamedSource("account", "eliminations", t, s, d) == t.eliminations
    ensures NamedSource("account", "deaths", t, s, d) == t.deaths
  {
  }

  lemma AccountNames2(t: Totals, s: Counters, d: Today)
    ensures NamedSource("account", "loot_value", t, s, d) == t.lootValue
    ensures NamedSource("account", "arc_eliminations", t, s, d) == t.arcEliminations
    ensures NamedSource("account", "downs", t, s, d) == t.downs
  {
  }

  lemma AccountNames3(t: Totals, s: Counters, d: Today)
    ensures NamedSource("account", "revives", t, s, d) == t.revives
    ensures NamedSource("account", "damage_by_enemy", t, s, d) == t.damageByEnemy
    ensures NamedSource("account", "damage_by_weapon", t, s, d) == t.damageByWeapon
  {
  }

  lemma AccountNames4(t: Totals, s: Counters, d: Today)
    ensures NamedSource("account", "raider_damage", t, s, d) == t.raiderDamage
    ensures NamedSource("account", "value_brought_in", t, s, d) == t.valueBroughtIn
    ensures NamedSource("account", "xp_gained", t, s, d) == t.xpGained
  {
  }

  lemma StreamNames(t: Totals, s: Counters, d: Today)
    ensures NamedSource("session", "downs", t, s, d) == s.downs
    ensures NamedSource("session", "extractions", t, s, d) == s.extractions
    ensures NamedSource("session", "deaths", t, s, d) == s.deaths
    ensures NamedSource("session", "loot_value", t, s, d) == s.lootValue
  {
  }

  lemma DayNames(t: Totals, s: Counters, d: Today)
    ensures NamedSource("today", "extractions", t, s, d) == d.extractions
    ensures NamedSource("today", "deaths", t, s, d) == d.deaths
  {
  }

  lemma OutcomeNames(t: Totals, s: Counters, d: Today)
    ensures NamedSource("outcome", "wins", t, s, d) == if UsesToday(s, d) then d.extractions else s.extractions
    ensures NamedSource("outcome", "losses", t, s, d) == if UsesToday(s, d) then d.deaths else s.deaths
  {
  }

  // ----- sources -----

  /** No name of a total starts like an aggregate. */
  predicate IsNamed(name: string) { |name| < 2 || name[0] != 'e' || name[1] != 'v' }

  lemma NotEvent(name: string)
    requires IsNamed(name)
    ensures !("event." <= name)
  {
    var event := "event.";
    assert event[0] == 'e' && event[1] == 'v';
    if |name| >= 6 && IsNamed(name) {
      assert name[..6][0] != event[0] || name[..6][1] != event[1];
    }
  }

  /** A named source with its scope in front. */
  lemma NamedIs(scope: string, name: string, source: string, o: OverlayStats)
    requires source == scope + "." + name && '.' !in scope && IsNamed(name)
    requires !(scope == "session" && name == "money_delta")
    ensures ResolveSource(source, o) == Min(NamedSource(scope, name, o.totals, o.session, o.today), I64_MAX)
  {
    hide NamedSource, Lookup;
    NotEvent(name);
    SplitIs(scope, name);
  }

  /** An aggregate with its scope in front. */
  lemma EventIs(scope: string, name: string, source: string, o: OverlayStats)
    requires source == scope + "." + name && '.' !in scope && "event." <= name
    ensures ResolveSource(source, o)
         == Min(Lookup(if scope == "session" then o.session.raw
                       else if scope == "today" then o.today.raw else o.totals.raw, name), I64_MAX)
  {
    hide NamedSource, Lookup;
    SplitIs(scope, name);
  }

  lemma SplitIs(scope: string, name: string)
    requires '.' !in scope
    ensures SplitSource(scope + "." + name) == Source(scope, name)
  {
    var source, e := scope + "." + name, |scope|;
    forall j | 0 <= j < e
      ensures !At(source, ".", j)
    {
      assert source[j] == scope[j] && scope[j] in scope;
      NotAt(source, ".", j);
    }
    assert At(source, ".", e);
    FindIs(source, ".", e);
    assert source[..e] == scope && source[e + 1..] == name;
  }

  /** Without a scope a name is the account's. */
  lemma UnscopedIs(name: string, o: OverlayStats)
    requires '.' !in name && IsNamed(name)
    ensures ResolveSource(name, o) == Min(NamedSource("account", name, o.totals, o.session, o.today), I64_MAX)
  {
    hide NamedSource, Lookup;
    NotEvent(name);
    FindNothing(name, ".");
  }

  lemma ScopesHaveNoDot()
    ensures '.' !in "account" && '.' !in "session" && '.' !in "today" && '.' !in "outcome"
  {
  }

  lemma AccountTexts1()
    ensures "account" + "." + "raids" == "account.raids" && IsNamed("raids")
    ensures "account" + "." + "extractions" == "account.extractions" && IsNamed("extractions")
    ensures "account" + "." + "eliminations" == "account.eliminations" && IsNamed("eliminations")
    ensures "account" + "." + "deaths" == "account.deaths" && IsNamed("deaths")
  {
  }

  lemma AccountSources1(o: OverlayStats)
    ensures ResolveSource("account.raids", o) == Min(o.totals.raids, I64_MAX)
    ensures ResolveSource("account.extractions", o) == Min(o.totals.extractions, I64_MAX)
    ensures ResolveSource("account.eliminations", o) == Min(o.totals.eliminations, I64_MAX)
    ensures ResolveSource("account.deaths", o) == Min(o.totals.deaths, I64_MAX)
  {
    hide ResolveSource, NamedSource;
    ScopesHaveNoDot();
    AccountTexts1();
    AccountNames1(o.totals, o.session, o.today);
    NamedIs("account", "raids", "account.raids", o);
    NamedIs("account", "extractions", "account.extractions", o);
    NamedIs("account", "eliminations", "account.eliminations", o);
    NamedIs("account", "deaths", "account.deaths", o);
  }

  lemma AccountTexts2()
    ensures "account" + "." + "loot_value" == "account.loot_value" && IsNamed("loot_value")
    ensures "account" + "." + "arc_eliminations" == "account.arc_eliminations" && IsNamed("arc_eliminations")
    ensures "account" + "." + "downs" == "account.downs" && IsNamed("downs")
  {
  }

  lemma AccountSources2(o: OverlayStats)
    ensures ResolveSource("account.loot_value", o) == Min(o.totals.lootValue, I64_MAX)
    ensures ResolveSource("account.arc_eliminations", o) == Min(o.totals.arcEliminations, I64_MAX)
    ensures ResolveSource("account.downs", o) == Min(o.totals.downs, I64_MAX)
  {
    hide ResolveSource, NamedSource;
    ScopesHaveNoDot();
    AccountTexts2();
    AccountNames2(o.totals, o.session, o.today);
    NamedIs("account", "loot_value", "account.loot_value", o);
    NamedIs("account", "arc_eliminations", "account.arc_eliminations", o);
    NamedIs("account", "downs", "account.downs", o);
  }

  lemma AccountTexts3()
    ensures "account" + "." + "revives" == "account.revives" && IsNamed("revives")
    ensures "account" + "." + "damage_by_enemy" == "account.damage_by_enemy" && IsNamed("damage_by_enemy")
    ensures "account" + "." + "damage_by_weapon" == "account.damage_by_weapon" && IsNamed("damage_by_weapon")
  {
  }

  lemma AccountSources3(o: OverlayStats)
    ensures ResolveSource("account.revives", o) == Min(o.totals.revives, I64_MAX)
    ensures ResolveSource("account.damage_by_enemy", o) == Min(o.totals.damageByEnemy, I64_MAX)
    ensures ResolveSource("account.damage_by_weapon", o) == Min(o.totals.damageByWeapon, I64_MAX)
  {
    hide ResolveSource, NamedSource;
    ScopesHaveNoDot();
    AccountTexts3();
    AccountNames3(o.totals, o.session, o.today);
    NamedIs("account", "revives", "account.revives", o);
    NamedIs("account", "damage_by_enemy", "account.damage_by_enemy", o);
    NamedIs("account", "damage_by_weapon", "account.damage_by_weapon", o);
  }

  lemma AccountTexts4()
    ensures "account" + "." + "raider_damage" == "account.raider_damage" && IsNamed("raider_damage")
    ensures "account" + "." + "value_brought_in" == "account.value_brought_in" && IsNamed("value_brought_in")
    ensures "account" + "." + "xp_gained" == "account.xp_gained" && IsNamed("xp_gained")
  {
  }

  lemma AccountSources4(o: OverlayStats)
    ensures ResolveSource("account.raider_damage", o) == Min(o.totals.raiderDamage, I64_MAX)
    ensures ResolveSource("account.value_brought_in", o) == Min(o.totals.valueBroughtIn, I64_MAX)
    ensures ResolveSource("account.xp_gained", o) == Min(o.totals.xpGained, I64_MAX)
  {
    hide ResolveSource, NamedSource;
    ScopesHaveNoDot();
    AccountTexts4();
    AccountNames4(o.totals, o.session, o.today);
    NamedIs("account", "raider_damage", "account.raider_damage", o);
    NamedIs("account", "value_brought_in", "account.value_brought_in", o);
    NamedIs("account", "xp_gained", "account.xp_gained", o);
  }

  lemma SessionIsNoMoney()
    ensures "downs" != "money_delta" && "extractions" != "money_delta" && "deaths" != "money_delta"
    ensures "loot_value" != "money_delta" && "today" != "session" && "outcome" != "session" && "account" != "session"
  {
    assert |"downs"| != |"money_delta"|;
    assert "extractions"[0] != "money_delta"[0];
    assert |"deaths"| != |"money_delta"| && |"loot_value"| != |"money_delta"|;
    assert |"today"| != |"session"|;
    assert "outcome"[0] != "session"[0] && "account"[0] != "session"[0];
  }

  lemma StreamTexts()
    ensures "session" + "." + "downs" == "session.downs" && IsNamed("downs")
    ensures "session" + "." + "extractions" == "session.extractions" && IsNamed("extractions")
    ensures "session" + "." + "deaths" == "session.deaths" && IsNamed("deaths")
    ensures "session" + "." + "loot_value" == "session.loot_value" && IsNamed("loot_value")
  {
  }

  lemma StreamSources(o: OverlayStats)
    ensures ResolveSource("session.downs", o) == Min(o.session.downs, I64_MAX)
    ensures ResolveSource("session.extractions", o) == Min(o.session.extractions, I64_MAX)
    ensures ResolveSource("session.deaths", o) == Min(o.session.deaths, I64_MAX)
    ensures ResolveSource("session.loot_value", o) == Min(o.session.lootValue, I64_MAX)
  {
    hide ResolveSource, NamedSource, UsesToday;
    ScopesHaveNoDot();
    StreamTexts();
    StreamNames(o.totals, o.session, o.today);
    SessionIsNoMoney();
    NamedIs("session", "downs", "session.downs", o);
    NamedIs("session", "extractions", "session.extractions", o);
    NamedIs("session", "deaths", "session.deaths", o);
    NamedIs("session", "loot_value", "session.loot_value", o);
  }

  lemma DayTexts()
    ensures "today" + "." + "extractions" == "today.extractions" && IsNamed("extractions")
    ensures "today" + "." + "deaths" == "today.deaths" && IsNamed("deaths")
  {
  }

  lemma DaySources(o: OverlayStats)
    ensures ResolveSource("today.extractions", o) == Min(o.today.extractions, I64_MAX)
    ensures ResolveSource("today.deaths", o) == Min(o.today.deaths, I64_MAX)
  {
    hide ResolveSource, NamedSource, UsesToday;
    ScopesHaveNoDot();
    DayTexts();
    DayNames(o.totals, o.session, o.today);
    SessionIsNoMoney();
    NamedIs("today", "extractions", "today.extractions", o);
    NamedIs("today", "deaths", "today.deaths", o);
  }

  lemma OutcomeNamedTexts()
    ensures "outcome" + "." + "wins" == "outcome.wins" && IsNamed("wins")
    ensures "outcome" + "." + "losses" == "outcome.losses" && IsNamed("losses")
  {
  }

  lemma OutcomeNamedSources(o: OverlayStats)
    ensures ResolveSource("outcome.wins", o) == Min(if UsesToday(o.session, o.today) then o.today.extractions else o.session.extractions, I64_MAX)
    ensures ResolveSource("outcome.losses", o) == Min(if UsesToday(o.session, o.today) then o.today.deaths else o.session.deaths, I64_MAX)
  {
    hide ResolveSource, NamedSource, UsesToday;
    ScopesHaveNoDot();
    OutcomeNamedTexts();
    OutcomeNames(o.totals, o.session, o.today);
    SessionIsNoMoney();
    NamedIs("outcome", "wins", "outcome.wins", o);
    NamedIs("outcome", "losses", "outcome.losses", o);
  }

  lemma MoneySource(o: OverlayStats)
    ensures ResolveSource("session.money_delta", o) == o.session.moneyDelta
  {
    hide NamedSource, Lookup;
    ScopesHaveNoDot();
    assert "session" + "." + "money_delta" == "session.money_delta";
    NotEvent("money_delta");
    SplitIs("session", "money_delta");
  }

  // ----- wins and losses -----

  /** Wins and losses are the stream's extractions and deaths once there is either, and
      until then the day's, where the game reports a day. The two are added with
      wrap-around: a sum of exactly 2^64 counts as none. */
  lemma OutcomeIsStreamThenDay(o: OverlayStats)
    ensures
      var wins, losses := ResolveSource("outcome.wins", o), ResolveSource("outcome.losses", o);
      var e, d := o.session.extractions, o.session.deaths;
      if (e > 0 || d > 0) && e + d != 0x1_0000_0000_0000_0000 then wins == Min(e, I64_MAX) && losses == Min(d, I64_MAX)
      else if o.today.available then
        wins == Min(o.today.extractions, I64_MAX) && losses == Min(o.today.deaths, I64_MAX)
      else wins == Min(e, I64_MAX) && losses == Min(d, I64_MAX)
  {
    hide ResolveSource;
    OutcomeNamedSources(o);
  }

  // ----- named sources and aggregates -----

  lemma AccountEvents1Texts()
    ensures "account" + "." + "event.204" == "account.event.204" && "event." <= "event.204"
    ensures "account" + "." + "event.9801" == "account.event.9801" && "event." <= "event.9801"
    ensures "account" + "." + "event.9802" == "account.event.9802" && "event." <= "event.9802"
  {
  }

  lemma AccountEvents1Sources(o: OverlayStats)
    ensures ResolveSource("account.event.204", o) == Min(Lookup(o.totals.raw, "event.204"), I64_MAX)
    ensures ResolveSource("account.event.9801", o) == Min(Lookup(o.totals.raw, "event.9801"), I64_MAX)
    ensures ResolveSource("account.event.9802", o) == Min(Lookup(o.totals.raw, "event.9802"), I64_MAX)
  {
    hide ResolveSource, Lookup;
    ScopesHaveNoDot();
    AccountEvents1Texts();
    SessionIsNoMoney();
    EventIs("account", "event.204", "account.event.204", o);
    EventIs("account", "event.9801", "account.event.9801", o);
    EventIs("account", "event.9802", "account.event.9802", o);
  }

  lemma AccountEvents2Texts()
    ensures "account" + "." + "event.9805" == "account.event.9805" && "event." <= "event.9805"
    ensures "account" + "." + "event.9804" == "account.event.9804" && "event." <= "event.9804"
    ensures "account" + "." + "event.200.target.995408715" == "account.event.200.target.995408715"
    ensures "event." <= "event.200.target.995408715"
  {
    KnocksText();
  }

  lemma KnocksText()
    ensures "account" + "." + "event.200.target.995408715" == "account.event.200.target.995408715"
    ensures "event." <= "event.200.target.995408715"
  {
  }

  lemma AccountEvents2Sources(o: OverlayStats)
    ensures ResolveSource("account.event.9805", o) == Min(Lookup(o.totals.raw, "event.9805"), I64_MAX)
    ensures ResolveSource("account.event.9804", o) == Min(Lookup(o.totals.raw, "event.9804"), I64_MAX)
    ensures ResolveSource("account.event.200.target.995408715", o) == Min(Lookup(o.totals.raw, "event.200.target.995408715"), I64_MAX)
  {
    hide ResolveSource, Lookup;
    ScopesHaveNoDot();
    AccountEvents2Texts();
    SessionIsNoMoney();
    EventIs("account", "event.9805", "account.event.9805", o);
    EventIs("account", "event.9804", "account.event.9804", o);
    EventIs("account", "event.200.target.995408715", "account.event.200.target.995408715", o);
  }

  lemma SessionEventsTexts()
    ensures "session" + "." + "event.204" == "session.event.204" && "event." <= "event.204"
    ensures "session" + "." + "event.9801" == "session.event.9801" && "event." <= "event.9801"
    ensures "session" + "." + "event.9802" == "session.event.9802" && "event." <= "event.9802"
    ensures "session" + "." + "event.9805" == "session.event.9805" && "event." <= "event.9805"
  {
  }

  lemma SessionEventsSources(o: OverlayStats)
    ensures ResolveSource("session.event.204", o) == Min(Lookup(o.session.raw, "event.204"), I64_MAX)
    ensures ResolveSource("session.event.9801", o) == Min(Lookup(o.session.raw, "event.9801"), I64_MAX)
    ensures ResolveSource("session.event.9802", o) == Min(Lookup(o.session.raw, "event.9802"), I64_MAX)
    ensures ResolveSource("session.event.9805", o) == Min(Lookup(o.session.raw, "event.9805"), I64_MAX)
  {
    hide ResolveSource, Lookup;
    ScopesHaveNoDot();
    SessionEventsTexts();
    SessionIsNoMoney();
    EventIs("session", "event.204", "session.event.204", o);
    EventIs("session", "event.9801", "session.event.9801", o);
    EventIs("session", "event.9802", "session.event.9802", o);
    EventIs("session", "event.9805", "session.event.9805", o);
  }

  lemma SessionKnocksTexts()
    ensures "session" + "." + "event.200.target.995408715" == "session.event.200.target.995408715" && "event." <= "event.200.target.995408715"
  {
  }

  lemma SessionKnocksSources(o: OverlayStats)
    ensures ResolveSource("session.event.200.target.995408715", o) == Min(Lookup(o.session.raw, "event.200.target.995408715"), I64_MAX)
  {
    hide ResolveSource, Lookup;
    ScopesHaveNoDot();
    SessionKnocksTexts();
    SessionIsNoMoney();
    EventIs("session", "event.200.target.995408715", "session.event.200.target.995408715", o);
  }

  lemma TodayEventsTexts()
    ensures "today" + "." + "event.9801" == "today.event.9801" && "event." <= "event.9801"
    ensures "today" + "." + "event.9802" == "today.event.9802" && "event." <= "event.9802"
  {
  }

  lemma TodayEventsSources(o: OverlayStats)
    ensures ResolveSource("today.event.9801", o) == Min(Lookup(o.today.raw, "event.9801"), I64_MAX)
    ensures ResolveSource("today.event.9802", o) == Min(Lookup(o.today.raw, "event.9802"), I64_MAX)
  {
    hide ResolveSource, Lookup;
    ScopesHaveNoDot();
    TodayEventsTexts();
    SessionIsNoMoney();
    EventIs("today", "event.9801", "today.event.9801", o);
    EventIs("today", "event.9802", "today.event.9802", o);
  }

  /** On totals that agree with their aggregates, a named source and the aggregate's own
      source show the same number. */
  lemma NamedIsAggregate(o: OverlayStats)
    requires Agree(o.totals)
    ensures ResolveSource("account.downs", o) == ResolveSource("account.event.204", o)
    ensures ResolveSource("account.extractions", o) == ResolveSource("account.event.9801", o)
    ensures ResolveSource("account.deaths", o) == ResolveSource("account.event.9802", o)
    ensures ResolveSource("account.loot_value", o) == ResolveSource("account.event.9805", o)
    ensures ResolveSource("account.value_brought_in", o) == ResolveSource("account.event.9804", o)
    ensures ResolveSource("account.eliminations", o) == ResolveSource("account.event.200.target.995408715", o)
  {
    hide ResolveSource, Lookup;
    AccountSources1(o);
    AccountSources2(o);
    AccountSources4(o);
    AccountEvents1Sources(o);
    AccountEvents2Sources(o);
  }

  /** The same for the stream's counters, when they are a delta of such totals. */
  lemma StreamNamedIsAggregate(o: OverlayStats, base: Totals)
    requires Agree(o.totals) && Agree(base) && SameCounters(o.session, SessionDelta(o.totals, base))
    ensures ResolveSource("session.downs", o) == ResolveSource("session.event.204", o)
    ensures ResolveSource("session.extractions", o) == ResolveSource("session.event.9801", o)
    ensures ResolveSource("session.deaths", o) == ResolveSource("session.event.9802", o)
    ensures ResolveSource("session.loot_value", o) == ResolveSource("session.event.9805", o)
  {
    hide ResolveSource, Lookup, Agree;
    CountersAgree(o.totals, base);
    StreamSources(o);
    SessionEventsSources(o);
    var c := SessionDelta(o.totals, base);
    assert forall k :: Lookup(o.session.raw, k) == Lookup(c.raw, k);
  }

  /** And for the day's numbers, when they are those of normalised rows. */
  lemma DayNamedIsAggregate(o: OverlayStats, rows: seq<Row>)
    requires
      var t := Normalize(rows).totals;
      o.today == Today(t.extractions, t.deaths, true, t.raw)
    ensures ResolveSource("today.extractions", o) == ResolveSource("today.event.9801", o)
    ensures ResolveSource("today.deaths", o) == ResolveSource("today.event.9802", o)
  {
    hide ResolveSource, Lookup, Normalize;
    NormalizedAgree(rows);
    DaySources(o);
    TodayEventsSources(o);
  }

  /** Each named account source is the sum of the rows it is about, up to the signed limit. */
  lemma NamedIsSumOfRows(o: OverlayStats, rows: seq<Row>)
    requires o.totals == Normalize(rows).totals
    ensures ResolveSource("account.raids", o) == Min(Sum(Raids, rows), I64_MAX)
    ensures ResolveSource("account.extractions", o) == Min(Sum(Extractions, rows), I64_MAX)
    ensures ResolveSource("account.eliminations", o) == Min(Sum(Eliminations, rows), I64_MAX)
    ensures ResolveSource("account.deaths", o) == Min(Sum(Deaths, rows), I64_MAX)
    ensures ResolveSource("account.loot_value", o) == Min(Sum(LootValue, rows), I64_MAX)
    ensures ResolveSource("account.arc_eliminations", o) == Min(Sum(ArcEliminations, rows), I64_MAX)
    ensures ResolveSource("account.downs", o) == Min(Sum(Downs, rows), I64_MAX)
    ensures ResolveSource("account.revives", o) == Min(Sum(Revives, rows), I64_MAX)
    ensures ResolveSource("account.damage_by_enemy", o) == Min(Sum(DamageByEnemy, rows), I64_MAX)
    ensures ResolveSource("account.damage_by_weapon", o) == Min(Sum(DamageByWeapon, rows), I64_MAX)
    ensures ResolveSource("account.raider_damage", o) == Min(Sum(RaiderDamage, rows), I64_MAX)
    ensures ResolveSource("account.value_brought_in", o) == Min(Sum(ValueBroughtIn, rows), I64_MAX)
    ensures ResolveSource("account.xp_gained", o) == Min(Sum(XpGained, rows), I64_MAX)
  {
    hide ResolveSource, Normalize, Sum;
    AccountSources1(o);
    AccountSources2(o);
    AccountSources3(o);
    AccountSources4(o);
    forall stat | stat in {Raids, Extractions, Eliminations, Deaths, LootValue, ArcEliminations, Downs, Revives,
                           DamageByEnemy, DamageByWeapon, RaiderDamage, ValueBroughtIn, XpGained}
      ensures Get(Normalize(rows), stat) == Min(Sum(stat, rows), U64_MAX)
    {
      TotalsAreCappedSums(rows, stat);
    }
  }

  // ----- the cells that are shipped -----

  function Signed(n: u64): i64 { Min(n, I64_MAX) }

  lemma SimpleValue(source: string, labelRu: string, labelEn: string, style: string, o: OverlayStats)
    requires style in CELL_STYLES
    ensures ResolveCell(Simple(source, labelRu, labelEn, style), o)
         == Cell(ResolveSource(source, o), labelRu, labelEn, style)
  {
    hide ResolveSource;
    StylesAreTrimmed();
    assert "" !in CELL_STYLES by { NoStyleIsEmpty(); }
  }

  lemma NoStyleIsEmpty()
    ensures "" !in CELL_STYLES
  {
  }

  lemma CellValue(m: Metric, o: OverlayStats)
    requires m.style in CELL_STYLES
    ensures ResolveCell(m, o) == Cell(Resolve(m, o), m.labelRu, m.labelEn, m.style)
  {
    hide Resolve;
    StylesAreTrimmed();
    NoStyleIsEmpty();
  }

  lemma StreamDamageValues(o: OverlayStats)
    ensures
      var all := Signed(Lookup(o.session.raw, "event.101"));
      var players := Signed(Lookup(o.session.raw, "event.101.target.995408715"));
      var others := Signed(Lookup(o.session.raw, "event.101.target.200993951"));
      Resolve(PVE_DAMAGE, o) == Clamp(all - players - others) && Resolve(PVP_DAMAGE, o) == Clamp(players + others)
  {
    hide ResolveSource, Lookup;
    SessionSources(o);
    SumOfTwo("session.event.101.target.995408715", "session.event.101.target.200993951", o);
    SumOfTwo("session.event.101.target.200993951", "session.event.101.target.200993951", o);
  }

  lemma AccountPresetShows(o: OverlayStats)
    ensures
      var damage := Signed(Lookup(o.totals.raw, "event.101"));
      var players := Signed(Lookup(o.totals.raw, "event.101.target.995408715"));
      var others := Signed(Lookup(o.totals.raw, "event.101.target.200993951"));
      ResolvePreset(ACCOUNT_PRESET, o)
      == Preset("account", "Статистика аккаунта", "Account totals",
                [Cell(Signed(Lookup(o.totals.raw, "event.200.target.995408715")), "Ноки игроков", "Player knocks", "plain"),
                 Cell(Clamp(damage - players - others), "Урон рейдерам", "Raider damage", "accent"),
                 Cell(Signed(o.totals.lootValue), "Вынесено", "Extracted value", "loot")])
  {
    hide ResolveCell, Resolve, ResolveSource, Lookup, ValidPreset;
    AccountPresetIsValid();
    SimpleValue("account.event.200.target.995408715", "Ноки игроков", "Player knocks", "plain", o);
    CellValue(ACCOUNT_DAMAGE, o);
    SimpleValue("account.loot_value", "Вынесено", "Extracted value", "loot", o);
    AccountEvents2Sources(o);
    AccountDamageValue(o);
    AccountSources2(o);
  }

  lemma SessionPresetShows(o: OverlayStats)
    ensures ResolvePreset(SESSION_PRESET, o)
         == Preset("session", "Текущий стрим", "Current stream",
                   [Cell(Signed(Lookup(o.session.raw, "event.200.target.995408715")), "Ноки за стрим", "Stream knocks", "plain"),
                    Cell(Signed(o.session.extractions), "Успешные выходы", "Successful exits", "accent"),
                    Cell(o.session.moneyDelta, "Баланс", "Balance", "balance")])
  {
    hide ResolveCell, ResolveSource, Lookup, ValidPreset;
    SessionPresetIsValid();
    SimpleValue("session.event.200.target.995408715", "Ноки за стрим", "Stream knocks", "plain", o);
    SimpleValue("session.extractions", "Успешные выходы", "Successful exits", "accent", o);
    SimpleValue("session.money_delta", "Баланс", "Balance", "balance", o);
    SessionKnocksSources(o);
    StreamSources(o);
    MoneySource(o);
  }

  /** The values of its cells are those of OutcomeIsStreamThenDay. */
  lemma OutcomePresetShows(o: OverlayStats)
    ensures ResolvePreset(OUTCOME_PRESET, o)
         == Preset("outcome", "Победы | Поражения", "Win | Lose",
                   [Cell(ResolveSource("outcome.wins", o), "Вышел живым", "Extracted alive", "accent"),
                    Cell(ResolveSource("outcome.losses", o), "Погиб", "Knocked out", "danger")])
  {
    hide ResolveCell, ResolveSource, ValidPreset;
    OutcomePresetIsValid();
    SimpleValue("outcome.wins", "Вышел живым", "Extracted alive", "accent", o);
    SimpleValue("outcome.losses", "Погиб", "Knocked out", "danger", o);
  }

  lemma PvePresetShows(o: OverlayStats)
    ensures
      var damage := Signed(Lookup(o.session.raw, "event.101"));
      var players := Signed(Lookup(o.session.raw, "event.101.target.995408715"));
      var others := Signed(Lookup(o.session.raw, "event.101.target.200993951"));
      ResolvePreset(PVE_PRESET, o)
      == Preset("pve", "PvE · лут и ARC", "PvE · loot and ARC",
                [Cell(Signed(o.session.lootValue), "Вынесено за стрим", "Stream loot", "loot"),
                 Cell(Clamp(damage - players - others), "Урон аркам", "ARC damage", "accent")])
  {
    hide ResolveCell, Resolve, ResolveSource, Lookup, ValidPreset;
    PvePresetIsValid();
    SimpleValue("session.loot_value", "Вынесено за стрим", "Stream loot", "loot", o);
    CellValue(PVE_DAMAGE, o);
    StreamSources(o);
    StreamDamageValues(o);
  }

  lemma PvpPresetShows(o: OverlayStats)
    ensures
      var players := Signed(Lookup(o.session.raw, "event.101.target.995408715"));
      var others := Signed(Lookup(o.session.raw, "event.101.target.200993951"));
      ResolvePreset(PVP_PRESET, o)
      == Preset("pvp", "PvP · ноки и урон", "PvP · knocks and damage",
                [Cell(Signed(Lookup(o.session.raw, "event.200.target.995408715")), "Ноки игроков", "Player knocks", "plain"),
                 Cell(Clamp(players + others), "Урон игрокам", "Player damage", "danger")])
  {
    hide ResolveCell, Resolve, ResolveSource, Lookup, ValidPreset;
    PvpPresetIsValid();
    SimpleValue("session.event.200.target.995408715", "Ноки игроков", "Player knocks", "plain", o);
    CellValue(PVP_DAMAGE, o);
    SessionKnocksSources(o);
    StreamDamageValues(o);
  }

  /** What a configuration shows is each of its presets, in order. */
  lemma ShippedPresets(o: OverlayStats)
    ensures Apply(WidgetConfig(WIDGET_CONFIG_SCHEMA_VERSION, DefaultPresets()), o).presets
         == [ResolvePreset(ACCOUNT_PRESET, o), ResolvePreset(SESSION_PRESET, o), ResolvePreset(OUTCOME_PRESET, o),
             ResolvePreset(PVE_PRESET, o), ResolvePreset(PVP_PRESET, o)]
  {
    hide ResolvePreset;
  }
}
