/** Widget presets: user-edited formulas over the totals. */
module Widgets {
  import opened Basics
  import opened Search
  import opened Text
  import opened Codecs
  import opened Overlay
  import opened Stats

  const WIDGET_CONFIG_SCHEMA_VERSION: nat := 2
  const MAX_PRESETS: nat := 12
  const MAX_CELLS_PER_PRESET: nat := 4
  const CELL_STYLES: set<string> := {"plain", "accent", "danger", "loot", "balance"}

  datatype Metric = Metric(source: string, add: seq<string>, subtract: seq<string>,
                           labelRu: string, labelEn: string, style: string)

  datatype WidgetPreset = WidgetPreset(id: string, nameRu: string, nameEn: string, cells: seq<Metric>)

  datatype WidgetConfig = WidgetConfig(schemaVersion: nat, presets: seq<WidgetPreset>)

  // ----- resolving a formula -----

  datatype Source = Source(scope: string, name: string)

  /** `split_once('.')`, with the account scope when there is no dot. */
  function SplitSource(source: string): Source {
    match Find(source, ".")
    case None => Source("account", source)
    case Some(e) => Source(source[..e], source[e + 1..])
  }

  /** No game played this stream yet (the source's sum wraps), and a day scope. */
  predicate UsesToday(s: Counters, today: Today) {
    (s.extractions + s.deaths) % (U64_MAX + 1) == 0 && today.available
  }

  function NamedSource(scope: string, name: string, t: Totals, s: Counters, today: Today): u64 {
    if scope == "account" then
      if name == "raids" then t.raids
      else if name == "extractions" then t.extractions
      else if name == "eliminations" then t.eliminations
      else if name == "deaths" then t.deaths
      else if name == "loot_value" then t.lootValue
      else if name == "arc_eliminations" then t.arcEliminations
      else if name == "downs" then t.downs
      else if name == "revives" then t.revives
      else if name == "damage_by_enemy" then t.damageByEnemy
      else if name == "damage_by_weapon" then t.damageByWeapon
      else if name == "raider_damage" then t.raiderDamage
      else if name == "value_brought_in" then t.valueBroughtIn
      else if name == "xp_gained" then t.xpGained
      else 0
    else if scope == "session" then
      if name == "downs" then s.downs
      else if name == "extractions" then s.extractions
      else if name == "deaths" then s.deaths
      else if name == "loot_value" then s.lootValue
      else 0
    else if scope == "today" then
      if name == "extractions" then today.extractions
      else if name == "deaths" then today.deaths
      else 0
    else if scope == "outcome" then
      if name == "wins" then (if UsesToday(s, today) then today.extractions else s.extractions)
      else if name == "losses" then (if UsesToday(s, today) then today.deaths else s.deaths)
      else 0
    else 0
  }

  function ResolveSource(source: string, o: OverlayStats): i64 {
    var Source(scope, name) := SplitSource(source);
    if "event." <= name then
      var raw := if scope == "session" then o.session.raw
                 else if scope == "today" then o.today.raw
                 else o.totals.raw;
      Min(Lookup(raw, name), I64_MAX)
    else if scope == "session" && name == "money_delta" then o.session.moneyDelta
    else Min(NamedSource(scope, name, o.totals, o.session, o.today), I64_MAX)
  }

  function SumSources(sources: seq<string>, o: OverlayStats): int {
    if sources == [] then 0 else ResolveSource(sources[0], o) + SumSources(sources[1..], o)
  }

  function Resolve(m: Metric, o: OverlayStats): i64 {
    Clamp(ResolveSource(m.source, o) + SumSources(m.add, o) - SumSources(m.subtract, o))
  }

  // ----- applying a configuration -----

  function StyleOf(m: Metric): string { if Trim(m.style) == "" then "plain" else Trim(m.style) }

  function ResolveCell(m: Metric, o: OverlayStats): Cell {
    Cell(Resolve(m, o), m.labelRu, m.labelEn, StyleOf(m))
  }

  function ResolvePreset(p: WidgetPreset, o: OverlayStats): Preset {
    Preset(Trim(p.id), p.nameRu, p.nameEn,
           seq(|p.cells|, i requires 0 <= i < |p.cells| => ResolveCell(p.cells[i], o)))
  }

  function ResolveAll(config: WidgetConfig, o: OverlayStats): (presets: seq<Preset>)
    ensures |presets| == |config.presets|
  {
    seq(|config.presets|, i requires 0 <= i < |config.presets| => ResolvePreset(config.presets[i], o))
  }

  predicate Offers(presets: seq<Preset>, id: string) { exists p :: p in presets && p.id == id }

  /** Resolves every preset and repairs the selection if it no longer exists. */
  function Apply(config: WidgetConfig, o: OverlayStats): OverlayStats {
    var presets := ResolveAll(config, o);
    var selected := if !Offers(presets, o.preset) && presets != [] then presets[0].id else o.preset;
    o.(preset := selected, presets := presets)
  }

  /** What every configuration publishes: its presets in order, ids without surrounding
      white space, names and labels as written, and the style or "plain". */
  lemma PresetsShown(config: WidgetConfig, o: OverlayStats, i: nat)
    requires i < |config.presets|
    ensures
      var p, shown := config.presets[i], Apply(config, o).presets;
      |shown| == |config.presets|
      && shown[i].id == Trim(p.id) && shown[i].nameRu == p.nameRu && shown[i].nameEn == p.nameEn
      && |shown[i].cells| == |p.cells|
      && forall j :: 0 <= j < |p.cells| ==>
           shown[i].cells[j].labelRu == p.cells[j].labelRu && shown[i].cells[j].labelEn == p.cells[j].labelEn
           && shown[i].cells[j].style == (if Trim(p.cells[j].style) == "" then "plain" else Trim(p.cells[j].style))
           && shown[i].cells[j].value
              == Clamp(ResolveSource(p.cells[j].source, o) + SumSources(p.cells[j].add, o) - SumSources(p.cells[j].subtract, o))
  {
    hide Trim, ResolveSource, SumSources;
  }

  function ActiveFrom(presets: seq<Preset>, id: string): Option<Preset> {
    if presets == [] then None
    else if presets[0].id == id then Some(presets[0])
    else ActiveFrom(presets[1..], id)
  }

  /** The preset the widget renders: the selected one, or the first. */
  function ActivePreset(o: OverlayStats): Option<Preset> {
    match ActiveFrom(o.presets, o.preset)
    case Some(p) => Some(p)
    case None => if o.presets == [] then None else Some(o.presets[0])
  }

  // ----- validation -----

  predicate IsIdChar(c: char) { IsAsciiLetterOrDigit(c) || c == '-' }

  predicate ValidMetric(m: Metric) {
    Trim(m.source) != "" && Trim(m.labelRu) != "" && Trim(m.labelEn) != ""
    && (Trim(m.style) == "" || Trim(m.style) in CELL_STYLES)
  }

  predicate ValidPreset(p: WidgetPreset) {
    Trim(p.id) != "" && (forall c :: c in Trim(p.id) ==> IsIdChar(c))
    && Trim(p.nameRu) != "" && Trim(p.nameEn) != ""
    && 0 < |p.cells| <= MAX_CELLS_PER_PRESET
    && forall m :: m in p.cells ==> ValidMetric(m)
  }

  predicate UniqueIds(presets: seq<WidgetPreset>) {
    forall i, j :: 0 <= i < j < |presets| ==> Trim(presets[i].id) != Trim(presets[j].id)
  }

  predicate ValidConfig(c: WidgetConfig) {
    c.schemaVersion == WIDGET_CONFIG_SCHEMA_VERSION
    && 0 < |c.presets| <= MAX_PRESETS
    && (forall p :: p in c.presets ==> ValidPreset(p))
    && UniqueIds(c.presets)
  }

  /** `seen` are the ids of the first `n` presets. */
  ghost predicate SeenAre(seen: set<string>, presets: seq<WidgetPreset>, n: nat)
    requires n <= |presets|
  {
    forall id :: id in seen <==> exists j :: 0 <= j < n && Trim(presets[j].id) == id
  }

  lemma OneMoreSeen(seen: set<string>, presets: seq<WidgetPreset>, n: nat)
    requires n < |presets| && SeenAre(seen, presets, n)
    ensures SeenAre(seen + {Trim(presets[n].id)}, presets, n + 1)
    ensures UniqueIds(presets[..n + 1]) <==> UniqueIds(presets[..n]) && Trim(presets[n].id) !in seen
    ensures !UniqueIds(presets[..n + 1]) ==> !UniqueIds(presets)
  {
    hide Trim;
    var id := Trim(presets[n].id);
    assert exists j :: 0 <= j < n + 1 && Trim(presets[j].id) == id;
    if id in seen {
      var j :| 0 <= j < n && Trim(presets[j].id) == id;
      assert presets[..n + 1][j] == presets[j] && presets[..n + 1][n] == presets[n];
    }
    assert forall i :: 0 <= i < n ==> presets[..n + 1][i] == presets[..n][i] == presets[i];
  }

  lemma NoneSeen(presets: seq<WidgetPreset>)
    ensures SeenAre({}, presets, 0) && UniqueIds(presets[..0])
  {
  }

  method Validate(c: WidgetConfig) returns (ok: bool)
    ensures ok <==> ValidConfig(c)
  {
    hide ValidPreset, UniqueIds, SeenAre, Trim;
    if c.schemaVersion != WIDGET_CONFIG_SCHEMA_VERSION || c.presets == [] || |c.presets| > MAX_PRESETS {
      return false;
    }
    var seen: set<string> := {};
    NoneSeen(c.presets);
    for i := 0 to |c.presets|
      invariant SeenAre(seen, c.presets, i)
      invariant forall j :: 0 <= j < i ==> ValidPreset(c.presets[j])
      invariant UniqueIds(c.presets[..i])
    {
      var preset := c.presets[i];
      var id := Trim(preset.id);
      assert preset in c.presets;
      OneMoreSeen(seen, c.presets, i);
      if id in seen { return false; }
      var presetOk := ValidatePreset(preset);
      if !presetOk { return false; }
      seen := seen + {id};
    }
    assert c.presets[..|c.presets|] == c.presets;
    return true;
  }

  method ValidatePreset(preset: WidgetPreset) returns (ok: bool)
    ensures ok <==> ValidPreset(preset)
  {
    hide ValidMetric;
    var id := Trim(preset.id);
    if id == "" || exists c :: c in id && !IsIdChar(c) { return false; }
    if Trim(preset.nameRu) == "" || Trim(preset.nameEn) == "" { return false; }
    if preset.cells == [] || |preset.cells| > MAX_CELLS_PER_PRESET { return false; }
    ok := ValidateCells(preset.cells);
  }

  /** The rules written out. */
  lemma ConfigRules(c: WidgetConfig)
    ensures ValidConfig(c) <==>
      c.schemaVersion == 2 && 1 <= |c.presets| <= 12
      && (forall i, j :: 0 <= i < j < |c.presets| ==> Trim(c.presets[i].id) != Trim(c.presets[j].id))
      && forall i :: 0 <= i < |c.presets| ==> PresetRules(c.presets[i])
  {
    hide ValidPreset, PresetRules;
    forall i | 0 <= i < |c.presets|
      ensures ValidPreset(c.presets[i]) <==> PresetRules(c.presets[i])
    {
      RulesAre(c.presets[i]);
    }
    assert forall p :: p in c.presets ==> exists i :: 0 <= i < |c.presets| && c.presets[i] == p;
  }

  predicate PresetRules(p: WidgetPreset) {
    Trim(p.id) != ""
    && (forall i :: 0 <= i < |Trim(p.id)| ==>
          '0' <= Trim(p.id)[i] <= '9' || 'a' <= Trim(p.id)[i] <= 'z' || 'A' <= Trim(p.id)[i] <= 'Z' || Trim(p.id)[i] == '-')
    && Trim(p.nameRu) != "" && Trim(p.nameEn) != "" && 1 <= |p.cells| <= 4
    && forall i :: 0 <= i < |p.cells| ==>
         Trim(p.cells[i].source) != "" && Trim(p.cells[i].labelRu) != "" && Trim(p.cells[i].labelEn) != ""
         && Trim(p.cells[i].style) in {"", "plain", "accent", "danger", "loot", "balance"}
  }

  lemma RulesAre(p: WidgetPreset)
    ensures ValidPreset(p) <==> PresetRules(p)
  {
    hide Trim;
    var id := Trim(p.id);
    assert (forall c :: c in id ==> IsIdChar(c)) <==> (forall i :: 0 <= i < |id| ==> IsIdChar(id[i])) by {
      assert forall i :: 0 <= i < |id| ==> id[i] in id;
    }
    assert (forall m :: m in p.cells ==> ValidMetric(m)) <==> (forall i :: 0 <= i < |p.cells| ==> ValidMetric(p.cells[i])) by {
      assert forall i :: 0 <= i < |p.cells| ==> p.cells[i] in p.cells;
    }
  }

  method ValidateCells(cells: seq<Metric>) returns (ok: bool)
    ensures ok <==> forall m :: m in cells ==> ValidMetric(m)
  {
    for i := 0 to |cells|
      invariant forall j :: 0 <= j < i ==> ValidMetric(cells[j])
    {
      if !ValidMetric(cells[i]) {
        assert cells[i] in cells;
        return false;
      }
    }
    return true;
  }

  /** With an accepted configuration the selection always names exactly one of the
      presets, keeps what was selected if it is still offered, and is what the
      widget renders. */
  lemma {:induction false} SelectionIsOffered(config: WidgetConfig, o: OverlayStats)
    requires ValidConfig(config)
    ensures
      var after := Apply(config, o);
      ActivePreset(after).Some? && ActivePreset(after).value.id == after.preset
      && (Offers(after.presets, o.preset) ==> after.preset == o.preset)
      && forall i, j :: 0 <= i < j < |after.presets| ==> after.presets[i].id != after.presets[j].id
  {
    var after := Apply(config, o);
    ActiveIsFound(after.presets, after.preset);
    assert after.presets[0] in after.presets;
  }

  lemma {:induction false} ActiveIsFound(presets: seq<Preset>, id: string)
    ensures Offers(presets, id) <==> ActiveFrom(presets, id).Some?
    ensures ActiveFrom(presets, id).Some? ==> ActiveFrom(presets, id).value.id == id
  {
    if presets != [] {
      ActiveIsFound(presets[1..], id);
      assert presets[0] in presets;
      if presets[0].id != id && Offers(presets, id) {
        var p :| p in presets && p.id == id;
        assert p in presets[1..];
      }
    }
  }

  /** What the presets show depends on the numbers alone, not on what else the
      overlay remembers. */
  lemma PresetsFollowTheNumbers(config: WidgetConfig, a: OverlayStats, b: OverlayStats)
    requires a.totals == b.totals && a.session == b.session && a.today == b.today
    ensures ResolveAll(config, a) == ResolveAll(config, b)
  {
    hide Resolve;
    forall m: Metric
      ensures Resolve(m, a) == Resolve(m, b)
    {
      ResolveFollowsTheNumbers(m, a, b);
    }
    forall i | 0 <= i < |config.presets|
      ensures ResolvePreset(config.presets[i], a) == ResolvePreset(config.presets[i], b)
    {
    }
  }

  lemma ResolveFollowsTheNumbers(m: Metric, a: OverlayStats, b: OverlayStats)
    requires a.totals == b.totals && a.session == b.session && a.today == b.today
    ensures Resolve(m, a) == Resolve(m, b)
  {
    hide ResolveSource;
    forall source: string
      ensures ResolveSource(source, a) == ResolveSource(source, b)
    {
      SourceFollowsTheNumbers(source, a, b);
    }
    SumsFollow(m.add, a, b);
    SumsFollow(m.subtract, a, b);
  }

  lemma SourceFollowsTheNumbers(source: string, a: OverlayStats, b: OverlayStats)
    requires a.totals == b.totals && a.session == b.session && a.today == b.today
    ensures ResolveSource(source, a) == ResolveSource(source, b)
  {
    hide NamedSource, Lookup, SplitSource, Min;
  }

  lemma {:induction false} SumsFollow(sources: seq<string>, a: OverlayStats, b: OverlayStats)
    requires forall s: string :: ResolveSource(s, a) == ResolveSource(s, b)
    ensures SumSources(sources, a) == SumSources(sources, b)
  {
    hide ResolveSource;
    if sources != [] { SumsFollow(sources[1..], a, b); }
  }

  // ----- the presets that are shipped -----

  function Simple(source: string, labelRu: string, labelEn: string, style: string): Metric {
    Metric(source, [], [], labelRu, labelEn, style)
  }

  const ACCOUNT_DAMAGE := Metric(
    "account.event.101", [], ["account.event.101.target.995408715", "account.event.101.target.200993951"],
    "Урон рейдерам", "Raider damage", "accent")

  const PVE_DAMAGE := Metric(
    "session.event.101", [], ["session.event.101.target.995408715", "session.event.101.target.200993951"],
    "Урон аркам", "ARC damage", "accent")

  const PVP_DAMAGE := Metric(
    "session.event.101.target.995408715", ["session.event.101.target.200993951"], [],
    "Урон игрокам", "Player damage", "danger")

  const ACCOUNT_PRESET := WidgetPreset("account", "Статистика аккаунта", "Account totals",
    [Simple("account.event.200.target.995408715", "Ноки игроков", "Player knocks", "plain"),
     ACCOUNT_DAMAGE,
     Simple("account.loot_value", "Вынесено", "Extracted value", "loot")])

  const SESSION_PRESET := WidgetPreset("session", "Текущий стрим", "Current stream",
    [Simple("session.event.200.target.995408715", "Ноки за стрим", "Stream knocks", "plain"),
     Simple("session.extractions", "Успешные выходы", "Successful exits", "accent"),
     Simple("session.money_delta", "Баланс", "Balance", "balance")])

  const OUTCOME_PRESET := WidgetPreset("outcome", "Победы | Поражения", "Win | Lose",
    [Simple("outcome.wins", "Вышел живым", "Extracted alive", "accent"),
     Simple("outcome.losses", "Погиб", "Knocked out", "danger")])

  const PVE_PRESET := WidgetPreset("pve", "PvE · лут и ARC", "PvE · loot and ARC",
    [Simple("session.loot_value", "Вынесено за стрим", "Stream loot", "loot"), PVE_DAMAGE])

  const PVP_PRESET := WidgetPreset("pvp", "PvP · ноки и урон", "PvP · knocks and damage",
    [Simple("session.event.200.target.995408715", "Ноки игроков", "Player knocks", "plain"), PVP_DAMAGE])

  function DefaultPresets(): seq<WidgetPreset> {
    [ACCOUNT_PRESET, SESSION_PRESET, OUTCOME_PRESET, PVE_PRESET, PVP_PRESET]
  }

  lemma TrimmedAlready(s: string)
    requires s != "" && !IsWhitespace(s[0]) && !IsWhitespace(s[|s| - 1])
    ensures Trim(s) == s
  {
  }

  /** Text that starts and ends with something to see. */
  predicate IsPlain(s: string) { s != "" && !IsWhitespace(s[0]) && !IsWhitespace(s[|s| - 1]) }

  predicate IsPlainMetric(m: Metric) {
    IsPlain(m.source) && IsPlain(m.labelRu) && IsPlain(m.labelEn) && m.style in CELL_STYLES
  }

  lemma AcceptedMetric(m: Metric)
    requires IsPlainMetric(m)
    ensures ValidMetric(m)
  {
    hide Trim, IsWhitespace;
    TrimmedAlready(m.source);
    TrimmedAlready(m.labelRu);
    TrimmedAlready(m.labelEn);
    StylesAreTrimmed();
  }

  lemma AcceptedPreset(p: WidgetPreset)
    requires p.id != "" && forall i :: 0 <= i < |p.id| ==> 'a' <= p.id[i] <= 'z'
    requires IsPlain(p.nameRu) && IsPlain(p.nameEn) && 0 < |p.cells| <= MAX_CELLS_PER_PRESET
    requires forall i :: 0 <= i < |p.cells| ==> IsPlainMetric(p.cells[i])
    ensures ValidPreset(p) && Trim(p.id) == p.id
  {
    hide Trim, IsPlainMetric, ValidMetric;
    TrimmedAlready(p.id);
    TrimmedAlready(p.nameRu);
    TrimmedAlready(p.nameEn);
    forall m | m in p.cells
      ensures ValidMetric(m)
    {
      AcceptedMetric(m);
    }
  }

  lemma StylesAreTrimmed()
    ensures forall s :: s in CELL_STYLES ==> Trim(s) == s
  {
  }

  /** The shipped configuration is one the program accepts, and the three damage cells
      stand in it. */
  lemma DefaultsAreAccepted()
    ensures ValidConfig(WidgetConfig(WIDGET_CONFIG_SCHEMA_VERSION, DefaultPresets()))
    ensures ACCOUNT_DAMAGE in DefaultPresets()[0].cells && PVE_DAMAGE in DefaultPresets()[3].cells
    ensures PVP_DAMAGE in DefaultPresets()[4].cells
  {
    hide ValidPreset, Trim;
    AccountPresetIsValid();
    SessionPresetIsValid();
    OutcomePresetIsValid();
    PvePresetIsValid();
    PvpPresetIsValid();
    assert ACCOUNT_PRESET.cells[1] == ACCOUNT_DAMAGE && PVE_PRESET.cells[1] == PVE_DAMAGE
        && PVP_PRESET.cells[1] == PVP_DAMAGE;
    assert "account"[0] == 'a' && "session"[0] == 's' && "outcome"[0] == 'o' && "pve"[0] == 'p' && "pvp"[0] == 'p';
    assert "pve"[2] == 'e' && "pvp"[2] == 'p';
  }

  lemma AccountCellsArePlain()
    ensures forall i :: 0 <= i < 3 ==> IsPlainMetric(ACCOUNT_PRESET.cells[i])
  {
    forall i | 0 <= i < 3
      ensures IsPlainMetric(ACCOUNT_PRESET.cells[i])
    {
    }
  }

  lemma AccountPresetIsValid()
    ensures ValidPreset(ACCOUNT_PRESET) && Trim(ACCOUNT_PRESET.id) == "account"
  {
    hide ValidPreset, Trim, IsPlainMetric;
    AccountCellsArePlain();
    AcceptedPreset(ACCOUNT_PRESET);
  }

  lemma SessionCellsArePlain()
    ensures forall i :: 0 <= i < 3 ==> IsPlainMetric(SESSION_PRESET.cells[i])
  {
    forall i | 0 <= i < 3
      ensures IsPlainMetric(SESSION_PRESET.cells[i])
    {
    }
  }

  lemma SessionPresetIsValid()
    ensures ValidPreset(SESSION_PRESET) && Trim(SESSION_PRESET.id) == "session"
  {
    hide ValidPreset, Trim, IsPlainMetric;
    SessionCellsArePlain();
    AcceptedPreset(SESSION_PRESET);
  }

  lemma OutcomePresetIsValid()
    ensures ValidPreset(OUTCOME_PRESET) && Trim(OUTCOME_PRESET.id) == "outcome"
  {
    hide ValidPreset, Trim;
    AcceptedPreset(OUTCOME_PRESET);
  }

  lemma PvePresetIsValid()
    ensures ValidPreset(PVE_PRESET) && Trim(PVE_PRESET.id) == "pve"
  {
    hide ValidPreset, Trim;
    AcceptedPreset(PVE_PRESET);
  }

  lemma PvpPresetIsValid()
    ensures ValidPreset(PVP_PRESET) && Trim(PVP_PRESET.id) == "pvp"
  {
    hide ValidPreset, Trim;
    AcceptedPreset(PVP_PRESET);
  }

  /** Where a raw source points. */
  lemma RawSource(scope: string, name: string, o: OverlayStats)
    requires Find(scope, ".").None? && "event." <= name
    ensures
      ResolveSource(scope + "." + name, o)
      == Min(Lookup(if scope == "session" then o.session.raw
                    else if scope == "today" then o.today.raw else o.totals.raw, name), I64_MAX)
  {
    hide NamedSource, Lookup;
    var source, e := scope + "." + name, |scope|;
    forall j | 0 <= j < e
      ensures !At(source, ".", j)
    {
      assert !At(scope, ".", j);
      assert source[j..j + 1] == scope[j..j + 1];
    }
    assert At(source, ".", e);
    FindIs(source, ".", e);
    assert source[..e] == scope && source[e + 1..] == name;
  }

  lemma AccountHasNoDot()
    ensures Find("account", ".").None? && Find("session", ".").None?
  {
    FindNothing("account", ".");
    FindNothing("session", ".");
  }

  lemma RawNamesStart()
    ensures "event." <= "event.101"
    ensures "event." <= "event.101.target.995408715" && "event." <= "event.101.target.200993951"
  {
  }

  lemma AccountNames()
    ensures "account" + "." + "event.101" == "account.event.101"
    ensures "account" + "." + "event.101.target.995408715" == "account.event.101.target.995408715"
    ensures "account" + "." + "event.101.target.200993951" == "account.event.101.target.200993951"
  {
  }

  lemma AccountSources(o: OverlayStats)
    ensures ResolveSource("account.event.101", o) == Min(Lookup(o.totals.raw, "event.101"), I64_MAX)
    ensures ResolveSource("account.event.101.target.995408715", o)
         == Min(Lookup(o.totals.raw, "event.101.target.995408715"), I64_MAX)
    ensures ResolveSource("account.event.101.target.200993951", o)
         == Min(Lookup(o.totals.raw, "event.101.target.200993951"), I64_MAX)
  {
    hide ResolveSource, Lookup;
    AccountHasNoDot();
    RawNamesStart();
    RawSource("account", "event.101", o);
    RawSource("account", "event.101.target.995408715", o);
    RawSource("account", "event.101.target.200993951", o);
    AccountNames();
  }

  lemma SessionNames()
    ensures "session" + "." + "event.101" == "session.event.101"
    ensures "session" + "." + "event.101.target.995408715" == "session.event.101.target.995408715"
    ensures "session" + "." + "event.101.target.200993951" == "session.event.101.target.200993951"
  {
  }

  lemma SessionSources(o: OverlayStats)
    ensures ResolveSource("session.event.101", o) == Min(Lookup(o.session.raw, "event.101"), I64_MAX)
    ensures ResolveSource("session.event.101.target.995408715", o)
         == Min(Lookup(o.session.raw, "event.101.target.995408715"), I64_MAX)
    ensures ResolveSource("session.event.101.target.200993951", o)
         == Min(Lookup(o.session.raw, "event.101.target.200993951"), I64_MAX)
  {
    hide ResolveSource, Lookup;
    AccountHasNoDot();
    RawNamesStart();
    RawSource("session", "event.101", o);
    RawSource("session", "event.101.target.995408715", o);
    RawSource("session", "event.101.target.200993951", o);
    SessionNames();
  }

  lemma SumOfTwo(a: string, b: string, o: OverlayStats)
    ensures SumSources([a, b], o) == ResolveSource(a, o) + ResolveSource(b, o)
    ensures SumSources([a], o) == ResolveSource(a, o) && SumSources([], o) == 0
  {
    hide ResolveSource;
    assert [a, b][1..] == [b] && [b][1..] == [] && [a][1..] == [];
    assert SumSources([b], o) == ResolveSource(b, o);
  }

  lemma AccountDamageValue(o: OverlayStats)
    ensures
      var all := Min(Lookup(o.totals.raw, "event.101"), I64_MAX);
      var players := Min(Lookup(o.totals.raw, "event.101.target.995408715"), I64_MAX);
      var others := Min(Lookup(o.totals.raw, "event.101.target.200993951"), I64_MAX);
      Resolve(ACCOUNT_DAMAGE, o) == Clamp(all - (players + others))
  {
    hide ResolveSource, Lookup, SumSources, Clamp;
    AccountSources(o);
    SumOfTwo("account.event.101.target.995408715", "account.event.101.target.200993951", o);
  }

  /** The shipped "Raider damage" formula shows the normaliser's own raider damage
      exactly when the total damage fits the signed range, or no raider was hit and
      only one of the player targets was. */
  lemma RaiderDamageFormula(rows: seq<Row>, o: OverlayStats)
    requires o.totals == Normalize(rows).totals
    ensures
      var raw := o.totals.raw;
      Resolve(ACCOUNT_DAMAGE, o) == o.totals.raiderDamage
      <==> Lookup(raw, "event.101") <= I64_MAX
           || (o.totals.raiderDamage == 0
               && (Lookup(raw, "event.101.target.995408715") == 0
                   || Lookup(raw, "event.101.target.200993951") == 0))
  {
    hide Normalize, Sum, EventKey, TargetKey, Resolve, Lookup;
    PrintedKeys();
    PrintedTargetKeys();
    var t1, t2 := Raw(TargetKey(101, PLAYER_TARGET_ID)), Raw(TargetKey(101, PLAYER_DAMAGE_TARGET_ID));
    TotalsAreCappedSums(rows, Raw(EventKey(101)));
    TotalsAreCappedSums(rows, RaiderDamage);
    TotalsAreCappedSums(rows, t1);
    TotalsAreCappedSums(rows, t2);
    DamageSplits(rows);
    AccountDamageValue(o);
  }

  /** Outside that condition the formula is wrong: one hit of 2^63 on no target. */
  lemma RaiderDamageFormulaCanFail()
    ensures
      var o := OverlayStats("live", "account", NO_LOOK,
                            Normalize([Row(Some(101), None, 0x8000_0000_0000_0000)]).totals,
                            1, NO_COUNTERS, NO_TODAY, []);
      Resolve(ACCOUNT_DAMAGE, o) == I64_MAX && o.totals.raiderDamage == I64_MAX + 1
  {
    hide Normalize, EventKey, TargetKey, Resolve, Lookup;
    var row := Row(Some(101), None, 0x8000_0000_0000_0000);
    var rows := [row];
    var o := OverlayStats("live", "account", NO_LOOK, Normalize(rows).totals, 1, NO_COUNTERS, NO_TODAY, []);
    var t1, t2 := Raw(TargetKey(101, PLAYER_TARGET_ID)), Raw(TargetKey(101, PLAYER_DAMAGE_TARGET_ID));
    PrintedKeys();
    PrintedTargetKeys();
    EventKeyIsNoTargetKey(101, 101, PLAYER_TARGET_ID);
    EventKeyIsNoTargetKey(101, 101, PLAYER_DAMAGE_TARGET_ID);
    assert rows[..0] == [];
    TotalsAreCappedSums(rows, Raw(EventKey(101)));
    TotalsAreCappedSums(rows, RaiderDamage);
    TotalsAreCappedSums(rows, t1);
    TotalsAreCappedSums(rows, t2);
    AccountDamageValue(o);
  }

  /** The shipped PvE and PvP damage cells split the stream's damage between them,
      as long as both halves and the whole fit the signed range. */
  lemma DamageCellsSplitTheStream(o: OverlayStats)
    requires Lookup(o.session.raw, "event.101") <= I64_MAX
    requires Lookup(o.session.raw, "event.101.target.995408715")
             + Lookup(o.session.raw, "event.101.target.200993951") <= I64_MAX
    ensures Resolve(PVE_DAMAGE, o) + Resolve(PVP_DAMAGE, o) == Lookup(o.session.raw, "event.101")
  {
    hide ResolveSource, Lookup, SumSources;
    SessionSources(o);
    SumOfTwo("session.event.101.target.995408715", "session.event.101.target.200993951", o);
    SumOfTwo("session.event.101.target.200993951", "session.event.101.target.200993951", o);
  }
}
