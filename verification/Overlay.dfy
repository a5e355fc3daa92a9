/** The overlay's numbers: account totals, and the stream counters taken from a
    baseline. Overlay records are plain values in the source (cloned, never
    shared), and are values here. */
module Overlay {
  import opened Basics

  /** Account totals. `raw` holds every aggregate under its printed key. */
  datatype Totals = Totals(
    raids: u64, extractions: u64, eliminations: u64, deaths: u64, lootValue: u64,
    arcEliminations: u64, downs: u64, revives: u64, containersLooted: u64, itemsCrafted: u64,
    damageByEnemy: u64, damageByWeapon: u64, raiderDamage: u64, durationMs: u64,
    valueBroughtIn: u64, xpGained: u64, raw: map<string, u64>)

  const NO_TOTALS: Totals := Totals(0, 0, 0, 0, 0, 0, 0, 0, 0, 0, 0, 0, 0, 0, 0, 0, map[])

  /** The counters of the current stream. */
  datatype Counters = Counters(downs: u64, extractions: u64, deaths: u64, lootValue: u64,
                               moneyDelta: i64, raw: map<string, u64>)

  const NO_COUNTERS: Counters := Counters(0, 0, 0, 0, 0, map[])

  datatype Today = Today(extractions: u64, deaths: u64, available: bool, raw: map<string, u64>)

  const NO_TODAY: Today := Today(0, 0, false, map[])

  /** Language, background and opacity of the widget. */
  datatype Look = Look(language: string, opacity: nat, backgroundPreset: string,
                       backgroundColor: (nat, nat, nat), backgroundBlur: nat)

  datatype Cell = Cell(value: i64, labelRu: string, labelEn: string, style: string)

  datatype Preset = Preset(id: string, nameRu: string, nameEn: string, cells: seq<Cell>)

  datatype OverlayStats = OverlayStats(mode: string, preset: string, look: Look, totals: Totals,
                                       statsRows: u64, session: Counters, today: Today,
                                       presets: seq<Preset>)

  /** A missing key counts as 0. */
  function Lookup(m: map<string, u64>, key: string): u64 { if key in m then m[key] else 0 }

  function Clamp(n: int): i64 {
    if n < I64_MIN then I64_MIN else if n > I64_MAX then I64_MAX else n
  }

  // ----- the session baseline -----

  function RawDelta(now: map<string, u64>, base: map<string, u64>): map<string, u64> {
    map k | k in now :: SatSub(now[k], Lookup(base, k))
  }

  /** The counters since `base`. */
  function SessionDelta(now: Totals, base: Totals): Counters {
    var loot := SatSub(now.lootValue, base.lootValue);
    Counters(SatSub(now.downs, base.downs), SatSub(now.extractions, base.extractions),
             SatSub(now.deaths, base.deaths), loot,
             Clamp(loot - SatSub(now.valueBroughtIn, base.valueBroughtIn)),
             RawDelta(now.raw, base.raw))
  }

  function ApplySessionBaseline(overlay: OverlayStats, baseline: OverlayStats): OverlayStats {
    overlay.(session := SessionDelta(overlay.totals, baseline.totals))
  }

  /** Fills in the aggregates of a record from before they were kept. */
  function HydrateLegacy(t: Totals): Totals {
    if t.raw != map[] then t
    else t.(raw := map["event.200.target.995408715" := t.eliminations, "event.204" := t.downs,
                       "event.9801" := t.extractions, "event.9802" := t.deaths,
                       "event.9804" := t.valueBroughtIn, "event.9805" := t.lootValue])
  }

  // ----- sameness -----

  ghost predicate SameRaw(a: map<string, u64>, b: map<string, u64>) {
    forall k :: Lookup(a, k) == Lookup(b, k)
  }

  ghost predicate SameTotals(a: Totals, b: Totals) {
    a == b.(raw := a.raw) && SameRaw(a.raw, b.raw)
  }

  ghost predicate SameCounters(a: Counters, b: Counters) {
    a == b.(raw := a.raw) && SameRaw(a.raw, b.raw)
  }

  lemma LookupDelta(now: map<string, u64>, base: map<string, u64>, k: string)
    ensures Lookup(RawDelta(now, base), k) == SatSub(Lookup(now, k), Lookup(base, k))
  {
  }

  lemma SameDelta(a1: Totals, b1: Totals, a2: Totals, b2: Totals)
    requires SameTotals(a1, a2) && SameTotals(b1, b2)
    ensures SameCounters(SessionDelta(a1, b1), SessionDelta(a2, b2))
  {
    forall k
      ensures Lookup(RawDelta(a1.raw, b1.raw), k) == Lookup(RawDelta(a2.raw, b2.raw), k)
    {
      LookupDelta(a1.raw, b1.raw, k);
      LookupDelta(a2.raw, b2.raw, k);
      assert Lookup(a1.raw, k) == Lookup(a2.raw, k) && Lookup(b1.raw, k) == Lookup(b2.raw, k);
    }
  }

  /** How much `now` is above `base`. */
  function Gain(now: u64, base: u64): u64 { if now > base then now - base else 0 }

  /** Conservation: baseline and counter together give the current total, in every field
      and under every key, unless the total has shrunk, which counts as nothing; the
      balance is what was carried out less what was carried in. */
  lemma DeltaAddsUp(now: Totals, base: Totals)
    ensures
      var c := SessionDelta(now, base);
      c.downs == Gain(now.downs, base.downs) && c.extractions == Gain(now.extractions, base.extractions)
      && c.deaths == Gain(now.deaths, base.deaths) && c.lootValue == Gain(now.lootValue, base.lootValue)
      && (forall k :: Lookup(c.raw, k) == Gain(Lookup(now.raw, k), Lookup(base.raw, k)))
      && (Gain(now.lootValue, base.lootValue) <= I64_MAX && Gain(now.valueBroughtIn, base.valueBroughtIn) <= I64_MAX ==>
            c.moneyDelta == Gain(now.lootValue, base.lootValue) - Gain(now.valueBroughtIn, base.valueBroughtIn))
    ensures Grows(base, now) ==>
      var c := SessionDelta(now, base);
      base.downs + c.downs == now.downs && base.extractions + c.extractions == now.extractions
      && base.deaths + c.deaths == now.deaths && base.lootValue + c.lootValue == now.lootValue
      && forall k :: Lookup(base.raw, k) + Lookup(c.raw, k) == Lookup(now.raw, k)
  {
    forall k
      ensures Lookup(RawDelta(now.raw, base.raw), k) == Gain(Lookup(now.raw, k), Lookup(base.raw, k))
    {
      LookupDelta(now.raw, base.raw, k);
    }
  }

  /** Against itself every counter is 0. */
  lemma DeltaFromSelf(t: Totals)
    ensures SameCounters(NO_COUNTERS, SessionDelta(t, t))
  {
    forall k
      ensures Lookup(map[], k) == Lookup(RawDelta(t.raw, t.raw), k)
    {
      LookupDelta(t.raw, t.raw, k);
    }
  }

  /** Nothing counted yet: every counter is 0, whatever the baseline. */
  lemma DeltaOfNothing(base: Totals)
    ensures SameCounters(NO_COUNTERS, SessionDelta(NO_TOTALS, base))
  {
    assert RawDelta(map[], base.raw) == map[];
  }

  /** A record whose aggregates are missing although it counted something. */
  predicate Neutral(t: Totals) {
    t.raw == map[] ==>
      t.eliminations == 0 && t.downs == 0 && t.extractions == 0 && t.deaths == 0
      && t.valueBroughtIn == 0 && t.lootValue == 0
  }

  /** Filling in changes nothing that can be looked up, exactly for records that
      had aggregates or counted nothing. */
  lemma HydrationIsNeutral(t: Totals)
    ensures SameTotals(HydrateLegacy(t), t) <==> Neutral(t)
  {
    if t.raw == map[] {
      var h := HydrateLegacy(t).raw;
      assert SameRaw(h, t.raw) ==>
        Lookup(h, "event.200.target.995408715") == 0 && Lookup(h, "event.204") == 0
        && Lookup(h, "event.9801") == 0 && Lookup(h, "event.9802") == 0
        && Lookup(h, "event.9804") == 0 && Lookup(h, "event.9805") == 0 by {
        assert forall k :: Lookup(t.raw, k) == 0;
      }
      KeysDiffer();
    }
  }

  /** Filling in leaves every named total, and a record with aggregates, as it is; a record
      without gets exactly the six its named totals stand for. */
  lemma HydrationFillsIn(t: Totals)
    ensures HydrateLegacy(t) == t.(raw := HydrateLegacy(t).raw) && (t.raw != map[] ==> HydrateLegacy(t) == t)
    ensures t.raw == map[] ==>
      var raw := HydrateLegacy(t).raw;
      Lookup(raw, "event.200.target.995408715") == t.eliminations && Lookup(raw, "event.204") == t.downs
      && Lookup(raw, "event.9801") == t.extractions && Lookup(raw, "event.9802") == t.deaths
      && Lookup(raw, "event.9804") == t.valueBroughtIn && Lookup(raw, "event.9805") == t.lootValue
      && raw.Keys == {"event.200.target.995408715", "event.204", "event.9801", "event.9802", "event.9804", "event.9805"}
  {
    KeysDiffer();
  }

  lemma KeysDiffer()
    ensures |"event.200.target.995408715"| != |"event.204"|
    ensures "event.9801"[9] != "event.9802"[9]
    ensures "event.9804"[9] != "event.9805"[9]
    ensures "event.9801"[9] != "event.9804"[9] && "event.9801"[9] != "event.9805"[9]
    ensures "event.9802"[9] != "event.9804"[9] && "event.9802"[9] != "event.9805"[9]
  {
  }

  // ----- telescoping -----

  ghost predicate Grows(a: Totals, b: Totals) {
    a.downs <= b.downs && a.extractions <= b.extractions && a.deaths <= b.deaths
    && a.lootValue <= b.lootValue && a.valueBroughtIn <= b.valueBroughtIn
    && forall k :: Lookup(a.raw, k) <= Lookup(b.raw, k)
  }

  /** For totals that never shrink, counters taken in two stages add up; the
      balance too, as long as no money total leaves the signed range. */
  lemma DeltasTelescope(base: Totals, middle: Totals, now: Totals)
    requires Grows(base, middle) && Grows(middle, now)
    ensures
      var whole, first, second :=
        SessionDelta(now, base), SessionDelta(middle, base), SessionDelta(now, middle);
      whole.downs == first.downs + second.downs
      && whole.extractions == first.extractions + second.extractions
      && whole.deaths == first.deaths + second.deaths
      && whole.lootValue == first.lootValue + second.lootValue
      && (now.lootValue <= I64_MAX && now.valueBroughtIn <= I64_MAX ==>
            whole.moneyDelta == first.moneyDelta + second.moneyDelta)
      && forall k :: Lookup(whole.raw, k) == Lookup(first.raw, k) + Lookup(second.raw, k)
  {
    forall k
      ensures Lookup(RawDelta(now.raw, base.raw), k)
           == Lookup(RawDelta(middle.raw, base.raw), k) + Lookup(RawDelta(now.raw, middle.raw), k)
    {
      LookupDelta(now.raw, base.raw, k);
      LookupDelta(middle.raw, base.raw, k);
      LookupDelta(now.raw, middle.raw, k);
      assert Lookup(base.raw, k) <= Lookup(middle.raw, k) <= Lookup(now.raw, k);
    }
  }
}
