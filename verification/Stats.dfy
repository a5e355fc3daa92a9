/** From the aggregate rows of a statistics response to account totals. */
module Stats {
  import opened Basics
  import opened Text
  import opened Codecs
  import opened Overlay

  const PLAYER_TARGET_ID: i64 := 995_408_715
  const PLAYER_DAMAGE_TARGET_ID: i64 := 200_993_951

  // ----- keys -----

  function IntText(n: int): string {
    if n < 0 then "-" + Digits(-n, 10) else Digits(n, 10)
  }

  function EventKey(event: int): string { "event." + IntText(event) }

  function TargetKey(event: int, target: int): string {
    "event." + IntText(event) + ".target." + IntText(target)
  }

  // ----- one row -----

  function AddRaw(raw: map<string, u64>, key: string, amount: u64): map<string, u64> {
    raw[key := SatAdd(Lookup(raw, key), amount)]
  }

  function AddRawRow(raw: map<string, u64>, event: i64, target: Option<i64>, amount: u64): map<string, u64> {
    var byEvent := AddRaw(raw, EventKey(event), amount);
    if target.Some? then AddRaw(byEvent, TargetKey(event, target.value), amount) else byEvent
  }

  function AddNamed(t: Totals, event: i64, target: Option<i64>, amount: u64): Totals {
    if event == 100 then t.(damageByEnemy := SatAdd(t.damageByEnemy, amount))
    else if event == 101 then
      if target == Some(PLAYER_TARGET_ID) || target == Some(PLAYER_DAMAGE_TARGET_ID) then t
      else t.(raiderDamage := SatAdd(t.raiderDamage, amount))
    else if event == 102 then t.(damageByWeapon := SatAdd(t.damageByWeapon, amount))
    else if event == 200 then
      if target == Some(PLAYER_TARGET_ID) then t.(eliminations := SatAdd(t.eliminations, amount))
      else t.(arcEliminations := SatAdd(t.arcEliminations, amount))
    else if event == 204 then t.(downs := SatAdd(t.downs, amount))
    else if event == 400 then t.(revives := SatAdd(t.revives, amount))
    else if event == 501 then t.(containersLooted := SatAdd(t.containersLooted, amount))
    else if event == 600 then t.(itemsCrafted := SatAdd(t.itemsCrafted, amount))
    else if event == 9800 then t.(raids := SatAdd(t.raids, amount))
    else if event == 9801 then t.(extractions := SatAdd(t.extractions, amount))
    else if event == 9802 then t.(deaths := SatAdd(t.deaths, amount))
    else if event == 9803 then t.(durationMs := SatAdd(t.durationMs, amount))
    else if event == 9804 then t.(valueBroughtIn := SatAdd(t.valueBroughtIn, amount))
    else if event == 9805 then t.(lootValue := SatAdd(t.lootValue, amount))
    else if event == 9902 then t.(xpGained := SatAdd(t.xpGained, amount))
    else t
  }

  predicate IsKnown(event: i64) {
    event in {100, 101, 102, 200, 204, 400, 501, 600, 9800, 9801, 9802, 9803, 9804, 9805, 9902}
  }

  datatype Normalized = Normalized(totals: Totals, unknown: u64)

  function AddRow(n: Normalized, row: Row): Normalized {
    match row.event
    case None => n.(unknown := SatAdd(n.unknown, 1))
    case Some(event) =>
      var named := AddNamed(n.totals, event, row.target, row.amount);
      Normalized(named.(raw := AddRawRow(n.totals.raw, event, row.target, row.amount)),
                 if IsKnown(event) then n.unknown else SatAdd(n.unknown, 1))
  }

  function Normalize(rows: seq<Row>): Normalized {
    if rows == [] then Normalized(NO_TOTALS, 0)
    else AddRow(Normalize(rows[..|rows| - 1]), rows[|rows| - 1])
  }

  /** The source enters the aggregates first; the order makes no difference. */
  lemma AddRowInTwo(t: Totals, unknown: u64, row: Row)
    ensures row.event.Some? ==>
      AddRow(Normalized(t, unknown), row)
      == Normalized(AddNamed(t.(raw := AddRawRow(t.raw, row.event.value, row.target, row.amount)),
                             row.event.value, row.target, row.amount),
                    if IsKnown(row.event.value) then unknown else SatAdd(unknown, 1))
    ensures row.event.None? ==> AddRow(Normalized(t, unknown), row) == Normalized(t, SatAdd(unknown, 1))
  {
    hide AddRawRow, SatAdd;
  }

  lemma NormalizeOneMore(rows: seq<Row>, i: nat)
    requires i < |rows|
    ensures Normalize(rows[..i + 1]) == AddRow(Normalize(rows[..i]), rows[i])
  {
    hide AddRow;
    assert rows[..i + 1][..i] == rows[..i];
  }

  /** The source's loop over the rows. */
  method NormalizeRows(rows: seq<Row>) returns (totals: Totals, unknown: u64)
    ensures Normalized(totals, unknown) == Normalize(rows)
  {
    totals, unknown := NO_TOTALS, 0;
    hide AddRow, AddNamed, AddRawRow, IsKnown, SatAdd;
    for i := 0 to |rows|
      invariant Normalized(totals, unknown) == Normalize(rows[..i])
    {
      var row := rows[i];
      NormalizeOneMore(rows, i);
      AddRowInTwo(totals, unknown, row);
      if row.event.None? {
        unknown := SatAdd(unknown, 1);
      } else {
        var event := row.event.value;
        totals := totals.(raw := AddRawRow(totals.raw, event, row.target, row.amount));
        totals := AddNamed(totals, event, row.target, row.amount);
        if !IsKnown(event) {
          unknown := SatAdd(unknown, 1);
        }
      }
    }
    assert rows[..|rows|] == rows;
  }

  // ----- what the loop adds up to -----

  datatype Stat =
    | Raids | Extractions | Eliminations | Deaths | LootValue | ArcEliminations | Downs | Revives
    | ContainersLooted | ItemsCrafted | DamageByEnemy | DamageByWeapon | RaiderDamage | DurationMs
    | ValueBroughtIn | XpGained | Unknown | Raw(key: string)

  function Get(n: Normalized, s: Stat): u64 {
    match s
    case Raids => n.totals.raids
    case Extractions => n.totals.extractions
    case Eliminations => n.totals.eliminations
    case Deaths => n.totals.deaths
    case LootValue => n.totals.lootValue
    case ArcEliminations => n.totals.arcEliminations
    case Downs => n.totals.downs
    case Revives => n.totals.revives
    case ContainersLooted => n.totals.containersLooted
    case ItemsCrafted => n.totals.itemsCrafted
    case DamageByEnemy => n.totals.damageByEnemy
    case DamageByWeapon => n.totals.damageByWeapon
    case RaiderDamage => n.totals.raiderDamage
    case DurationMs => n.totals.durationMs
    case ValueBroughtIn => n.totals.valueBroughtIn
    case XpGained => n.totals.xpGained
    case Unknown => n.unknown
    case Raw(key) => Lookup(n.totals.raw, key)
  }

  /** The event a plainly counted total stands for. */
  function EventOf(s: Stat): Option<i64> {
    match s
    case Raids => Some(9800)
    case Extractions => Some(9801)
    case Deaths => Some(9802)
    case DurationMs => Some(9803)
    case ValueBroughtIn => Some(9804)
    case LootValue => Some(9805)
    case XpGained => Some(9902)
    case Downs => Some(204)
    case Revives => Some(400)
    case ContainersLooted => Some(501)
    case ItemsCrafted => Some(600)
    case DamageByEnemy => Some(100)
    case DamageByWeapon => Some(102)
    case _ => None
  }

  /** Whether a row is one of those a total is about. */
  predicate About(s: Stat, row: Row) {
    match s
    case Unknown =>
      row.event.None?
      || row.event.value !in {100, 101, 102, 200, 204, 400, 501, 600, 9800, 9801, 9802, 9803, 9804, 9805, 9902}
    case Raw(key) =>
      row.event.Some?
      && (key == EventKey(row.event.value)
          || (row.target.Some? && key == TargetKey(row.event.value, row.target.value)))
    case Eliminations => row.event == Some(200) && row.target == Some(PLAYER_TARGET_ID)
    case ArcEliminations => row.event == Some(200) && row.target != Some(PLAYER_TARGET_ID)
    case RaiderDamage =>
      row.event == Some(101)
      && row.target != Some(PLAYER_TARGET_ID) && row.target != Some(PLAYER_DAMAGE_TARGET_ID)
    case _ => row.event.Some? && EventOf(s) == row.event
  }

  function Weight(s: Stat, row: Row): nat {
    if !About(s, row) then 0 else if s.Unknown? then 1 else row.amount
  }

  /** The exact, unlimited sum a total stands for. */
  function Sum(s: Stat, rows: seq<Row>): nat {
    if rows == [] then 0 else Sum(s, rows[..|rows| - 1]) + Weight(s, rows[|rows| - 1])
  }

  function Capped(n: nat): u64 { Min(n, U64_MAX) }

  // ----- printed keys are unambiguous -----

  lemma IntTextChars(n: int)
    ensures IntText(n) != [] && '.' !in IntText(n)
    ensures IntText(n)[0] == '-' <==> n < 0
  {
    hide Digits;
    var digits := Digits(if n < 0 then -n else n, 10);
    assert '.' !in digits && digits[0] != '-';
  }

  lemma IntTextIs(n: int)
    ensures IntText(n) != []
    ensures n < 0 ==> IntText(n)[0] == '-' && IntText(n)[1..] == Digits(-n, 10)
    ensures n >= 0 ==> IntText(n)[0] != '-' && IntText(n) == Digits(n, 10)
  {
    hide Digits;
    IntTextChars(n);
  }

  lemma IntTextInjective(a: int, b: int)
    requires IntText(a) == IntText(b)
    ensures a == b
  {
    hide Digits, IntText;
    IntTextIs(a);
    IntTextIs(b);
    DigitsRoundTrip(if a < 0 then -a else a, 10);
    DigitsRoundTrip(if b < 0 then -b else b, 10);
  }

  lemma EventKeyInjective(a: int, b: int)
    requires EventKey(a) == EventKey(b)
    ensures a == b
  {
    hide IntText;
    assert EventKey(a)[6..] == IntText(a) && EventKey(b)[6..] == IntText(b);
    IntTextInjective(a, b);
  }

  lemma EventKeyIsNoTargetKey(a: int, event: int, target: int)
    ensures EventKey(a) != TargetKey(event, target)
  {
    hide IntText;
    IntTextChars(a);
    var key := TargetKey(event, target);
    var dot := 6 + |IntText(event)|;
    assert key[dot] == '.';
  }

  lemma TargetKeyInjective(e1: int, t1: int, e2: int, t2: int)
    requires TargetKey(e1, t1) == TargetKey(e2, t2)
    ensures e1 == e2 && t1 == t2
  {
    hide IntText;
    IntTextChars(e1);
    IntTextChars(e2);
    var key, i1, i2 := TargetKey(e1, t1), IntText(e1), IntText(e2);
    var n1, n2 := |i1|, |i2|;
    assert key[6 + n1] == '.' && key[6 + n2] == '.';
    assert n1 == n2;
    assert key[6..6 + n1] == i1 && key[6..6 + n2] == i2;
    IntTextInjective(e1, e2);
    assert key[6 + n1 + 8..] == IntText(t1) && key[6 + n2 + 8..] == IntText(t2);
    IntTextInjective(t1, t2);
  }

  // ----- the loop computes capped sums -----

  lemma AddRawStep(raw: map<string, u64>, event: i64, target: Option<i64>, amount: u64, key: string)
    ensures
      Lookup(AddRawRow(raw, event, target, amount), key)
      == Capped(Lookup(raw, key) + Weight(Raw(key), Row(Some(event), target, amount)))
  {
    hide EventKey, TargetKey;
    if target.Some? {
      EventKeyIsNoTargetKey(event, event, target.value);
    }
  }

  lemma AddRowStep(n: Normalized, row: Row, s: Stat)
    ensures Get(AddRow(n, row), s) == Capped(Get(n, s) + Weight(s, row))
  {
    hide EventKey, TargetKey, AddRawRow;
    if s.Raw? && row.event.Some? {
      AddRawStep(n.totals.raw, row.event.value, row.target, row.amount, s.key);
    }
  }

  /** Every total is the exact sum of the rows it is about, limited to what fits. */
  lemma {:induction false} TotalsAreCappedSums(rows: seq<Row>, s: Stat)
    ensures Get(Normalize(rows), s) == Capped(Sum(s, rows))
  {
    hide AddRow, Weight, Get;
    if rows == [] {
      NothingCounted(s);
    } else {
      TotalsAreCappedSums(rows[..|rows| - 1], s);
      AddRowStep(Normalize(rows[..|rows| - 1]), rows[|rows| - 1], s);
    }
  }

  lemma NothingCounted(s: Stat)
    ensures Get(Normalized(NO_TOTALS, 0), s) == 0
  {
  }

  // ----- the order of the rows does not matter -----

  lemma {:induction false} SumAppend(s: Stat, a: seq<Row>, b: seq<Row>)
    ensures Sum(s, a + b) == Sum(s, a) + Sum(s, b)
    decreases |b|
  {
    hide Weight;
    if b == [] {
      assert a + b == a;
    } else {
      assert (a + b)[..|a + b| - 1] == a + b[..|b| - 1];
      SumAppend(s, a, b[..|b| - 1]);
    }
  }

  /** Taking one row out of the middle takes its weight out of the sum. */
  lemma SumWithout(s: Stat, front: seq<Row>, row: Row, back: seq<Row>)
    ensures Sum(s, front + [row] + back) == Sum(s, front + back) + Weight(s, row)
  {
    hide Weight;
    SumAppend(s, front + [row], back);
    SumAppend(s, front, back);
    assert (front + [row])[..|front|] == front;
  }

  lemma MultisetWithout(front: seq<Row>, row: Row, back: seq<Row>)
    ensures multiset(front + back) == multiset(front + [row] + back) - multiset{row}
  {
  }

  lemma SplitAround(rows: seq<Row>, row: Row) returns (front: seq<Row>, back: seq<Row>)
    requires row in multiset(rows)
    ensures rows == front + [row] + back
  {
    var i :| 0 <= i < |rows| && rows[i] == row;
    front, back := rows[..i], rows[i + 1..];
  }

  lemma {:induction false} SumOfPermutation(s: Stat, a: seq<Row>, b: seq<Row>)
    requires multiset(a) == multiset(b)
    ensures Sum(s, a) == Sum(s, b)
    decreases |a|
  {
    hide Weight, Sum;
    if a == [] {
      assert |multiset(b)| == 0;
    } else {
      var first, last := a[..|a| - 1], a[|a| - 1];
      SplitsAtLast(a);
      var front, back := SplitAround(b, last);
      MultisetWithout(first, last, []);
      MultisetWithout(front, last, back);
      SumWithout(s, first, last, []);
      SumWithout(s, front, last, back);
      SumOfPermutation(s, first, front + back);
    }
  }

  lemma SplitsAtLast(a: seq<Row>)
    requires a != []
    ensures
      var first, last := a[..|a| - 1], a[|a| - 1];
      a == first + [last] + [] && first + [] == first && last in multiset(a)
  {
  }

  lemma {:induction false} RawKeys(rows: seq<Row>, key: string)
    ensures key in Normalize(rows).totals.raw <==> exists r :: r in multiset(rows) && About(Raw(key), r)
  {
    hide EventKey, TargetKey;
    if rows != [] {
      var front, last := rows[..|rows| - 1], rows[|rows| - 1];
      RawKeys(front, key);
      assert rows == front + [last];
      assert multiset(rows) == multiset(front) + multiset{last};
      assert key in Normalize(rows).totals.raw
        <==> key in Normalize(front).totals.raw || About(Raw(key), last);
    }
  }

  /** Rows in any order give the same totals, the same keys and the same count of
      unknown rows. */
  lemma OrderDoesNotMatter(a: seq<Row>, b: seq<Row>)
    requires multiset(a) == multiset(b)
    ensures Normalize(a) == Normalize(b)
  {
    hide Normalize, Sum, About, Get;
    forall s
      ensures Get(Normalize(a), s) == Get(Normalize(b), s)
    {
      TotalsAreCappedSums(a, s);
      TotalsAreCappedSums(b, s);
      SumOfPermutation(s, a, b);
    }
    forall key
      ensures key in Normalize(a).totals.raw <==> key in Normalize(b).totals.raw
    {
      RawKeys(a, key);
      RawKeys(b, key);
    }
    SameEverywhere(Normalize(a), Normalize(b));
  }

  lemma SamePlay(a: Normalized, b: Normalized)
    requires forall s :: Get(a, s) == Get(b, s)
    ensures a.totals.raids == b.totals.raids && a.totals.extractions == b.totals.extractions
    ensures a.totals.eliminations == b.totals.eliminations && a.totals.deaths == b.totals.deaths
    ensures a.totals.lootValue == b.totals.lootValue && a.totals.arcEliminations == b.totals.arcEliminations
    ensures a.totals.downs == b.totals.downs && a.totals.revives == b.totals.revives
  {
    assert Get(a, Raids) == Get(b, Raids) && Get(a, Extractions) == Get(b, Extractions);
    assert Get(a, Eliminations) == Get(b, Eliminations) && Get(a, Deaths) == Get(b, Deaths);
    assert Get(a, LootValue) == Get(b, LootValue) && Get(a, ArcEliminations) == Get(b, ArcEliminations);
    assert Get(a, Downs) == Get(b, Downs) && Get(a, Revives) == Get(b, Revives);
  }

  lemma SameRest(a: Normalized, b: Normalized)
    requires forall s :: Get(a, s) == Get(b, s)
    ensures a.totals.containersLooted == b.totals.containersLooted && a.totals.itemsCrafted == b.totals.itemsCrafted
    ensures a.totals.damageByEnemy == b.totals.damageByEnemy && a.totals.damageByWeapon == b.totals.damageByWeapon
    ensures a.totals.raiderDamage == b.totals.raiderDamage && a.totals.durationMs == b.totals.durationMs
    ensures a.totals.valueBroughtIn == b.totals.valueBroughtIn && a.totals.xpGained == b.totals.xpGained
    ensures a.unknown == b.unknown
  {
    assert Get(a, ContainersLooted) == Get(b, ContainersLooted) && Get(a, ItemsCrafted) == Get(b, ItemsCrafted);
    assert Get(a, DamageByEnemy) == Get(b, DamageByEnemy) && Get(a, DamageByWeapon) == Get(b, DamageByWeapon);
    assert Get(a, RaiderDamage) == Get(b, RaiderDamage) && Get(a, DurationMs) == Get(b, DurationMs);
    assert Get(a, ValueBroughtIn) == Get(b, ValueBroughtIn) && Get(a, XpGained) == Get(b, XpGained);
    assert Get(a, Unknown) == Get(b, Unknown);
  }

  lemma RawValue(n: Normalized, key: string)
    ensures Get(n, Raw(key)) == Lookup(n.totals.raw, key)
  {
  }

  lemma SameEverywhere(a: Normalized, b: Normalized)
    requires forall s :: Get(a, s) == Get(b, s)
    requires forall key :: key in a.totals.raw <==> key in b.totals.raw
    ensures a == b
  {
    hide Get;
    SamePlay(a, b);
    SameRest(a, b);
    forall key | key in a.totals.raw
      ensures a.totals.raw[key] == b.totals.raw[key]
    {
      RawValue(a, key);
      RawValue(b, key);
      assert Get(a, Raw(key)) == Get(b, Raw(key));
    }
    assert a.totals.raw == b.totals.raw;
  }

  // ----- named totals and raw keys -----

  /** The raw key that holds the same aggregate as a named total. */
  function KeyOf(s: Stat): Option<string> {
    if s.Eliminations? then Some(TargetKey(200, PLAYER_TARGET_ID))
    else match EventOf(s)
      case None => None
      case Some(event) => Some(EventKey(event))
  }

  lemma SameRowsCount(s: Stat, row: Row)
    requires KeyOf(s).Some?
    ensures Weight(s, row) == Weight(Raw(KeyOf(s).value), row)
  {
    hide EventKey, TargetKey;
    if row.event.Some? {
      var event := row.event.value;
      if s.Eliminations? {
        EventKeyIsNoTargetKey(event, 200, PLAYER_TARGET_ID);
        if row.target.Some? && KeyOf(s).value == TargetKey(event, row.target.value) {
          TargetKeyInjective(200, PLAYER_TARGET_ID, event, row.target.value);
        }
      } else {
        var own := EventOf(s).value;
        if EventKey(own) == EventKey(event) { EventKeyInjective(own, event); }
        if row.target.Some? { EventKeyIsNoTargetKey(own, event, row.target.value); }
      }
    }
  }

  lemma {:induction false} SameSums(s: Stat, rows: seq<Row>)
    requires KeyOf(s).Some?
    ensures Sum(s, rows) == Sum(Raw(KeyOf(s).value), rows)
  {
    hide Weight, KeyOf;
    if rows != [] {
      SameSums(s, rows[..|rows| - 1]);
      SameRowsCount(s, rows[|rows| - 1]);
    }
  }

  /** A named total and its raw key always hold the same number, even when both
      have run into their limit. */
  lemma NamedTotalIsRawTotal(rows: seq<Row>, s: Stat)
    requires KeyOf(s).Some?
    ensures Get(Normalize(rows), s) == Lookup(Normalize(rows).totals.raw, KeyOf(s).value)
  {
    hide KeyOf, Normalize, Sum;
    TotalsAreCappedSums(rows, s);
    TotalsAreCappedSums(rows, Raw(KeyOf(s).value));
    SameSums(s, rows);
  }

  lemma OneMoreDigit(n: nat, d: nat)
    requires n > 0 && d < 10
    ensures Digits(n * 10 + d, 10) == Digits(n, 10) + [DigitChar(d)]
  {
    assert Quotient(n * 10 + d, 10) == n && Remainder(n * 10 + d, 10) == d;
  }

  lemma OneDigit(a: nat)
    requires a < 10
    ensures Digits(a, 10) == [DigitChar(a)]
  {
  }

  lemma ThreeDigits(a: nat, b: nat, c: nat)
    requires 0 < a < 10 && b < 10 && c < 10
    ensures Digits((a * 10 + b) * 10 + c, 10) == [DigitChar(a), DigitChar(b), DigitChar(c)]
  {
    hide Digits, DigitChar;
    OneDigit(a);
    OneMoreDigit(a, b);
    OneMoreDigit(a * 10 + b, c);
  }

  /** The keys as the rest of the source writes them. */
  lemma PrintedKeys()
    ensures EventKey(101) == "event.101" && EventKey(204) == "event.204"
    ensures EventKey(9801) == "event.9801" && EventKey(9802) == "event.9802"
    ensures EventKey(9804) == "event.9804" && EventKey(9805) == "event.9805"
  {
    hide Digits;
    ThreeDigits(1, 0, 1);
    ThreeDigits(2, 0, 4);
    ThreeDigits(9, 8, 0);
    OneMoreDigit(980, 1);
    OneMoreDigit(980, 2);
    OneMoreDigit(980, 4);
    OneMoreDigit(980, 5);
  }

  lemma PrintedDamageAndKills()
    ensures IntText(101) == "101" && IntText(200) == "200"
  {
    hide Digits;
    ThreeDigits(1, 0, 1);
    ThreeDigits(2, 0, 0);
  }

  lemma PrintedPlayerTargets()
    ensures IntText(PLAYER_TARGET_ID) == "995408715"
    ensures IntText(PLAYER_DAMAGE_TARGET_ID) == "200993951"
  {
    hide Digits;
    ThreeDigits(9, 9, 5);
    OneMoreDigit(995, 4);
    OneMoreDigit(9954, 0);
    OneMoreDigit(99540, 8);
    OneMoreDigit(995408, 7);
    OneMoreDigit(9954087, 1);
    OneMoreDigit(99540871, 5);
    ThreeDigits(2, 0, 0);
    OneMoreDigit(200, 9);
    OneMoreDigit(2009, 9);
    OneMoreDigit(20099, 3);
    OneMoreDigit(200993, 9);
    OneMoreDigit(2009939, 5);
    OneMoreDigit(20099395, 1);
  }

  lemma PrintedTargetKeys()
    ensures TargetKey(200, PLAYER_TARGET_ID) == "event.200.target.995408715"
    ensures TargetKey(101, PLAYER_TARGET_ID) == "event.101.target.995408715"
    ensures TargetKey(101, PLAYER_DAMAGE_TARGET_ID) == "event.101.target.200993951"
  {
    hide IntText;
    PrintedPlayerTargets();
    PrintedDamageAndKills();
  }

  /** The named totals a stream counts are the ones a session can look up. */
  predicate Agree(t: Totals) {
    t.downs == Lookup(t.raw, "event.204") && t.extractions == Lookup(t.raw, "event.9801")
    && t.deaths == Lookup(t.raw, "event.9802") && t.valueBroughtIn == Lookup(t.raw, "event.9804")
    && t.lootValue == Lookup(t.raw, "event.9805")
    && t.eliminations == Lookup(t.raw, "event.200.target.995408715")
  }

  lemma NormalizedAgree(rows: seq<Row>)
    ensures Agree(Normalize(rows).totals)
  {
    hide Normalize, EventKey, TargetKey;
    PrintedKeys();
    PrintedTargetKeys();
    NamedTotalIsRawTotal(rows, Downs);
    NamedTotalIsRawTotal(rows, Extractions);
    NamedTotalIsRawTotal(rows, Deaths);
    NamedTotalIsRawTotal(rows, ValueBroughtIn);
    NamedTotalIsRawTotal(rows, LootValue);
    NamedTotalIsRawTotal(rows, Eliminations);
  }

  /** When totals and baseline both agree, so do the stream counters. */
  lemma CountersAgree(now: Totals, base: Totals)
    requires Agree(now) && Agree(base)
    ensures
      var c := SessionDelta(now, base);
      c.downs == Lookup(c.raw, "event.204") && c.extractions == Lookup(c.raw, "event.9801")
      && c.deaths == Lookup(c.raw, "event.9802") && c.lootValue == Lookup(c.raw, "event.9805")
  {
    hide RawDelta, Lookup;
    LookupDelta(now.raw, base.raw, "event.204");
    LookupDelta(now.raw, base.raw, "event.9801");
    LookupDelta(now.raw, base.raw, "event.9802");
    LookupDelta(now.raw, base.raw, "event.9805");
  }

  /** All damage to targets is damage to raiders plus damage to the two player
      targets. */
  lemma {:induction false} DamageSplits(rows: seq<Row>)
    ensures
      Sum(Raw(EventKey(101)), rows)
      == Sum(RaiderDamage, rows) + Sum(Raw(TargetKey(101, PLAYER_TARGET_ID)), rows)
         + Sum(Raw(TargetKey(101, PLAYER_DAMAGE_TARGET_ID)), rows)
  {
    hide Weight, EventKey, TargetKey;
    if rows != [] {
      DamageSplits(rows[..|rows| - 1]);
      DamageOfRow(rows[|rows| - 1]);
    }
  }

  lemma DamageOfRow(row: Row)
    ensures
      Weight(Raw(EventKey(101)), row)
      == Weight(RaiderDamage, row) + Weight(Raw(TargetKey(101, PLAYER_TARGET_ID)), row)
         + Weight(Raw(TargetKey(101, PLAYER_DAMAGE_TARGET_ID)), row)
  {
    hide EventKey, TargetKey;
    if row.event.Some? {
      var event := row.event.value;
      EventKeyIsNoTargetKey(event, 101, PLAYER_TARGET_ID);
      EventKeyIsNoTargetKey(event, 101, PLAYER_DAMAGE_TARGET_ID);
      if EventKey(101) == EventKey(event) { EventKeyInjective(101, event); }
      if row.target.Some? {
        var target := row.target.value;
        EventKeyIsNoTargetKey(101, event, target);
        if TargetKey(101, PLAYER_TARGET_ID) == TargetKey(event, target) {
          TargetKeyInjective(101, PLAYER_TARGET_ID, event, target);
        }
        if TargetKey(101, PLAYER_DAMAGE_TARGET_ID) == TargetKey(event, target) {
          TargetKeyInjective(101, PLAYER_DAMAGE_TARGET_ID, event, target);
        }
      }
    }
  }

  // ----- a whole response -----

  predicate IsAsciiLetterOrDigit(c: char) {
    '0' <= c <= '9' || 'a' <= c <= 'z' || 'A' <= c <= 'Z'
  }

  function Letters(s: string): string {
    if s == [] then []
    else (if IsAsciiLetterOrDigit(s[0]) then [LowerChar(s[0])] else []) + Letters(s[1..])
  }

  predicate IsTodayScope(scope: Scope) {
    Letters(scope.discriminant) in {"day", "daily", "today", "currentday", "calendarday"}
  }

  /** The letters and digits of `d` spell `word`, in either case and with anything that is
      neither between them. */
  predicate Spells(d: string, word: string) {
    if d == "" then word == ""
    else if '0' <= d[0] <= '9' || 'a' <= d[0] <= 'z' then word != "" && word[0] == d[0] && Spells(d[1..], word[1..])
    else if 'A' <= d[0] <= 'Z' then
      word != "" && word[0] as int == d[0] as int + 32 && Spells(d[1..], word[1..])
    else Spells(d[1..], word)
  }

  lemma {:induction false} LettersSpell(d: string, word: string)
    ensures Letters(d) == word <==> Spells(d, word)
  {
    if d != "" {
      if IsAsciiLetterOrDigit(d[0]) {
        var first := LowerChar(d[0]);
        assert Letters(d) == [first] + Letters(d[1..]);
        if word != "" {
          LettersSpell(d[1..], word[1..]);
          assert word == [word[0]] + word[1..];
        }
      } else {
        assert [] + Letters(d[1..]) == Letters(d[1..]);
        LettersSpell(d[1..], word);
      }
    }
  }

  /** A scope is a day's exactly when its name spells one of the five words. */
  lemma DayScopesExactly(scope: Scope)
    ensures IsTodayScope(scope) <==>
      Spells(scope.discriminant, "day") || Spells(scope.discriminant, "daily")
      || Spells(scope.discriminant, "today") || Spells(scope.discriminant, "currentday")
      || Spells(scope.discriminant, "calendarday")
  {
    hide Letters, Spells;
    LettersSpell(scope.discriminant, "day");
    LettersSpell(scope.discriminant, "daily");
    LettersSpell(scope.discriminant, "today");
    LettersSpell(scope.discriminant, "currentday");
    LettersSpell(scope.discriminant, "calendarday");
  }

  function FirstToday(scopes: seq<Scope>): Option<Scope> {
    if scopes == [] then None
    else if IsTodayScope(scopes[0]) then Some(scopes[0])
    else FirstToday(scopes[1..])
  }

  function TodayOf(scopes: seq<Scope>): Today {
    match FirstToday(scopes)
    case None => NO_TODAY
    case Some(scope) =>
      match scope.rows
      case None => NO_TODAY
      case Some(rows) =>
        var t := Normalize(rows).totals;
        Today(t.extractions, t.deaths, true, t.raw)
  }

  const NO_LOOK: Look := Look("", 0, "", (0, 0, 0), 0)

  datatype Response = Response(overlay: OverlayStats, unknown: u64)

  /** None is the source's error for a response without the account scope. */
  function NormalizePlayerStats(document: Document): Option<Response> {
    if document.scopes.None? || document.scopes.value == [] || document.scopes.value[0].rows.None? then None
    else
      var scopes, rows := document.scopes.value, document.scopes.value[0].rows.value;
      var n := Normalize(rows);
      Some(Response(OverlayStats("live", "account", NO_LOOK, n.totals, Capped(|rows|), NO_COUNTERS,
                                 TodayOf(scopes[1..]), []),
                    n.unknown))
  }

  /** What the session machine may rely on in a normalised response. */
  predicate IsResponse(overlay: OverlayStats) {
    overlay.mode == "live" && Agree(overlay.totals) && Neutral(overlay.totals)
  }

  lemma AgreeingIsNeutral(t: Totals)
    requires Agree(t)
    ensures Neutral(t)
  {
  }

  lemma {:induction false} FirstTodayIs(scopes: seq<Scope>)
    ensures FirstToday(scopes).Some? ==>
      exists k :: 0 <= k < |scopes| && FirstToday(scopes) == Some(scopes[k])
                  && IsTodayScope(scopes[k]) && forall j :: 0 <= j < k ==> !IsTodayScope(scopes[j])
  {
    hide IsTodayScope;
    if scopes != [] && !IsTodayScope(scopes[0]) {
      FirstTodayIs(scopes[1..]);
      if FirstToday(scopes).Some? {
        var rest := scopes[1..];
        var k :| 0 <= k < |rest| && FirstToday(rest) == Some(rest[k])
                 && IsTodayScope(rest[k]) && forall j :: 0 <= j < k ==> !IsTodayScope(rest[j]);
        assert scopes[k + 1] == rest[k];
        assert forall j :: 0 < j < k + 1 ==> scopes[j] == rest[j - 1];
      }
    }
  }

  lemma {:induction false} FirstTodayAt(scopes: seq<Scope>, k: nat)
    requires k < |scopes| && IsTodayScope(scopes[k]) && forall j :: 0 <= j < k ==> !IsTodayScope(scopes[j])
    ensures FirstToday(scopes) == Some(scopes[k])
    decreases |scopes|
  {
    hide IsTodayScope;
    if k > 0 {
      FirstTodayAt(scopes[1..], k - 1);
    }
  }

  /** Which scope is today's: the first one that says so, the account scope aside. */
  predicate IsToday(scopes: seq<Scope>, i: int) {
    1 <= i < |scopes| && IsTodayScope(scopes[i]) && forall j :: 1 <= j < i ==> !IsTodayScope(scopes[j])
  }

  /** Which documents are rejected: those without a first scope that carries rows. */
  lemma RejectedExactly(document: Document)
    ensures NormalizePlayerStats(document).None? <==>
      document.scopes.None? || document.scopes.value == [] || document.scopes.value[0].rows.None?
  {
  }

  /** A normalised response counts its rows, agrees with its aggregates, and has a day
      exactly when the first day scope carries rows, with that scope's own totals. */
  lemma ResponsesAreWellFormed(document: Document)
    requires NormalizePlayerStats(document).Some?
    ensures IsResponse(NormalizePlayerStats(document).value.overlay)
    ensures
      var o, scopes := NormalizePlayerStats(document).value.overlay, document.scopes.value;
      o.statsRows == Min(|scopes[0].rows.value|, U64_MAX)
      && o.totals == Normalize(scopes[0].rows.value).totals
      && NormalizePlayerStats(document).value.unknown == Normalize(scopes[0].rows.value).unknown
      && o.mode == "live" && o.preset == "account" && o.session == Counters(0, 0, 0, 0, 0, map[]) && o.presets == []
      && (o.today.available <==> exists i :: IsToday(scopes, i) && scopes[i].rows.Some?)
      && (!o.today.available ==> o.today == NO_TODAY)
      && forall i :: IsToday(scopes, i) && scopes[i].rows.Some? ==>
           var t := Normalize(scopes[i].rows.value).totals;
           o.today.extractions == t.extractions && o.today.deaths == t.deaths && o.today.raw == t.raw
  {
    hide Normalize, Agree, IsTodayScope;
    var scopes := document.scopes.value;
    FirstTodayIs(scopes[1..]);
    forall i | IsToday(scopes, i)
      ensures FirstToday(scopes[1..]) == Some(scopes[i])
    {
      assert scopes[1..][i - 1] == scopes[i];
      forall j | 0 <= j < i - 1
        ensures !IsTodayScope(scopes[1..][j])
      {
        assert scopes[1..][j] == scopes[j + 1];
      }
      FirstTodayAt(scopes[1..], i - 1);
    }
    if FirstToday(scopes[1..]).Some? {
      var k :| 0 <= k < |scopes[1..]| && FirstToday(scopes[1..]) == Some(scopes[1..][k])
               && IsTodayScope(scopes[1..][k]) && forall j :: 0 <= j < k ==> !IsTodayScope(scopes[1..][j]);
      forall j | 1 <= j < k + 1
        ensures !IsTodayScope(scopes[j])
      {
        assert scopes[1..][j - 1] == scopes[j];
      }
      assert IsToday(scopes, k + 1);
    }
    NormalizedAgree(document.scopes.value[0].rows.value);
    AgreeingIsNeutral(NormalizePlayerStats(document).value.overlay.totals);
  }
}

/** What the scanner takes for a statistics body and what the normaliser accepts. */
module StatsHandover {
  import opened Codecs
  import opened Framing
  import opened Connection
  import opened Overlay
  import opened Stats

  /** Whatever the scanner hands on normalises without error and counts rows; and a
      document it rejects either does not normalise or would have zeroed every
      total. */
  lemma HandedOnMeansCounted(codec: Codec, frame: Frame)
    requires DocumentOf(codec, frame).Some? && ParseStartLine(frame.head.start).status.Some?
    ensures
      var response := NormalizePlayerStats(DocumentOf(codec, frame).value);
      if IsStatsBody(codec, frame)
      then response.Some? && response.value.overlay.statsRows > 0 && IsResponse(response.value.overlay)
      else response.Some? ==> response.value.overlay.totals == NO_TOTALS
  {
    hide ParseStartLine, IsResponse;
    var document := DocumentOf(codec, frame).value;
    if NormalizePlayerStats(document).Some? {
      ResponsesAreWellFormed(document);
    }
  }
}
