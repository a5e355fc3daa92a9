/** Types and constants shared by the whole model. */
module Basics {

  datatype Option<+T> = None | Some(value: T) {
    function GetOr(default: T): T {
      match this
      case Some(v) => v
      case None => default
    }
  }

  type byte = x: int | 0 <= x < 256
  type bytes = seq<byte>

  const U64_MAX: nat := 0xFFFF_FFFF_FFFF_FFFF
  const I64_MAX: nat := 0x7FFF_FFFF_FFFF_FFFF
  const I64_MIN: int := -0x8000_0000_0000_0000

  type u64 = x: int | 0 <= x <= U64_MAX
  type i64 = x: int | I64_MIN <= x <= I64_MAX

  function Min(a: int, b: int): int { if a <= b then a else b }

  function Max(a: int, b: int): int { if a >= b then a else b }

  /** `u64::saturating_add`. */
  function SatAdd(a: u64, b: u64): u64 { if a + b <= U64_MAX then a + b else U64_MAX }

  /** `u64::saturating_sub`. */
  function SatSub(a: u64, b: u64): u64 { if a >= b then a - b else 0 }

  lemma SliceOfSlice<T>(s: seq<T>, from: nat, to: nat, a: nat, b: nat)
    requires from <= to <= |s| && a <= b <= to - from
    ensures s[from..to][a..b] == s[from + a..from + b]
  {
    var left, right := s[from..to][a..b], s[from + a..from + b];
    forall i | 0 <= i < b - a
      ensures left[i] == right[i]
    {
      assert left[i] == s[from..to][a + i] == s[from + a + i];
    }
    assert left == right;
  }

  lemma DropAppend<T>(s: seq<T>, more: seq<T>, n: nat)
    ensures n <= |s| ==> (s + more)[n..] == s[n..] + more
    ensures |s| <= n <= |s| + |more| ==> (s + more)[n..] == more[n - |s|..]
  {
  }

  /** The last `n` elements, or all there are. */
  function LastFew<T>(s: seq<T>, n: nat): seq<T> { if |s| <= n then s else s[|s| - n..] }

  lemma LastOfLast<T>(a: seq<T>, b: seq<T>, n: nat)
    ensures LastFew(LastFew(a, n) + b, n) == LastFew(a + b, n)
  {
  }

  function Flatten<T>(pieces: seq<seq<T>>): seq<T> {
    if pieces == [] then [] else pieces[0] + Flatten(pieces[1..])
  }
}

/** Substring search, as `haystack.windows(n).position(..)` does it. */
module Search {
  import opened Basics

  predicate At<T(==)>(hay: seq<T>, needle: seq<T>, i: int) {
    0 <= i && i + |needle| <= |hay| && hay[i..i + |needle|] == needle
  }

  /** The first occurrence of `needle`, or None when there is none. */
  function Find<T(==)>(hay: seq<T>, needle: seq<T>): (r: Option<nat>)
    requires needle != []
    ensures r.Some? ==> At(hay, needle, r.value) && forall j :: 0 <= j < r.value ==> !At(hay, needle, j)
    ensures r.None? ==> forall j :: !At(hay, needle, j)
  {
    FindFrom(hay, needle, 0)
  }

  function FindFrom<T(==)>(hay: seq<T>, needle: seq<T>, from: nat): (r: Option<nat>)
    requires needle != [] && from <= |hay|
    ensures r.Some? ==> from <= r.value && At(hay, needle, r.value)
    ensures r.Some? ==> forall j :: from <= j < r.value ==> !At(hay, needle, j)
    ensures r.None? ==> forall j :: from <= j ==> !At(hay, needle, j)
    decreases |hay| - from
  {
    if from + |needle| > |hay| then None
    else if At(hay, needle, from) then Some(from)
    else FindFrom(hay, needle, from + 1)
  }

  lemma AtAppend<T>(hay: seq<T>, more: seq<T>, needle: seq<T>, i: int)
    requires i + |needle| <= |hay|
    ensures At(hay + more, needle, i) <==> At(hay, needle, i)
  {
    if 0 <= i {
      assert (hay + more)[i..i + |needle|] == hay[i..i + |needle|];
    }
  }

  lemma AtDrop<T>(hay: seq<T>, needle: seq<T>, from: nat, i: int)
    requires from <= |hay| && 0 <= i
    ensures At(hay[from..], needle, i) <==> At(hay, needle, from + i)
  {
    if from + i + |needle| <= |hay| {
      assert hay[from..][i..i + |needle|] == hay[from + i..from + i + |needle|];
    }
  }

  /** A position with the needle and none before it is what Find returns. */
  lemma FindIs<T>(hay: seq<T>, needle: seq<T>, e: nat)
    requires needle != []
    requires At(hay, needle, e) && forall j :: 0 <= j < e ==> !At(hay, needle, j)
    ensures Find(hay, needle) == Some(e)
  {
    assert Find(hay, needle).Some?;
  }

  /** An occurrence already in sight stays the first one when more arrives. */
  lemma FindStable<T>(hay: seq<T>, more: seq<T>, needle: seq<T>)
    requires needle != [] && Find(hay, needle).Some?
    ensures Find(hay + more, needle) == Find(hay, needle)
  {
    var e := Find(hay, needle).value;
    AtAppend(hay, more, needle, e);
    forall j | 0 <= j < e
      ensures !At(hay + more, needle, j)
    {
      AtAppend(hay, more, needle, j);
    }
    FindIs(hay + more, needle, e);
  }

  /** An occurrence that only appears with the new data ends inside the new data. */
  lemma FindLate<T>(hay: seq<T>, more: seq<T>, needle: seq<T>)
    requires needle != [] && Find(hay, needle).None? && Find(hay + more, needle).Some?
    ensures Find(hay + more, needle).value + |needle| > |hay|
  {
    var e := Find(hay + more, needle).value;
    if e + |needle| <= |hay| {
      AtAppend(hay, more, needle, e);
    }
  }

  lemma FindInPrefix<T>(hay: seq<T>, needle: seq<T>, n: nat)
    requires needle != [] && Find(hay, needle).Some?
    requires Find(hay, needle).value + |needle| <= n <= |hay|
    ensures Find(hay[..n], needle) == Find(hay, needle)
  {
    assert hay[..n] + hay[n..] == hay;
    if Find(hay[..n], needle).Some? {
      FindStable(hay[..n], hay[n..], needle);
    } else {
      FindLate(hay[..n], hay[n..], needle);
    }
  }

  lemma FindNothing<T>(hay: seq<T>, needle: seq<T>)
    requires needle != [] && needle[0] !in hay
    ensures Find(hay, needle).None?
  {
  }

  lemma NotAt<T>(hay: seq<T>, needle: seq<T>, i: nat)
    requires i < |hay| && needle != [] && hay[i] != needle[0]
    ensures !At(hay, needle, i)
  {
  }
}
