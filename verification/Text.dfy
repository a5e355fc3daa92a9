/** The string operations the source takes from the Rust standard library. */
module Text {
  import opened Basics
  import opened Search

  /** `char::is_whitespace`: the Unicode White_Space property. */
  predicate IsWhitespace(c: char) {
    var n := c as int;
    9 <= n <= 13 || n == 32 || n == 0x85 || n == 0xA0 || n == 0x1680
    || 0x2000 <= n <= 0x200A || n == 0x2028 || n == 0x2029 || n == 0x202F
    || n == 0x205F || n == 0x3000
  }

  function TrimStart(s: string): string {
    if s != [] && IsWhitespace(s[0]) then TrimStart(s[1..]) else s
  }

  function TrimEnd(s: string): string {
    if s != [] && IsWhitespace(s[|s| - 1]) then TrimEnd(s[..|s| - 1]) else s
  }

  function Trim(s: string): string { TrimEnd(TrimStart(s)) }

  /** `trim_end_matches(c)`. */
  function TrimEndOf(s: string, c: char): string {
    if s != [] && s[|s| - 1] == c then TrimEndOf(s[..|s| - 1], c) else s
  }

  function LowerChar(c: char): char {
    if 'A' <= c <= 'Z' then (c as int + 32) as char else c
  }

  /** `to_ascii_lowercase`. */
  function Lower(s: string): (r: string)
    ensures |r| == |s|
  {
    seq(|s|, i requires 0 <= i < |s| => LowerChar(s[i]))
  }

  /** `split(separator)`: always at least one piece. */
  function Split(s: string, sep: string): (r: seq<string>)
    requires sep != []
    ensures r != []
    decreases |s|
  {
    match Find(s, sep)
    case None => [s]
    case Some(e) => [s[..e]] + Split(s[e + |sep|..], sep)
  }

  /** `split(c).next()`: everything before the first `c`. */
  function Before(s: string, c: char): string {
    match Find(s, [c])
    case None => s
    case Some(e) => s[..e]
  }

  predicate Contains(s: string, part: string)
    requires part != []
  {
    Find(s, part).Some?
  }

  /** The end of the leading run of non-whitespace characters. */
  function WordEnd(s: string): (n: nat)
    ensures n <= |s|
    ensures forall i :: 0 <= i < n ==> !IsWhitespace(s[i])
    ensures n < |s| ==> IsWhitespace(s[n])
  {
    if s == [] || IsWhitespace(s[0]) then 0 else 1 + WordEnd(s[1..])
  }

  /** `split_whitespace`. */
  function Words(s: string): seq<string>
    decreases |s|
  {
    if s == [] then []
    else if IsWhitespace(s[0]) then Words(s[1..])
    else [s[..WordEnd(s)]] + Words(s[WordEnd(s)..])
  }

  // ----- unsigned numbers in a radix up to sixteen -----

  function DigitValue(c: char, radix: nat): Option<nat>
    requires radix <= 16
  {
    var v := if '0' <= c <= '9' then c as int - '0' as int
             else if 'a' <= c <= 'z' then c as int - 'a' as int + 10
             else if 'A' <= c <= 'Z' then c as int - 'A' as int + 10
             else 36;
    if v < radix then Some(v) else None
  }

  function DigitsValue(s: string, radix: nat): Option<nat>
    requires radix <= 16
  {
    if s == [] then Some(0)
    else
      match (DigitsValue(s[..|s| - 1], radix), DigitValue(s[|s| - 1], radix))
      case (Some(high), Some(low)) => Some(high * radix + low)
      case _ => None
  }

  /** `from_str_radix` of an unsigned type with the given maximum: one leading
      plus is accepted, an empty digit string and an overflow are errors. */
  function ParseUnsigned(s: string, radix: nat, max: nat): Option<nat>
    requires radix <= 16
  {
    var digits := if |s| > 1 && s[0] == '+' then s[1..] else s;
    if digits == [] then None
    else match DigitsValue(digits, radix)
      case None => None
      case Some(v) => if v <= max then Some(v) else None
  }

  function DigitChar(d: nat): char
    requires d < 16
  {
    if d < 10 then (d + '0' as int) as char else (d - 10 + 'a' as int) as char
  }

  /** The two radices the source prints and reads. */
  type Radix = r: nat | r == 10 || r == 16 witness 10

  function Quotient(n: nat, radix: Radix): (q: nat)
    ensures n >= radix ==> q < n
  {
    if radix == 10 then n / 10 else n / 16
  }

  function Remainder(n: nat, radix: Radix): (d: nat)
    ensures d < radix
    ensures n == Quotient(n, radix) * radix + d
  {
    if radix == 10 then n % 10 else n % 16
  }

  /** The printed form of a number, without leading zeros. */
  function Digits(n: nat, radix: Radix): (s: string)
    ensures s != []
    ensures forall i :: 0 <= i < |s| ==> '0' <= s[i] <= '9' || 'a' <= s[i] <= 'f'
  {
    if n < radix then [DigitChar(n)]
    else Digits(Quotient(n, radix), radix) + [DigitChar(Remainder(n, radix))]
  }

  lemma {:induction false} DigitsRoundTrip(n: nat, radix: Radix)
    ensures DigitsValue(Digits(n, radix), radix) == Some(n)
  {
    hide DigitValue, DigitChar, Quotient, Remainder;
    var s := Digits(n, radix);
    if n < radix {
      assert s[..|s| - 1] == [];
      DigitOf(n, radix);
    } else {
      assert s[..|s| - 1] == Digits(Quotient(n, radix), radix);
      DigitsRoundTrip(Quotient(n, radix), radix);
      DigitOf(Remainder(n, radix), radix);
    }
  }

  lemma DigitOf(d: nat, radix: Radix)
    requires d < radix
    ensures DigitValue(DigitChar(d), radix) == Some(d)
  {
  }

  /** Printing then parsing gives the number back, unless it is too large. */
  lemma ParsePrinted(n: nat, radix: Radix, max: nat)
    ensures ParseUnsigned(Digits(n, radix), radix, max) == if n <= max then Some(n) else None
  {
    DigitsRoundTrip(n, radix);
  }

  // ----- what else is read as a number -----

  predicate IsDigit(c: char, radix: Radix) {
    '0' <= c <= '9' || (radix == 16 && ('a' <= c <= 'f' || 'A' <= c <= 'F'))
  }

  lemma {:induction false} OnlyDigitsCount(s: string, radix: Radix)
    ensures DigitsValue(s, radix).Some? <==> forall i :: 0 <= i < |s| ==> IsDigit(s[i], radix)
  {
    if s != "" {
      var n := |s| - 1;
      OnlyDigitsCount(s[..n], radix);
      assert DigitValue(s[n], radix).Some? <==> IsDigit(s[n], radix);
      assert forall i :: 0 <= i < n ==> s[i] == s[..n][i];
    }
  }

  /** A text is a number exactly when it is digits, at least one, with at most one plus in
      front, and no more than the type holds. */
  lemma NumbersExactly(s: string, radix: Radix, max: nat)
    ensures
      var digits := if |s| > 1 && s[0] == '+' then s[1..] else s;
      ParseUnsigned(s, radix, max).Some? <==>
        digits != "" && (forall i :: 0 <= i < |digits| ==> IsDigit(digits[i], radix))
        && DigitsValue(digits, radix).Some? && DigitsValue(digits, radix).value <= max
  {
    OnlyDigitsCount(if |s| > 1 && s[0] == '+' then s[1..] else s, radix);
  }

  lemma {:induction false} LeadingZeros(zeros: string, s: string, radix: Radix)
    requires forall i :: 0 <= i < |zeros| ==> zeros[i] == '0'
    ensures DigitsValue(zeros + s, radix) == DigitsValue(s, radix)
    decreases |s| + |zeros|
  {
    if s != "" {
      assert (zeros + s)[..|zeros + s| - 1] == zeros + s[..|s| - 1];
      LeadingZeros(zeros, s[..|s| - 1], radix);
    } else if zeros != "" {
      assert (zeros + s)[..|zeros| - 1] == zeros[..|zeros| - 1] + "";
      LeadingZeros(zeros[..|zeros| - 1], "", radix);
      assert zeros + s == zeros;
    } else {
      assert zeros + s == s;
    }
  }

  lemma {:induction false} CaseOfDigits(s: string, radix: Radix)
    ensures DigitsValue(Lower(s), radix) == DigitsValue(s, radix)
  {
    if s != "" {
      var n := |s| - 1;
      CaseOfDigits(s[..n], radix);
      assert Lower(s)[..n] == Lower(s[..n]);
      assert DigitValue(LowerChar(s[n]), radix) == DigitValue(s[n], radix);
    }
  }

  /** A number is read the same with a plus, leading zeros and letters in either case. */
  lemma NumbersInAnyForm(text: string, zeros: string, n: nat, radix: Radix, max: nat)
    requires (forall i :: 0 <= i < |zeros| ==> zeros[i] == '0') && Lower(text) == Digits(n, radix)
    ensures ParseUnsigned(zeros + text, radix, max) == if n <= max then Some(n) else None
    ensures ParseUnsigned("+" + zeros + text, radix, max) == if n <= max then Some(n) else None
  {
    hide ParseUnsigned, DigitsValue, Digits, Lower;
    DigitsRoundTrip(n, radix);
    CaseOfDigits(text, radix);
    LeadingZeros(zeros, text, radix);
    NoPlus(zeros, text, n, radix);
    WithOrWithoutPlus(zeros + text, radix, max);
    assert "+" + zeros + text == "+" + (zeros + text);
  }

  lemma WithOrWithoutPlus(s: string, radix: Radix, max: nat)
    requires s != "" && s[0] != '+' && DigitsValue(s, radix).Some?
    ensures
      var v := DigitsValue(s, radix).value;
      ParseUnsigned(s, radix, max) == (if v <= max then Some(v) else None)
      && ParseUnsigned("+" + s, radix, max) == if v <= max then Some(v) else None
  {
    hide DigitsValue;
    assert ("+" + s)[1..] == s;
  }

  lemma NoPlus(zeros: string, text: string, n: nat, radix: Radix)
    requires (forall i :: 0 <= i < |zeros| ==> zeros[i] == '0') && Lower(text) == Digits(n, radix)
    ensures zeros + text != "" && (zeros + text)[0] != '+'
  {
    assert Digits(n, radix)[0] == Lower(text)[0] == LowerChar(text[0]);
  }
}
