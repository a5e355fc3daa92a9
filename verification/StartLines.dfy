/** Printed start lines (sections 3 and 4 of RFC 9112), and what is read from them. */
module StartLines {
  import opened Basics
  import opened Text
  import opened Connection

  predicate IsWord(s: string) { s != "" && forall i :: 0 <= i < |s| ==> !IsWhitespace(s[i]) }

  predicate IsGap(s: string) { s != "" && forall i :: 0 <= i < |s| ==> IsWhitespace(s[i]) }

  /** Nothing, or blanks and then anything. */
  predicate IsRest(s: string) { s == "" || IsWhitespace(s[0]) }

  /** A request line up to and including its path; `rest` is the version, if any. */
  datatype RequestLine = RequestLine(verb: string, gap: string, path: string, rest: string)

  /** `rest` is the reason, if any. */
  datatype StatusLine = StatusLine(version: string, gap: string, code: nat, rest: string)

  predicate ValidRequest(r: RequestLine) {
    IsWord(r.verb) && !("HTTP/" <= r.verb) && IsGap(r.gap) && IsWord(r.path) && IsRest(r.rest)
  }

  predicate ValidStatus(l: StatusLine) {
    (l.version == "" || IsWord(l.version)) && IsGap(l.gap) && l.code <= U64_MAX && IsRest(l.rest)
  }

  function PrintRequest(r: RequestLine): string { r.verb + r.gap + r.path + r.rest }

  function PrintStatus(l: StatusLine): string { "HTTP/" + l.version + l.gap + Digits(l.code, 10) + l.rest }

  lemma {:induction false} WordEndIs(word: string, rest: string)
    requires forall i :: 0 <= i < |word| ==> !IsWhitespace(word[i])
    requires IsRest(rest)
    ensures WordEnd(word + rest) == |word|
  {
    hide IsWhitespace;
    if word == "" {
      assert word + rest == rest;
    } else {
      assert (word + rest)[1..] == word[1..] + rest;
      WordEndIs(word[1..], rest);
    }
  }

  lemma FirstWord(word: string, rest: string)
    requires IsWord(word) && IsRest(rest)
    ensures Words(word + rest) == [word] + Words(rest)
  {
    hide IsWhitespace;
    WordEndIs(word, rest);
    var s := word + rest;
    assert s[0] == word[0] && s[..|word|] == word && s[|word|..] == rest;
  }

  lemma {:induction false} NoWordYet(gap: string, rest: string)
    requires forall i :: 0 <= i < |gap| ==> IsWhitespace(gap[i])
    ensures Words(gap + rest) == Words(rest)
  {
    hide IsWhitespace;
    if gap == "" {
      assert gap + rest == rest;
    } else {
      assert (gap + rest)[1..] == gap[1..] + rest;
      NoWordYet(gap[1..], rest);
    }
  }

  lemma TwoWords(first: string, gap: string, second: string, rest: string)
    requires IsWord(first) && IsGap(gap) && IsWord(second) && IsRest(rest)
    ensures Words(first + gap + second + rest) == [first, second] + Words(rest)
  {
    hide IsWhitespace;
    assert first + gap + second + rest == first + (gap + (second + rest));
    assert (gap + (second + rest))[0] == gap[0];
    FirstWord(first, gap + (second + rest));
    NoWordYet(gap, second + rest);
    FirstWord(second, rest);
    assert [first] + ([second] + Words(rest)) == [first, second] + Words(rest);
  }

  lemma DigitsAreWord(n: nat)
    ensures IsWord(Digits(n, 10))
  {
  }

  /** A printed status line is read as its code, and as no request. */
  lemma StatusReadBack(l: StatusLine)
    requires ValidStatus(l)
    ensures ParseStartLine(PrintStatus(l)) == StartLine(None, None, Some(l.code))
  {
    hide Words, IsWhitespace, Digits, ParseUnsigned;
    DigitsAreWord(l.code);
    var first := "HTTP/" + l.version;
    VersionIsWord(l.version);
    TwoWords(first, l.gap, Digits(l.code, 10), l.rest);
    ParsePrinted(l.code, 10, U64_MAX);
    assert PrintStatus(l)[..5] == "HTTP/";
  }

  lemma VersionIsWord(version: string)
    requires version == "" || IsWord(version)
    ensures IsWord("HTTP/" + version)
  {
    assert IsWord("HTTP/");
  }

  /** A printed request line is read as its method and path, and has no status. */
  lemma RequestReadBack(r: RequestLine)
    requires ValidRequest(r)
    ensures ParseStartLine(PrintRequest(r)) == StartLine(Some(r.verb), Some(r.path), None)
  {
    hide Words, IsWhitespace;
    TwoWords(r.verb, r.gap, r.path, r.rest);
    NotHttp(r);
  }

  /** The start of a request line is its method's, or reaches into the gap. */
  lemma NotHttp(r: RequestLine)
    requires ValidRequest(r)
    ensures !("HTTP/" <= PrintRequest(r))
  {
    var line, http, n := PrintRequest(r), "HTTP/", |r.verb|;
    assert forall i :: 0 <= i < 5 ==> !IsWhitespace(http[i]);
    if n >= 5 {
      assert line[..5] == r.verb[..5];
    } else {
      assert line[n] == r.gap[0] != http[n];
    }
  }
}
