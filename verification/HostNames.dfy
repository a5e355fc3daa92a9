/** Which host names there are, what their normal form is, and which are the game's. */
module HostNames {
  import opened Basics
  import opened Search
  import opened Text
  import opened Hosts

  /** White space around a host does not count. */
  predicate IsSpace(s: string) { forall i :: 0 <= i < |s| ==> IsWhitespace(s[i]) }

  predicate IsDots(s: string) { forall i :: 0 <= i < |s| ==> s[i] == '.' }

  predicate IsName(s: string) { s != "" && forall i :: 0 <= i < |s| ==> IsHostChar(s[i]) }

  /** Letters in lower case, everything else as it is. */
  predicate IsLowered(r: string, name: string) {
    |r| == |name|
    && forall i :: 0 <= i < |r| ==>
         r[i] == if 'A' <= name[i] <= 'Z' then (name[i] as int + 32) as char else name[i]
  }

  /** What may stand behind a name: a port, before which even a dot belongs to the name,
      or dots and white space. */
  predicate IsBehind(name: string, tail: string)
    requires name != ""
  {
    (tail != "" && tail[0] == ':')
    || (name[|name| - 1] != '.' && exists n :: 0 <= n <= |tail| && IsDots(tail[..n]) && IsSpace(tail[n..]))
  }

  /** The host `text` stands for. */
  predicate StandsFor(text: string, r: string) {
    exists from, to :: 0 <= from < to <= |text| && IsParted(text, from, to) && IsLowered(r, text[from..to])
  }

  predicate IsParted(text: string, from: nat, to: nat)
    requires from < to <= |text|
  {
    IsSpace(text[..from]) && IsName(text[from..to]) && IsBehind(text[from..to], text[to..])
  }

  // ----- trimming, by what is left -----

  /** Where the text starts behind leading white space. */
  function StartOf(s: string): (k: nat)
    ensures k <= |s| && TrimStart(s) == s[k..] && IsSpace(s[..k])
    ensures k < |s| ==> !IsWhitespace(s[k])
  {
    if s != "" && IsWhitespace(s[0]) then
      var k := StartOf(s[1..]);
      assert s[1..][k..] == s[k + 1..];
      SpaceGrows(s, k);
      k + 1
    else 0
  }

  lemma SpaceGrows(s: string, k: nat)
    requires k < |s| && IsWhitespace(s[0]) && IsSpace(s[1..][..k])
    ensures IsSpace(s[..k + 1])
  {
    hide IsWhitespace;
    var front := s[..k + 1];
    forall i | 0 < i < |front|
      ensures IsWhitespace(front[i])
    {
      assert front[i] == s[1..][..k][i - 1];
    }
  }

  /** Where the text ends before trailing white space. */
  function EndOf(s: string): (m: nat)
    ensures m <= |s| && TrimEnd(s) == s[..m] && IsSpace(s[m..])
    ensures m > 0 ==> !IsWhitespace(s[m - 1])
  {
    var n := |s| - 1;
    if s != "" && IsWhitespace(s[n]) then
      var m := EndOf(s[..n]);
      assert s[..n][..m] == s[..m];
      SpaceEnds(s, m);
      m
    else |s|
  }

  lemma SpaceEnds(s: string, m: nat)
    requires s != "" && m <= |s| - 1 && IsWhitespace(s[|s| - 1]) && IsSpace(s[..|s| - 1][m..])
    ensures IsSpace(s[m..])
  {
    hide IsWhitespace;
    assert forall i :: 0 <= i < |s| - 1 - m ==> s[m..][i] == s[..|s| - 1][m..][i];
  }

  /** Where the text ends before trailing dots. */
  function DotsFrom(s: string): (m: nat)
    ensures m <= |s| && TrimEndOf(s, '.') == s[..m] && IsDots(s[m..])
    ensures m > 0 ==> s[m - 1] != '.'
  {
    var n := |s| - 1;
    if s != "" && s[n] == '.' then
      var m := DotsFrom(s[..n]);
      assert s[..n][..m] == s[..m];
      assert forall i :: 0 <= i < n - m ==> s[m..][i] == s[..n][m..][i];
      m
    else |s|
  }

  lemma Around(s: string, k: nat)
    requires k <= |s|
    ensures IsSpace(s[..k]) ==> forall i :: 0 <= i < k ==> IsWhitespace(s[i])
    ensures IsSpace(s[k..]) ==> forall i :: k <= i < |s| ==> IsWhitespace(s[i])
    ensures IsDots(s[k..]) ==> forall i :: k <= i < |s| ==> s[i] == '.'
  {
    hide IsWhitespace;
    assert forall i :: 0 <= i < k ==> s[i] == s[..k][i];
    assert forall i :: k <= i < |s| ==> s[i] == s[k..][i - k];
  }

  lemma StartIs(s: string, k: nat)
    requires k < |s| && IsSpace(s[..k]) && !IsWhitespace(s[k])
    ensures TrimStart(s) == s[k..]
  {
    hide IsWhitespace;
    var j := StartOf(s);
    Around(s, k);
    Around(s, j);
    assert j == k;
  }

  lemma EndIs(s: string, m: nat)
    requires 0 < m <= |s| && IsSpace(s[m..]) && !IsWhitespace(s[m - 1])
    ensures TrimEnd(s) == s[..m]
  {
    hide IsWhitespace;
    var j := EndOf(s);
    Around(s, m);
    Around(s, j);
    assert j == m;
  }

  lemma DotsAre(s: string, m: nat)
    requires 0 < m <= |s| && IsDots(s[m..]) && s[m - 1] != '.'
    ensures TrimEndOf(s, '.') == s[..m]
  {
    var j := DotsFrom(s);
    Around(s, m);
    Around(s, j);
    assert j == m;
  }

  // ----- the normal form -----

  lemma LowerIs(name: string)
    ensures IsLowered(Lower(name), name)
    ensures IsName(name) <==> IsName(Lower(name))
  {
    assert |name| == |Lower(name)| && (name == "" <==> Lower(name) == "");
    forall i | 0 <= i < |name|
      ensures IsHostChar(Lower(name)[i]) <==> IsHostChar(name[i])
    {
    }
  }

  lemma LoweredIs(r: string, name: string)
    requires IsLowered(r, name)
    ensures r == Lower(name)
  {
    LowerIs(name);
    assert forall i :: 0 <= i < |r| ==> r[i] == Lower(name)[i];
  }

  /** What trimming leaves: the text from `from`, before the dots at `c` and the white
      space at `b`. */
  lemma CoreFound(text: string) returns (from: nat, c: nat, b: nat)
    ensures from <= c <= b <= |text| && TrimEndOf(Trim(text), '.') == text[from..c]
    ensures IsSpace(text[..from]) && IsDots(text[c..b]) && IsSpace(text[b..])
    ensures c > from ==> text[c - 1] != '.'
  {
    hide IsWhitespace, IsSpace, IsDots, TrimStart, TrimEnd, TrimEndOf;
    from := StartOf(text);
    var rest := text[from..];
    var m := EndOf(rest);
    var n := DotsFrom(rest[..m]);
    c, b := from + n, from + m;
    Nested(text, from, m, n);
    assert n > 0 ==> rest[..m][n - 1] == text[c - 1];
  }

  lemma Nested(text: string, from: nat, m: nat, n: nat)
    requires from <= |text| && n <= m <= |text| - from
    ensures text[from..][..m] == text[from..from + m] && text[from..][m..] == text[from + m..]
    ensures text[from..][..m][..n] == text[from..from + n] && text[from..][..m][n..] == text[from + n..from + m]
  {
  }

  lemma NameFound(text: string) returns (from: nat, to: nat)
    requires NormalizeHost(text).Some?
    ensures from < to <= |text| && IsParted(text, from, to)
    ensures NormalizeHost(text).value == Lower(text[from..to])
  {
    hide IsWhitespace, Lower, IsName, Trim, TrimEndOf, Before, IsSpace, IsDots;
    var c, b;
    from, c, b := CoreFound(text);
    var core := text[from..c];
    var name := Before(core, ':');
    LowerIs(name);
    BeforeIsFront(core);
    to := from + |name|;
    SliceOfSlice(text, from, c, 0, |name|);
    NameIsSome(name);
    var tail := text[to..];
    if to < c {
      ColonBehind(core);
      assert tail[0] == core[|name|];
    } else {
      assert tail[..b - c] == text[c..b] && tail[b - c..] == text[b..];
      assert name[|name| - 1] == text[c - 1];
    }
  }

  lemma NameIsSome(name: string)
    requires IsName(Lower(name))
    ensures IsName(name) && name != ""
  {
    LowerIs(name);
  }

  lemma BeforeIsFront(s: string)
    ensures |Before(s, ':')| <= |s| && Before(s, ':') == s[..|Before(s, ':')|]
  {
  }

  lemma ColonBehind(s: string)
    requires |Before(s, ':')| < |s|
    ensures s[|Before(s, ':')|] == ':'
  {
    var e := Find(s, ":").value;
    assert s[e..e + 1] == ":";
  }

  lemma NameIsNoColon(name: string)
    requires IsName(name)
    ensures ':' !in name && forall i :: 0 <= i < |name| ==> !IsWhitespace(name[i])
  {
  }

  lemma BeforeColon(name: string, tail: string)
    requires ':' !in name && (tail == "" || tail[0] == ':')
    ensures Before(name + tail, ':') == name
  {
    var s := name + tail;
    if tail == "" {
      FindNothing(s, ":");
    } else {
      forall j | 0 <= j < |name|
        ensures !At(s, ":", j)
      {
        assert s[j] == name[j] && name[j] in name;
        NotAt(s, ":", j);
      }
      assert At(s, ":", |name|);
      FindIs(s, ":", |name|);
    }
  }

  lemma NameComesOut(text: string, from: nat, to: nat)
    requires from < to <= |text| && IsParted(text, from, to)
    ensures NormalizeHost(text) == Some(Lower(text[from..to]))
  {
    hide IsWhitespace, Lower, TrimStart, TrimEnd, TrimEndOf, Before;
    var name, tail := text[from..to], text[to..];
    NameIsNoColon(name);
    LowerIs(name);
    assert text[from] == name[0];
    StartIs(text, from);
    var rest := text[from..];
    assert rest == name + tail;
    if tail != "" && tail[0] == ':' {
      PortTrimmed(name, tail);
    } else {
      DotsTrimmed(name, tail);
    }
  }

  lemma PortTrimmed(name: string, tail: string)
    requires IsName(name) && tail != "" && tail[0] == ':'
    ensures Before(TrimEndOf(TrimEnd(name + tail), '.'), ':') == name
  {
    hide IsWhitespace;
    var rest, n := name + tail, |name|;
    assert rest[n] == ':';
    ColonIsSeen();
    var b := EndOf(rest);
    Around(rest, b);
    assert b > n;
    var c := DotsFrom(rest[..b]);
    Around(rest[..b], c);
    assert c > n;
    NameIsNoColon(name);
    assert rest[..b][..c] == name + tail[..c - n];
    BeforeColon(name, tail[..c - n]);
  }

  lemma ColonIsSeen()
    ensures !IsWhitespace(':')
  {
  }

  lemma DotsTrimmed(name: string, tail: string)
    requires IsName(name) && name[|name| - 1] != '.'
    requires exists n :: 0 <= n <= |tail| && IsDots(tail[..n]) && IsSpace(tail[n..])
    ensures Before(TrimEndOf(TrimEnd(name + tail), '.'), ':') == name
  {
    hide IsWhitespace, TrimEnd, TrimEndOf;
    var n :| 0 <= n <= |tail| && IsDots(tail[..n]) && IsSpace(tail[n..]);
    var rest, m := name + tail, |name| + n;
    NameIsNoColon(name);
    assert rest[m..] == tail[n..];
    DotIsSeen();
    assert rest[m - 1] == if n > 0 then tail[..n][n - 1] else name[|name| - 1];
    EndIs(rest, m);
    assert rest[..m] == name + tail[..n] && rest[..m][|name|..] == tail[..n];
    DotsAre(rest[..m], |name|);
    assert rest[..m][..|name|] == name + "";
    BeforeColon(name, "");
  }

  lemma DotIsSeen()
    ensures !IsWhitespace('.')
  {
  }

  /** A text is accepted exactly when it is a name, with a port or with dots behind it and
      white space around it; the normal form is the name in lower case. */
  lemma NormalFormExactly(text: string, r: string)
    ensures NormalizeHost(text) == Some(r) <==> StandsFor(text, r)
  {
    hide NormalizeHost, IsParted, IsLowered;
    if NormalizeHost(text) == Some(r) {
      var from, to := NameFound(text);
      LowerIs(text[from..to]);
    }
    if StandsFor(text, r) {
      var from, to :| 0 <= from < to <= |text| && IsParted(text, from, to) && IsLowered(r, text[from..to]);
      NameComesOut(text, from, to);
      LoweredIs(r, text[from..to]);
    }
  }

  // ----- the game's hosts -----

  function JoinLabels(labels: seq<string>): string
    requires labels != []
  {
    if |labels| == 1 then labels[0] else labels[0] + "." + JoinLabels(labels[1..])
  }

  lemma {:induction false} SplitLabels(s: string)
    ensures JoinLabels(Split(s, ".")) == s
    decreases |s|
  {
    match Find(s, ".")
    case None =>
    case Some(e) =>
      SplitLabels(s[e + 1..]);
      assert s[e..e + 1] == ".";
      assert s == s[..e] + "." + s[e + 1..];
      assert Split(s, ".")[1..] == Split(s[e + 1..], ".");
  }

  lemma FirstLabel(first: string, rest: string)
    requires '.' !in first
    ensures Split(first + "." + rest, ".") == [first] + Split(rest, ".")
  {
    var s := first + "." + rest;
    forall j | 0 <= j < |first|
      ensures !At(s, ".", j)
    {
      assert s[j] == first[j] && first[j] in first;
      NotAt(s, ".", j);
    }
    assert At(s, ".", |first|);
    FindIs(s, ".", |first|);
    assert s[..|first|] == first && s[|first| + 1..] == rest;
  }

  lemma {:induction false} SplitTwo(a: string, b: string)
    ensures Split(a + "." + b, ".") == Split(a, ".") + Split(b, ".")
    decreases |a|
  {
    hide Split;
    match Find(a, ".")
    case None =>
      NoDotIn(a);
      OneLabel(a);
      FirstLabel(a, b);
    case Some(e) =>
      DotFree(a, e);
      var first, rest := a[..e], a[e + 1..];
      assert a == first + "." + rest by { assert a[e..e + 1] == "."; }
      assert a + "." + b == first + "." + (rest + "." + b);
      FirstLabel(first, rest + "." + b);
      FirstLabel(first, rest);
      SplitTwo(rest, b);
      assert [first] + (Split(rest, ".") + Split(b, ".")) == [first] + Split(rest, ".") + Split(b, ".");
  }

  lemma NoDotIn(a: string)
    requires Find(a, ".").None?
    ensures '.' !in a
  {
    forall j | 0 <= j < |a|
      ensures a[j] != '.'
    {
      assert !At(a, ".", j);
      assert a[j..j + 1] == [a[j]];
    }
  }

  lemma DotFree(a: string, e: nat)
    requires Find(a, ".") == Some(e)
    ensures '.' !in a[..e]
  {
    forall j | 0 <= j < e
      ensures a[j] != '.'
    {
      assert !At(a, ".", j);
      assert a[j..j + 1] == [a[j]];
    }
  }

  const GAME_HOSTS: set<string> := {"api-gateway", "client2pubsub", "client2pubsub-ipv4"}

  /** One of the three services, any region, and the game's domain. */
  predicate IsGameHost(r: string) {
    exists first :: first in GAME_HOSTS && IsServiceOf(first, r)
  }

  predicate IsServiceOf(first: string, r: string) {
    |r| >= |first| + 12 && first + "." <= r && r[|r| - 11..] == ".es-pio.net"
  }

  lemma {:induction false} JoinTwo(a: seq<string>, b: seq<string>)
    requires a != [] && b != []
    ensures JoinLabels(a + b) == JoinLabels(a) + "." + JoinLabels(b)
    decreases |a|
  {
    if |a| == 1 {
      assert (a + b)[1..] == b;
    } else {
      assert (a + b)[0] == a[0] && (a + b)[1..] == a[1..] + b;
      JoinTwo(a[1..], b);
      assert a[0] + "." + (JoinLabels(a[1..]) + "." + JoinLabels(b))
          == (a[0] + "." + JoinLabels(a[1..])) + "." + JoinLabels(b);
    }
  }

  lemma DomainLabels()
    ensures Split("es-pio.net", ".") == ["es-pio", "net"] && JoinLabels(["es-pio", "net"]) == "es-pio.net"
    ensures "." + "es-pio.net" == ".es-pio.net"
  {
    hide Split, JoinLabels;
    DomainText();
    FirstLabel("es-pio", "net");
    OneLabel("net");
    JoinTwo(["es-pio"], ["net"]);
    JoinOne("es-pio");
    JoinOne("net");
    assert ["es-pio"] + ["net"] == ["es-pio", "net"];
  }

  lemma DomainText()
    ensures "es-pio" + "." + "net" == "es-pio.net" && "." + "es-pio.net" == ".es-pio.net"
    ensures '.' !in "es-pio" && '.' !in "net"
  {
  }

  lemma OneLabel(s: string)
    requires '.' !in s
    ensures Split(s, ".") == [s]
  {
    FindNothing(s, ".");
  }

  lemma ServicesHaveNoDot()
    ensures forall first :: first in GAME_HOSTS ==> '.' !in first
  {
  }

  predicate AreGameLabels(labels: seq<string>) {
    |labels| >= 4 && labels[0] in GAME_HOSTS && labels[|labels| - 2..] == ["es-pio", "net"]
  }

  lemma LabelsOfGameHost(first: string, r: string)
    requires first in GAME_HOSTS && IsServiceOf(first, r)
    ensures AreGameLabels(Split(r, "."))
  {
    hide Split;
    ServicesHaveNoDot();
    DomainLabels();
    var n := |first|;
    var middle := r[n + 1..|r| - 11];
    assert r == first + "." + (middle + "." + "es-pio.net") by {
      assert r[..n + 1] == first + ".";
      assert r == r[..n + 1] + middle + r[|r| - 11..];
    }
    FirstLabel(first, middle + "." + "es-pio.net");
    SplitTwo(middle, "es-pio.net");
    SplitSome(middle);
  }

  lemma SplitSome(s: string)
    ensures |Split(s, ".")| >= 1
  {
  }

  lemma GameHostOfLabels(r: string)
    requires AreGameLabels(Split(r, "."))
    ensures IsServiceOf(Split(r, ".")[0], r)
  {
    hide Split, JoinLabels;
    DomainLabels();
    SplitLabels(r);
    var labels := Split(r, ".");
    var first, middle := labels[0], labels[1..|labels| - 2];
    assert labels == [first] + (middle + ["es-pio", "net"]);
    JoinTwo(middle, ["es-pio", "net"]);
    JoinTwo([first], middle + ["es-pio", "net"]);
    assert JoinLabels([first]) == first by { JoinOne(first); }
    var m := JoinLabels(middle);
    assert r == first + "." + (m + "." + "es-pio.net");
    assert r == first + "." + m + ".es-pio.net";
  }

  lemma JoinOne(first: string)
    ensures JoinLabels([first]) == first
  {
  }

  /** Exactly the game's hosts are allowed: one of the three services in any region of the
      game's domain, in any letter case, with any port. */
  lemma AllowedExactly(text: string)
    ensures IsAllowedHost(text) <==> exists r :: StandsFor(text, r) && IsGameHost(r)
  {
    hide NormalizeHost, StandsFor, Split, IsServiceOf;
    if IsAllowedHost(text) {
      var r := NormalizeHost(text).value;
      NormalFormExactly(text, r);
      GameHostOfLabels(r);
    }
    if r :| StandsFor(text, r) && IsGameHost(r) {
      NormalFormExactly(text, r);
      var first :| first in GAME_HOSTS && IsServiceOf(first, r);
      LabelsOfGameHost(first, r);
    }
  }
}
