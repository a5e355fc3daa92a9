/** Reading the server name out of a TLS ClientHello (section 4.1.2 of RFC 8446,
    section 3 of RFC 6066) that arrives in one record. */
module ClientHello {
  import opened Basics
  import opened Codecs
  import opened Hosts
  import HostNames

  // ----- what the parser computes -----

  function U8(b: bytes, i: nat): nat
    requires i < |b|
  {
    b[i]
  }

  function U16(b: bytes, i: nat): nat
    requires i + 2 <= |b|
  {
    U8(b, i) * 256 + U8(b, i + 1)
  }

  function U24(b: bytes, i: nat): nat
    requires i + 3 <= |b|
  {
    U8(b, i) * 65536 + U8(b, i + 1) * 256 + U8(b, i + 2)
  }

  /** A verdict on a list: the host found, nothing usable, or nothing in it. */
  datatype Search = Found(host: Option<string>) | Absent

  function HostFrom(codec: Codec, name: bytes): Option<string> {
    match codec.text(name)
    case None => None
    case Some(text) => NormalizeHost(text)
  }

  /** The entries of a server_name list. */
  function SearchNames(codec: Codec, names: bytes): Search
    decreases |names|
  {
    if |names| < 3 then Absent
    else
      var length := U16(names, 1);
      if 3 + length > |names| then Found(None)
      else if names[0] == 0 then Found(HostFrom(codec, names[3..3 + length]))
      else SearchNames(codec, names[3 + length..])
  }

  /** One server_name extension; the list ends with the extension at the latest. */
  function SearchServerName(codec: Codec, body: bytes): Search {
    if |body| < 2 then Absent
    else SearchNames(codec, body[2..Min(2 + U16(body, 0), |body|)])
  }

  function SearchExtensions(codec: Codec, extensions: bytes): Option<string>
    decreases |extensions|
  {
    if |extensions| < 4 then None
    else
      var length := U16(extensions, 2);
      if 4 + length > |extensions| then None
      else
        var rest := SearchExtensions(codec, extensions[4 + length..]);
        if U16(extensions, 0) != 0 then rest
        else match SearchServerName(codec, extensions[4..4 + length])
          case Found(host) => host
          case Absent => rest
  }

  /** A vector with a length of one or two bytes: where it ends. */
  function SkipVector(b: bytes, i: nat, width: nat): (r: Option<nat>)
    requires width == 1 || width == 2
    ensures r.Some? ==> i + width <= r.value
  {
    if i + width > |b| then None
    else Some(i + width + if width == 1 then U8(b, i) else U16(b, i))
  }

  /** The extensions of a ClientHello body, cut to what is there. */
  function ExtensionsOf(hello: bytes): Option<bytes> {
    match SkipVector(hello, 34, 1)
    case None => None
    case Some(suites) =>
      match SkipVector(hello, suites, 2)
      case None => None
      case Some(compression) =>
        match SkipVector(hello, compression, 1)
        case None => None
        case Some(start) =>
          match SkipVector(hello, start, 2)
          case None => None
          case Some(end) => Some(hello[start + 2..Min(end, |hello|)])
  }

  /** The ClientHello body inside a record, or None. */
  function HelloOf(payload: bytes): Option<bytes> {
    if |payload| < 9 || payload[0] != 22 || payload[1] != 3 then None
    else
      var recordLength := U16(payload, 3);
      if 5 + recordLength > |payload| then None
      else
        var record := payload[5..5 + recordLength];
        if |record| < 4 || record[0] != 1 then None
        else
          var length := U24(record, 1);
          if 4 + length > |record| then None else Some(record[4..4 + length])
  }

  function ServerName(codec: Codec, payload: bytes): Option<string> {
    match HelloOf(payload)
    case None => None
    case Some(hello) =>
      match ExtensionsOf(hello)
      case None => None
      case Some(extensions) => SearchExtensions(codec, extensions)
  }

  // ----- the parser as the source runs it -----

  method ReadU16(b: bytes, offset: nat) returns (r: Option<nat>)
    ensures r == if offset + 2 <= |b| then Some(U16(b, offset)) else None
  {
    if offset >= |b| { return None; }
    if offset + 1 >= |b| { return None; }
    return Some(U8(b, offset) * 256 + U8(b, offset + 1));
  }

  lemma FirstName(codec: Codec, hello: bytes, from: nat, end: nat)
    requires from + 3 <= end <= |hello|
    ensures
      var length := U16(hello, from + 1);
      var nameEnd := from + 3 + length;
      SearchNames(codec, hello[from..end])
      == if nameEnd > end then Found(None)
         else if hello[from] == 0 then Found(HostFrom(codec, hello[from + 3..nameEnd]))
         else SearchNames(codec, hello[nameEnd..end])
  {
    hide HostFrom;
    var names, length := hello[from..end], U16(hello, from + 1);
    assert U16(names, 1) == length;
    if from + 3 + length <= end {
      SliceOfSlice(hello, from, end, 3, 3 + length);
      SliceOfSlice(hello, from, end, 3 + length, |names|);
    }
  }

  lemma NoMoreNames(codec: Codec, names: bytes)
    requires |names| < 3
    ensures SearchNames(codec, names) == Absent
  {
  }

  /** The source's inner loop: names between `from` and `end`. */
  method WalkNames(codec: Codec, hello: bytes, from: nat, end: nat) returns (r: Search)
    requires end <= |hello|
    ensures r == if from <= end then SearchNames(codec, hello[from..end]) else Absent
  {
    hide SearchNames, HostFrom, U16;
    ghost var goal := if from <= end then SearchNames(codec, hello[from..end]) else Absent;
    var cursor: nat := from;
    while cursor + 3 <= end
      invariant goal == if cursor <= end then SearchNames(codec, hello[cursor..end]) else Absent
    {
      FirstName(codec, hello, cursor, end);
      var nameType := hello[cursor];
      var length := ReadU16(hello, cursor + 1);
      if length.None? { assert false; return Found(None); }
      cursor := cursor + 3;
      var nameEnd := cursor + length.value;
      if nameEnd > end { return Found(None); }
      if nameType == 0 { return Found(HostFrom(codec, hello[cursor..nameEnd])); }
      cursor := nameEnd;
    }
    if cursor <= end { NoMoreNames(codec, hello[cursor..end]); }
    return Absent;
  }

  /** The body of a server_name extension. The list length is read from the whole
      message, so it may reach past the extension: None when even that is missing. */
  method WalkServerName(codec: Codec, hello: bytes, from: nat, end: nat) returns (r: Option<Search>)
    requires from <= end <= |hello|
    ensures r.Some? ==> r.value == SearchServerName(codec, hello[from..end])
    ensures r.None? ==> from + 2 > |hello|
  {
    hide SearchNames;
    ghost var body := hello[from..end];
    var listLength := ReadU16(hello, from);
    if listLength.None? { return None; }
    var listEnd := Min(from + 2 + listLength.value, end);
    var found := WalkNames(codec, hello, from + 2, listEnd);
    if |body| >= 2 {
      assert listLength.value == U16(body, 0);
      var k := listEnd - from;
      assert k == Min(2 + U16(body, 0), |body|);
      SliceOfSlice(hello, from, end, 2, k);
    }
    return Some(found);
  }

  /** The source's outer loop: extensions between `from` and `end`. */
  method WalkExtensions(codec: Codec, hello: bytes, from: nat, end: nat) returns (r: Option<string>)
    requires from <= end <= |hello|
    ensures r == SearchExtensions(codec, hello[from..end])
  {
    hide SearchExtensions, SearchServerName;
    var cursor: nat := from;
    while cursor + 4 <= end
      invariant cursor <= end
      invariant SearchExtensions(codec, hello[from..end]) == SearchExtensions(codec, hello[cursor..end])
    {
      ghost var left := hello[cursor..end];
      ExtensionStep(codec, left);
      var kind := ReadU16(hello, cursor);
      var length := ReadU16(hello, cursor + 2);
      if kind.None? || length.None? { assert false; return None; }
      assert kind.value == U16(left, 0) && length.value == U16(left, 2);
      cursor := cursor + 4;
      var extensionEnd := cursor + length.value;
      if extensionEnd > end { return None; }
      SliceOfSlice(hello, cursor - 4, end, 4, 4 + length.value);
      SliceOfSlice(hello, cursor - 4, end, 4 + length.value, |left|);
      if kind.value == 0 {
        var found := WalkServerName(codec, hello, cursor, extensionEnd);
        if found.None? {
          NoRoomForMore(codec, left);
          return None;
        }
        if found.value.Found? { return found.value.host; }
      }
      cursor := extensionEnd;
    }
    ExtensionStep(codec, hello[cursor..end]);
    return None;
  }

  /** One turn of the outer loop, on what is left of the extensions. */
  lemma ExtensionStep(codec: Codec, left: bytes)
    ensures |left| < 4 ==> SearchExtensions(codec, left) == None
    ensures |left| >= 4 && 4 + U16(left, 2) > |left| ==> SearchExtensions(codec, left) == None
    ensures |left| >= 4 && 4 + U16(left, 2) <= |left| ==>
      SearchExtensions(codec, left)
      == var rest := SearchExtensions(codec, left[4 + U16(left, 2)..]);
         if U16(left, 0) != 0 then rest
         else match SearchServerName(codec, left[4..4 + U16(left, 2)])
           case Found(host) => host
           case Absent => rest
  {
    hide SearchServerName;
  }

  /** A server_name extension too short for its list, at the very end. */
  lemma NoRoomForMore(codec: Codec, left: bytes)
    requires 4 <= |left| < 6 && 4 + U16(left, 2) <= |left|
    ensures SearchExtensions(codec, left) == None
  {
  }

  /** The walk to the extensions, and their bounds. */
  method LocateExtensions(hello: bytes) returns (found: bool, from: nat, end: nat)
    ensures found <==> ExtensionsOf(hello).Some?
    ensures found ==> from <= end <= |hello| && ExtensionsOf(hello) == Some(hello[from..end])
  {
    found, from, end := false, 0, 0;
    var cursor: nat := 2 + 32;
    if cursor >= |hello| { return; }
    cursor := cursor + 1 + U8(hello, cursor);
    var suites := ReadU16(hello, cursor);
    if suites.None? { return; }
    cursor := cursor + 2 + suites.value;
    if cursor >= |hello| { return; }
    cursor := cursor + 1 + U8(hello, cursor);
    var length := ReadU16(hello, cursor);
    if length.None? { return; }
    cursor := cursor + 2;
    found, from, end := true, cursor, Min(cursor + length.value, |hello|);
  }

  method ReadServerName(codec: Codec, payload: bytes) returns (r: Option<string>)
    ensures r == ServerName(codec, payload)
  {
    hide SearchExtensions, ExtensionsOf;
    if |payload| < 9 || payload[0] != 22 || payload[1] != 3 { return None; }
    var recordLength := U16(payload, 3);
    if 5 + recordLength > |payload| { return None; }
    var record := payload[5..5 + recordLength];
    if |record| < 4 || record[0] != 1 { return None; }
    var handshakeLength := U24(record, 1);
    if 4 + handshakeLength > |record| { return None; }
    var hello := record[4..4 + handshakeLength];
    var found, from, end := LocateExtensions(hello);
    if !found { return None; }
    r := WalkExtensions(codec, hello, from, end);
  }

  // ----- a well-formed ClientHello -----

  datatype Name = Name(kind: byte, name: bytes)

  datatype Extension = Extension(kind: nat, body: bytes)

  /** `before` are the extensions ahead of the server name, `others` the names of
      other kinds ahead of the host name. */
  datatype Hello = Hello(
    version: bytes, random: bytes, session: bytes, suites: bytes, compression: bytes,
    before: seq<Extension>, others: seq<Name>, host: bytes, moreNames: bytes, after: bytes)

  function High(n: nat): nat { n / 256 }

  function Low(n: nat): byte { n % 256 }

  lemma HighLow(n: nat)
    ensures n == High(n) * 256 + Low(n)
  {
  }

  function Put16(n: nat): (b: bytes)
    requires n < 65536
    ensures |b| == 2 && U16(b, 0) == n
  {
    HighLow(n);
    [High(n), Low(n)]
  }

  function Put24(n: nat): (b: bytes)
    requires n < 16777216
    ensures |b| == 3 && U24(b, 0) == n
  {
    HighLow(n);
    HighLow(High(n));
    [High(High(n)), Low(High(n)), Low(n)]
  }

  /** A vector behind its length in one or two bytes. */
  function Vector8(v: bytes): (b: bytes)
    requires |v| < 256
    ensures |b| == 1 + |v|
  {
    [|v|] + v
  }

  function Vector16(v: bytes): (b: bytes)
    requires |v| < 65536
    ensures |b| == 2 + |v|
  {
    Put16(|v|) + v
  }

  predicate ValidName(n: Name) { |n.name| < 65536 }

  predicate ValidExtension(e: Extension) { e.kind < 65536 && |e.body| < 65536 }

  function PrintName(n: Name): bytes
    requires ValidName(n)
  {
    [n.kind] + Vector16(n.name)
  }

  function PrintNames(names: seq<Name>): bytes
    requires forall n :: n in names ==> ValidName(n)
  {
    if names == [] then [] else PrintName(names[0]) + PrintNames(names[1..])
  }

  function PrintExtension(e: Extension): bytes
    requires ValidExtension(e)
  {
    Put16(e.kind) + Vector16(e.body)
  }

  function PrintExtensions(es: seq<Extension>): bytes
    requires forall e :: e in es ==> ValidExtension(e)
  {
    if es == [] then [] else PrintExtension(es[0]) + PrintExtensions(es[1..])
  }

  predicate ValidNames(h: Hello) {
    (forall n :: n in h.others ==> ValidName(n) && n.kind != 0) && |h.host| < 65536
    && |NameList(h)| < 65534
  }

  function NameList(h: Hello): bytes
    requires (forall n :: n in h.others ==> ValidName(n)) && |h.host| < 65536
  {
    PrintNames(h.others) + (PrintName(Name(0, h.host)) + h.moreNames)
  }

  function ServerNameExtension(h: Hello): (e: Extension)
    requires ValidNames(h)
    ensures ValidExtension(e) && e.kind == 0
  {
    Extension(0, Vector16(NameList(h)))
  }

  function ExtensionBytes(h: Hello): bytes
    requires ValidNames(h) && forall e :: e in h.before ==> ValidExtension(e)
  {
    PrintExtensions(h.before) + (PrintExtension(ServerNameExtension(h)) + h.after)
  }

  /** The length limits of the message, and everything in one record. */
  predicate ValidHello(h: Hello) {
    |h.version| == 2 && |h.random| == 32
    && |h.session| < 256 && |h.suites| < 65536 && |h.compression| < 256
    && ValidNames(h)
    && (forall e :: e in h.before ==> ValidExtension(e) && e.kind != 0)
    && |ExtensionBytes(h)| < 65536
    && BodyLength(h) + 4 < 65536
  }

  function BodyLength(h: Hello): nat
    requires ValidNames(h) && forall e :: e in h.before ==> ValidExtension(e)
  {
    40 + |h.session| + |h.suites| + |h.compression| + |ExtensionBytes(h)|
  }

  function Body(h: Hello, extensions: bytes): (b: bytes)
    requires |h.version| == 2 && |h.random| == 32
    requires |h.session| < 256 && |h.suites| < 65536 && |h.compression| < 256 && |extensions| < 65536
    ensures |b| == 40 + |h.session| + |h.suites| + |h.compression| + |extensions|
  {
    h.version + h.random
    + Vector8(h.session) + Vector16(h.suites) + Vector8(h.compression) + Vector16(extensions)
  }

  function Record(minor: byte, handshake: bytes): bytes
    requires |handshake| < 65536
  {
    [22, 3, minor] + Vector16(handshake)
  }

  /** Handshake type 1, its length, and the body. */
  function Handshake(body: bytes): (b: bytes)
    requires |body| < 16777216
    ensures |b| == 4 + |body|
  {
    [1] + Put24(|body|) + body
  }

  /** The record on the wire. */
  function PrintRecord(h: Hello, minor: byte): bytes
    requires ValidHello(h)
  {
    Record(minor, Handshake(Body(h, ExtensionBytes(h))))
  }

  // ----- reading it back -----

  lemma {:induction false} NamesReadBack(codec: Codec, others: seq<Name>, host: bytes, more: bytes)
    requires |host| < 65536 && forall n :: n in others ==> ValidName(n) && n.kind != 0
    ensures SearchNames(codec, PrintNames(others) + (PrintName(Name(0, host)) + more))
         == Found(HostFrom(codec, host))
    decreases |others|
  {
    if others == [] {
      var names := PrintName(Name(0, host)) + more;
      assert [] + names == names;
      NameAtFront(Name(0, host), more);
    } else {
      var n, rest := others[0], PrintNames(others[1..]) + (PrintName(Name(0, host)) + more);
      assert n in others;
      assert PrintNames(others) + (PrintName(Name(0, host)) + more) == PrintName(n) + rest;
      NameAtFront(n, rest);
      NamesReadBack(codec, others[1..], host, more);
    }
  }

  /** A vector with two length bytes, somewhere in a message. */
  lemma VectorAt(front: bytes, v: bytes, rest: bytes)
    requires |v| < 65536
    ensures
      var all, i := front + Vector16(v) + rest, |front|;
      |all| == i + 2 + |v| + |rest| && U16(all, i) == |v|
      && all[i + 2..i + 2 + |v|] == v && all[i + 2 + |v|..] == rest
  {
    hide Put16;
    var size, all, i := Put16(|v|), front + Vector16(v) + rest, |front|;
    assert all[i] == size[0] && all[i + 1] == size[1];
  }

  lemma NameAtFront(n: Name, rest: bytes)
    requires ValidName(n)
    ensures
      var names := PrintName(n) + rest;
      |names| >= 3 + |n.name| && names[0] == n.kind && U16(names, 1) == |n.name|
      && names[3..3 + |n.name|] == n.name && names[3 + |n.name|..] == rest
  {
    hide Vector16;
    VectorAt([n.kind], n.name, rest);
  }

  lemma ExtensionAtFront(e: Extension, rest: bytes)
    requires ValidExtension(e)
    ensures
      var all := PrintExtension(e) + rest;
      |all| >= 4 + |e.body| && U16(all, 0) == e.kind && U16(all, 2) == |e.body|
      && all[4..4 + |e.body|] == e.body && all[4 + |e.body|..] == rest
  {
    hide Vector16, Put16;
    var kind := Put16(e.kind);
    VectorAt(kind, e.body, rest);
    var all := PrintExtension(e) + rest;
    assert all[0] == kind[0] && all[1] == kind[1];
  }

  lemma {:induction false} ExtensionsReadBack(codec: Codec, before: seq<Extension>, e: Extension, after: bytes)
    requires ValidExtension(e) && e.kind == 0
    requires forall x :: x in before ==> ValidExtension(x) && x.kind != 0
    requires SearchServerName(codec, e.body).Found?
    ensures SearchExtensions(codec, PrintExtensions(before) + (PrintExtension(e) + after))
         == SearchServerName(codec, e.body).host
    decreases |before|
  {
    hide SearchServerName, SearchExtensions, PrintExtension;
    if before == [] {
      var all := PrintExtension(e) + after;
      assert [] + all == all;
      ExtensionAtFront(e, after);
      ExtensionStep(codec, all);
    } else {
      var x, rest := before[0], PrintExtensions(before[1..]) + (PrintExtension(e) + after);
      assert x in before;
      assert PrintExtensions(before) + (PrintExtension(e) + after) == PrintExtension(x) + rest;
      ExtensionAtFront(x, rest);
      ExtensionStep(codec, PrintExtension(x) + rest);
      ExtensionsReadBack(codec, before[1..], e, after);
    }
  }

  /** Without a server_name extension there is no name. */
  lemma {:induction false} NoServerName(codec: Codec, es: seq<Extension>)
    requires forall x :: x in es ==> ValidExtension(x) && x.kind != 0
    ensures SearchExtensions(codec, PrintExtensions(es)) == None
    decreases |es|
  {
    hide SearchExtensions, PrintExtension;
    if es == [] {
      ExtensionStep(codec, []);
    } else {
      assert es[0] in es;
      ExtensionAtFront(es[0], PrintExtensions(es[1..]));
      ExtensionStep(codec, PrintExtension(es[0]) + PrintExtensions(es[1..]));
      NoServerName(codec, es[1..]);
    }
  }

  lemma ServerNameReadBack(codec: Codec, h: Hello)
    requires ValidNames(h)
    ensures SearchServerName(codec, ServerNameExtension(h).body) == Found(HostFrom(codec, h.host))
  {
    hide SearchNames, PrintNames, Vector16;
    var list := NameList(h);
    var body := ServerNameExtension(h).body;
    VectorAt([], list, []);
    assert [] + Vector16(list) + [] == body;
    assert body[2..|body|] == list;
    NamesReadBack(codec, h.others, h.host, h.moreNames);
  }

  lemma ShortVector(front: bytes, v: bytes, rest: bytes)
    requires |v| < 256
    ensures SkipVector(front + Vector8(v) + rest, |front|, 1) == Some(|front| + 1 + |v|)
  {
  }

  lemma LongVector(front: bytes, v: bytes, rest: bytes)
    requires |v| < 65536
    ensures SkipVector(front + Vector16(v) + rest, |front|, 2) == Some(|front| + 2 + |v|)
  {
    hide Vector16;
    VectorAt(front, v, rest);
  }

  lemma BodyReadBack(h: Hello, es: bytes)
    requires |h.version| == 2 && |h.random| == 32
    requires |h.session| < 256 && |h.suites| < 65536 && |h.compression| < 256 && |es| < 65536
    ensures ExtensionsOf(Body(h, es)) == Some(es)
  {
    hide SkipVector, Vector8, Vector16;
    var body := Body(h, es);
    var f0 := h.version + h.random;
    var f1 := f0 + Vector8(h.session);
    var f2 := f1 + Vector16(h.suites);
    var f3 := f2 + Vector8(h.compression);
    assert body == f3 + Vector16(es) + [];
    assert body == f2 + Vector8(h.compression) + Vector16(es);
    assert body == f1 + Vector16(h.suites) + (Vector8(h.compression) + Vector16(es));
    assert body == f0 + Vector8(h.session) + (Vector16(h.suites) + (Vector8(h.compression) + Vector16(es)));
    ShortVector(f0, h.session, Vector16(h.suites) + (Vector8(h.compression) + Vector16(es)));
    LongVector(f1, h.suites, Vector8(h.compression) + Vector16(es));
    ShortVector(f2, h.compression, Vector16(es));
    LongVector(f3, es, []);
    VectorAt(f3, es, []);
  }

  lemma HandshakeReadBack(body: bytes)
    requires |body| < 16777216
    ensures
      var handshake := Handshake(body);
      handshake[0] == 1 && U24(handshake, 1) == |body| && handshake[4..4 + |body|] == body
  {
    hide Put24;
    var size, handshake := Put24(|body|), Handshake(body);
    assert handshake[1] == size[0] && handshake[2] == size[1] && handshake[3] == size[2];
  }

  lemma RecordReadBack(minor: byte, body: bytes, trailing: bytes)
    requires 0 < |body| && |body| + 4 < 65536
    ensures HelloOf(Record(minor, Handshake(body)) + trailing) == Some(body)
  {
    hide Handshake, Vector16;
    HandshakeReadBack(body);
    VectorAt([22, 3, minor], Handshake(body), trailing);
  }

  /** The round trip: from any well-formed ClientHello in one record, whatever
      comes before the server name and after the record, the host comes back
      normalised. */
  lemma HostReadBack(codec: Codec, h: Hello, minor: byte, trailing: bytes)
    requires ValidHello(h)
    ensures ServerName(codec, PrintRecord(h, minor) + trailing) == HostFrom(codec, h.host)
  {
    hide HelloOf, ExtensionsOf, Body, Handshake, Record, SearchExtensions, PrintExtensions, PrintExtension,
      SearchServerName, ServerNameExtension;
    var es := ExtensionBytes(h);
    RecordReadBack(minor, Body(h, es), trailing);
    BodyReadBack(h, es);
    ServerNameReadBack(codec, h);
    ExtensionsReadBack(codec, h.before, ServerNameExtension(h), h.after);
  }

  /** In text: the normal form of the name that was sent. */
  lemma NameReadBack(codec: Codec, h: Hello, minor: byte, trailing: bytes, text: string, r: string)
    requires ValidHello(h) && AsciiLaw(codec) && IsAsciiText(text) && h.host == ToBytes(text)
    requires HostNames.StandsFor(text, r)
    ensures ServerName(codec, PrintRecord(h, minor) + trailing) == Some(r)
  {
    hide ServerName, PrintRecord, ValidHello, NormalizeHost, HostNames.StandsFor;
    HostReadBack(codec, h, minor, trailing);
    DecodeAscii(codec, text);
    HostNames.NormalFormExactly(text, r);
  }

  /** A ClientHello without a server_name extension names no host. */
  lemma NamelessReadBack(codec: Codec, h: Hello, es: seq<Extension>, minor: byte, trailing: bytes)
    requires |h.version| == 2 && |h.random| == 32
    requires |h.session| < 256 && |h.suites| < 65536 && |h.compression| < 256
    requires forall x :: x in es ==> ValidExtension(x) && x.kind != 0
    requires |PrintExtensions(es)| < 65536 && |Body(h, PrintExtensions(es))| + 4 < 65536
    ensures ServerName(codec, Record(minor, Handshake(Body(h, PrintExtensions(es)))) + trailing) == None
  {
    hide HelloOf, ExtensionsOf, Body, Handshake, Record, SearchExtensions, PrintExtensions;
    RecordReadBack(minor, Body(h, PrintExtensions(es)), trailing);
    BodyReadBack(h, PrintExtensions(es));
    NoServerName(codec, es);
  }

  /** A record that has not arrived whole names no host. */
  lemma TruncatedHello(codec: Codec, h: Hello, minor: byte, n: nat)
    requires ValidHello(h) && n < |PrintRecord(h, minor)|
    ensures ServerName(codec, PrintRecord(h, minor)[..n]) == None
  {
    hide Body, Handshake, Put16, Put24, ExtensionBytes, ServerNameExtension, ExtensionsOf;
    var handshake := Handshake(Body(h, ExtensionBytes(h)));
    var record := PrintRecord(h, minor);
    VectorAt([22, 3, minor], handshake, []);
    assert record == [22, 3, minor] + Vector16(handshake) + [];
    assert |record| == 5 + |handshake|;
    if n >= 9 {
      assert U16(record[..n], 3) == U16(record, 3);
    }
  }

  /** Neither does anything that is not a handshake record with a ClientHello. */
  lemma NoHello(codec: Codec, payload: bytes)
    requires |payload| < 9 || payload[0] != 22 || payload[1] != 3 || payload[5] != 1
    ensures ServerName(codec, payload) == None
  {
    hide ExtensionsOf, SearchExtensions, U16, U24;
  }

  // ----- lengths that do not fit -----

  /** A name that reaches beyond its list ends the search with no host. */
  lemma {:induction false} BrokenName(codec: Codec, others: seq<Name>, tail: bytes)
    requires forall n :: n in others ==> ValidName(n) && n.kind != 0
    requires |tail| >= 3 && 3 + U16(tail, 1) > |tail|
    ensures SearchNames(codec, PrintNames(others) + tail) == Found(None)
    decreases |others|
  {
    if others == [] {
      assert [] + tail == tail;
    } else {
      var n := others[0];
      assert n in others;
      assert PrintNames(others) + tail == PrintName(n) + (PrintNames(others[1..]) + tail);
      NameAtFront(n, PrintNames(others[1..]) + tail);
      BrokenName(codec, others[1..], tail);
    }
  }

  /** An extension that reaches beyond them all, or a rest too short for one, ends the
      search with no host. */
  lemma {:induction false} BrokenExtension(codec: Codec, es: seq<Extension>, tail: bytes)
    requires forall x :: x in es ==> ValidExtension(x) && x.kind != 0
    requires |tail| < 4 || 4 + U16(tail, 2) > |tail|
    ensures SearchExtensions(codec, PrintExtensions(es) + tail) == None
    decreases |es|
  {
    if es == [] {
      assert [] + tail == tail;
    } else {
      var x, rest := es[0], PrintExtensions(es[1..]) + tail;
      assert x in es;
      assert PrintExtensions(es) + tail == PrintExtension(x) + rest;
      ExtensionAtFront(x, rest);
      BrokenExtension(codec, es[1..], tail);
    }
  }

  /** A list of names longer than its extension is read up to the extension's end. */
  lemma LongListIsCut(codec: Codec, n: nat, names: bytes)
    requires |names| <= n < 65536
    ensures SearchServerName(codec, Put16(n) + names) == SearchNames(codec, names)
  {
    HighLow(n);
    var body := Put16(n) + names;
    assert U16(body, 0) == n && body[2..] == names;
    assert body[2..|body|] == names;
  }
}
