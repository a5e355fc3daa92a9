/** What the scanner and the normaliser see of a decoded JSON body, and the
    library functions that produce it. */
module Codecs {
  import opened Basics

  /** One aggregate row. `event` and `target` are None where the source cannot
      read an integer; an unreadable amount is already 0. */
  datatype Row = Row(event: Option<i64>, target: Option<i64>, amount: u64)

  /** `rows` is None when `playerStats` is missing or not an array. */
  datatype Scope = Scope(discriminant: string, rows: Option<seq<Row>>)

  /** `scopes` is None when `scopedPlayerStats` is missing or not an array. */
  datatype Document = Document(scopes: Option<seq<Scope>>, text: string, shape: Option<string>)

  /** The external pure functions, arbitrary but fixed:
      UTF-8 decoding, and content decoding followed by JSON parsing. */
  datatype Codec = Codec(
    text: bytes -> Option<string>,
    document: (bytes, Option<string>) -> Option<Document>)

  predicate IsAscii(b: bytes) { forall i :: 0 <= i < |b| ==> b[i] < 128 }

  function AsciiText(b: bytes): (s: string)
    requires IsAscii(b)
    ensures |s| == |b|
  {
    seq(|b|, i requires 0 <= i < |b| => b[i] as char)
  }

  /** UTF-8 decodes ASCII bytes to themselves. */
  ghost predicate AsciiLaw(c: Codec) {
    forall b: bytes :: IsAscii(b) ==> c.text(b) == Some(AsciiText(b))
  }

  /** ASCII text as bytes, the inverse of AsciiText. */
  predicate IsAsciiText(s: string) { forall i :: 0 <= i < |s| ==> s[i] as int < 128 }

  function ToBytes(s: string): (b: bytes)
    requires IsAsciiText(s)
    ensures |b| == |s| && IsAscii(b)
    ensures forall i :: 0 <= i < |s| ==> b[i] == s[i] as int
  {
    seq(|s|, i requires 0 <= i < |s| => s[i] as int)
  }

  lemma ToBytesInverse(s: string)
    requires IsAsciiText(s)
    ensures AsciiText(ToBytes(s)) == s
  {
    var b := ToBytes(s);
    forall i | 0 <= i < |s|
      ensures AsciiText(b)[i] == s[i]
    {
      assert b[i] as char == s[i];
    }
  }

  lemma DecodeAscii(c: Codec, s: string)
    requires AsciiLaw(c) && IsAsciiText(s)
    ensures c.text(ToBytes(s)) == Some(s)
  {
    ToBytesInverse(s);
  }
}
