/** The reader loop behind the capture service: newline-terminated events over a
    connection that times out, ends, fails and is opened again. */
module LineReader {
  import opened Basics
  import opened Search

  const MAX_EVENT_BYTES: nat := 32 * 1024 * 1024
  const NEWLINE: bytes := [10]

  /** What one `read_until(b'\n')` does: the bytes it appended to the line, and how
      it came back. */
  datatype Read =
    | Line(data: bytes)      // up to and including a newline
    | Tail(data: bytes)      // the last bytes of the stream, without a newline
    | End                    // nothing left
    | Timeout(data: bytes)   // interrupted while waiting for more
    | Failed(data: bytes)    // broken connection

  predicate IsLine(data: bytes) { data != [] && data[|data| - 1] == 10 && 10 !in data[..|data| - 1] }

  predicate IsLegal(r: Read) {
    match r
    case Line(data) => IsLine(data)
    case End => true
    case Tail(data) => data != [] && 10 !in data
    case Timeout(data) => 10 !in data
    case Failed(data) => 10 !in data
  }

  /** Nothing follows the end of a stream or a failure; only the end follows a tail. */
  predicate IsConnection(steps: seq<Read>)
    decreases |steps|
  {
    steps == []
    || (IsLegal(steps[0]) && IsConnection(steps[1..])
        && (steps[0].End? || steps[0].Failed? ==> steps[1..] == [])
        && (steps[0].Tail? ==> steps[1..] == [] || steps[1].End?))
  }

  function DataOf(r: Read): bytes { if r.End? then [] else r.data }

  /** Everything the connection carried. */
  function BytesOf(steps: seq<Read>): bytes
    decreases |steps|
  {
    if steps == [] then [] else DataOf(steps[0]) + BytesOf(steps[1..])
  }

  datatype Cut = NoLine | Cut(line: bytes, rest: bytes)

  /** The stream cut behind its first newline. */
  function FirstLine(stream: bytes): (c: Cut)
    ensures c.NoLine? <==> 10 !in stream
    ensures c.Cut? ==> IsLine(c.line) && c.line + c.rest == stream && |c.rest| < |stream|
  {
    match Find(stream, NEWLINE)
    case None =>
      NoNewline(stream);
      NoLine
    case Some(e) =>
      EndsInNewline(stream, e);
      Cut(stream[..e + 1], stream[e + 1..])
  }

  lemma NoNewline(stream: bytes)
    requires Find(stream, NEWLINE).None?
    ensures 10 !in stream
  {
    forall j | 0 <= j < |stream|
      ensures stream[j] != 10
    {
      assert !At(stream, NEWLINE, j);
      assert stream[j..j + 1] == [stream[j]];
    }
  }

  lemma EndsInNewline(stream: bytes, e: nat)
    requires Find(stream, NEWLINE) == Some(e)
    ensures e < |stream| && 10 in stream && IsLine(stream[..e + 1])
  {
    assert stream[e..e + 1] == [stream[e]];
    forall j | 0 <= j < e
      ensures stream[j] != 10
    {
      assert !At(stream, NEWLINE, j);
      assert stream[j..j + 1] == [stream[j]];
    }
    assert stream[..e + 1][..e] == stream[..e];
  }

  lemma WhereItEnds(line: bytes, rest: bytes)
    requires IsLine(line)
    ensures (line + rest)[|line| - 1] == 10
    ensures forall k :: 0 <= k < |line| - 1 ==> (line + rest)[k] != 10
  {
    forall k | 0 <= k < |line| - 1
      ensures (line + rest)[k] != 10
    {
      assert (line + rest)[k] == line[..|line| - 1][k];
    }
  }

  /** There is only one way to cut. */
  lemma CutIs(stream: bytes, line: bytes, rest: bytes)
    requires IsLine(line) && stream == line + rest
    ensures FirstLine(stream) == Cut(line, rest)
  {
    hide FirstLine;
    WhereItEnds(line, rest);
    var c := FirstLine(stream);
    assert c.Cut?;
    WhereItEnds(c.line, c.rest);
    assert |c.line| == |line|;
    assert c.line == stream[..|line|] == line;
    assert c.rest == stream[|line|..] == rest;
  }

  /** The newline-terminated lines of a stream, in order; an unterminated rest is none. */
  function Lines(stream: bytes): seq<bytes>
    decreases |stream|
  {
    match FirstLine(stream)
    case NoLine => []
    case Cut(line, rest) => [line] + Lines(rest)
  }

  /** No line is longer than an event may be, newline aside. */
  predicate AllFit(stream: bytes) {
    forall l :: l in Lines(stream) ==> |l| <= MAX_EVENT_BYTES + 1
  }

  // ----- what the loop hands to decoding -----

  function Overflowed(line: bytes): bytes { if |line| > MAX_EVENT_BYTES then [] else line }

  function Delivered(steps: seq<Read>, line: bytes): seq<bytes>
    decreases |steps|
  {
    if steps == [] then []
    else match steps[0]
      case Line(data) => [line + data] + Delivered(steps[1..], [])
      case Tail(data) => Delivered(steps[1..], line + data)
      case Timeout(data) => Delivered(steps[1..], Overflowed(line + data))
      case End => []
      case Failed(_) => []
  }

  function DeliveredAll(connections: seq<seq<Read>>): seq<bytes>
    decreases |connections|
  {
    if connections == [] then []
    else Delivered(connections[0], []) + DeliveredAll(connections[1..])
  }

  /** The worker: `connections` are the successive connections, each as the reads made
      on it until it ended or the worker was told to stop. */
  method RunWorker(connections: seq<seq<Read>>) returns (delivered: seq<bytes>)
    requires forall c :: c in connections ==> IsConnection(c)
    ensures delivered == DeliveredAll(connections)
    ensures (forall c :: c in connections ==> AllFit(BytesOf(c))) ==> delivered == LinesOfAll(connections)
    ensures AreEndsOf(delivered, LinesOfAll(connections))
  {
    delivered := [];
    var line: bytes := [];
    for i := 0 to |connections|
      invariant line == []
      invariant delivered + DeliveredAll(connections[i..]) == DeliveredAll(connections)
    {
      ghost var before := delivered;
      assert connections[i..][1..] == connections[i + 1..];
      line, delivered := ReadConnection(connections[i], line, delivered);
      assert before + (Delivered(connections[i], []) + DeliveredAll(connections[i + 1..]))
          == delivered + DeliveredAll(connections[i + 1..]);
      // a fresh connection starts with a fresh line
      line := [];
    }
    assert connections[|connections|..] == [] && delivered + [] == delivered;
    LossNeverSpreads(connections);
    if forall c :: c in connections ==> AllFit(BytesOf(c)) {
      ConnectionsNeverMix(connections);
    }
  }

  /** The inner loop on one connection; `line` keeps what a timeout interrupted. */
  method ReadConnection(steps: seq<Read>, start: bytes, already: seq<bytes>)
    returns (line: bytes, delivered: seq<bytes>)
    ensures delivered == already + Delivered(steps, start)
  {
    line, delivered := start, already;
    var i := 0;
    assert steps[0..] == steps;
    while i < |steps|
      invariant 0 <= i <= |steps|
      invariant delivered + Delivered(steps[i..], line) == already + Delivered(steps, start)
    {
      assert steps[i..][1..] == steps[i + 1..] && steps[i..][0] == steps[i];
      var r := steps[i];
      ghost var before, left := delivered, Delivered(steps[i..], line);
      i := i + 1;
      match r {
        case End =>
          assert delivered + [] == delivered;
          return;
        case Tail(data) =>
          line := line + data;
          continue;
        case Line(data) =>
          line := line + data;
          delivered := delivered + [line];
          assert left == [line] + Delivered(steps[i..], []);
          line := [];
          assert before + left == delivered + Delivered(steps[i..], line);
        case Timeout(data) =>
          line := line + data;
        case Failed(data) =>
          line := line + data;
          assert delivered + [] == delivered;
          return;
      }
      if |line| > MAX_EVENT_BYTES {
        line := [];
      }
    }
    assert delivered + [] == delivered;
  }

  // ----- it is exactly the lines -----

  lemma GrownLine(head: bytes, data: bytes, rest: bytes)
    requires 10 !in head && IsLine(data)
    ensures Lines(head + data + rest) == [head + data] + Lines(rest)
  {
    var line := head + data;
    assert line[..|line| - 1] == head + data[..|data| - 1];
    CutIs(line + rest, line, rest);
  }

  /** A line that starts with something too long does not fit. */
  lemma TooLongToFit(head: bytes, rest: bytes)
    requires 10 !in head && |head| > MAX_EVENT_BYTES && 10 in rest
    ensures !AllFit(head + rest)
  {
    hide FirstLine, IsLine;
    var stream := head + rest;
    var c := FirstLine(stream);
    assert 10 in stream by {
      assert forall b :: b in rest ==> b in stream;
    }
    LineEnd(c.line);
    assert forall k :: 0 <= k < |head| ==> stream[k] == head[k] && head[k] != 10;
    assert stream[|c.line| - 1] == 10;
    assert c.line in Lines(stream);
  }

  lemma LineEnd(line: bytes)
    requires IsLine(line)
    ensures line != [] && line[|line| - 1] == 10 && 10 in line
  {
  }

  lemma {:induction false} NothingDelivered(steps: seq<Read>, line: bytes)
    requires IsConnection(steps) && 10 !in BytesOf(steps)
    ensures Delivered(steps, line) == []
    decreases |steps|
  {
    if steps != [] {
      assert forall b :: b in DataOf(steps[0]) ==> b in BytesOf(steps);
      assert forall b :: b in BytesOf(steps[1..]) ==> b in BytesOf(steps);
      match steps[0]
      case Line(data) => assert false;
      case Tail(data) => NothingDelivered(steps[1..], line + data);
      case Timeout(data) => NothingDelivered(steps[1..], Overflowed(line + data));
      case End =>
      case Failed(_) =>
    }
  }

  predicate IsSuffix(part: bytes, whole: bytes) {
    |part| <= |whole| && part == whole[|whole| - |part|..]
  }

  /** One element for each line, in order: the line itself if it is no longer than an event
      may be, and otherwise its end. */
  predicate AreEndsOf(delivered: seq<bytes>, lines: seq<bytes>) {
    |delivered| == |lines|
    && forall k :: 0 <= k < |lines| ==>
         IsSuffix(delivered[k], lines[k]) && (|lines[k]| <= MAX_EVENT_BYTES + 1 ==> delivered[k] == lines[k])
  }

  lemma OneMoreEnd(first: bytes, line: bytes, delivered: seq<bytes>, lines: seq<bytes>)
    requires AreEndsOf(delivered, lines) && IsSuffix(first, line)
    requires |line| <= MAX_EVENT_BYTES + 1 ==> first == line
    ensures AreEndsOf([first] + delivered, [line] + lines)
  {
    hide IsSuffix;
  }

  lemma SuffixGrows(part: bytes, whole: bytes, data: bytes)
    requires IsSuffix(part, whole)
    ensures IsSuffix(part + data, whole + data) && IsSuffix([], whole + data)
  {
  }

  /** Loss is local: with lines of any length, and however reading is interrupted, every
      line is delivered once, in order; only one that is too long may lose its beginning,
      and no other is touched by it. `full` is the line begun, `line` what is left of it. */
  lemma {:induction false} LossIsLocal(steps: seq<Read>, line: bytes, full: bytes)
    requires IsConnection(steps) && 10 !in full && IsSuffix(line, full)
    requires |full| <= MAX_EVENT_BYTES ==> line == full
    ensures AreEndsOf(Delivered(steps, line), Lines(full + BytesOf(steps)))
    decreases |steps|
  {
    hide FirstLine, IsLine, IsSuffix, AreEndsOf;
    NoLines();
    if steps == [] {
      Regroup(full, [], []);
    } else {
      var rest, data := BytesOf(steps[1..]), DataOf(steps[0]);
      Regroup(full, data, rest);
      SuffixGrows(line, full, data);
      match steps[0]
      case Line(_) =>
        GrownLine(full, data, rest);
        NothingIsSuffix();
        LossIsLocal(steps[1..], [], []);
        LineEnd(data);
        OneMoreEnd(line + data, full + data, Delivered(steps[1..], []), Lines(rest));
      case Tail(_) =>
        LossIsLocal(steps[1..], line + data, full + data);
      case Timeout(_) =>
        SuffixIsShorter(line + data, full + data);
        LossIsLocal(steps[1..], Overflowed(line + data), full + data);
      case End =>
        Regroup(full, [], []);
      case Failed(_) =>
    }
  }

  lemma NoLines()
    ensures AreEndsOf([], [])
  {
  }

  lemma NothingIsSuffix()
    ensures IsSuffix([], [])
  {
  }

  lemma SuffixIsShorter(part: bytes, whole: bytes)
    requires IsSuffix(part, whole)
    ensures |part| <= |whole|
  {
  }

  lemma Regroup(line: bytes, data: bytes, rest: bytes)
    ensures line + (data + rest) == line + data + rest && [] + rest == rest && line + [] == line
  {
  }

  /** However reading is interrupted, one connection delivers exactly its lines. */
  lemma {:induction false} DeliversItsLines(steps: seq<Read>, line: bytes)
    requires IsConnection(steps) && 10 !in line && AllFit(line + BytesOf(steps))
    ensures Delivered(steps, line) == Lines(line + BytesOf(steps))
    decreases |steps|
  {
    hide FirstLine, IsLine;
    if steps == [] {
      Regroup(line, [], []);
    } else {
      var rest, data := BytesOf(steps[1..]), DataOf(steps[0]);
      Regroup(line, data, rest);
      match steps[0]
      case Line(_) =>
        GrownLine(line, data, rest);
        DeliversItsLines(steps[1..], []);
      case Tail(_) =>
        DeliversItsLines(steps[1..], line + data);
      case Timeout(_) =>
        if |line + data| <= MAX_EVENT_BYTES {
          DeliversItsLines(steps[1..], line + data);
        } else {
          if 10 in rest { TooLongToFit(line + data, rest); }
          NothingDelivered(steps[1..], []);
        }
      case End =>
        Regroup(line, [], []);
      case Failed(_) =>
    }
  }

  /** The exact limit: a stream comes through line by line under every way of being
      interrupted if and only if no line in it is too long. */
  lemma DeliveryIsExact(stream: bytes)
    ensures AllFit(stream)
      <==> forall steps :: IsConnection(steps) && BytesOf(steps) == stream ==> Delivered(steps, []) == Lines(stream)
  {
    if AllFit(stream) {
      forall steps | IsConnection(steps) && BytesOf(steps) == stream
        ensures Delivered(steps, []) == Lines(stream)
      {
        assert [] + stream == stream;
        DeliversItsLines(steps, []);
      }
    } else {
      var steps := Unlucky(stream);
      UnluckyIsConnection(stream);
      UnluckyBreaks(stream);
    }
  }

  /** The reads that cut every line too long with a timeout just past the limit. */
  function Unlucky(stream: bytes): seq<Read>
    decreases |stream|
  {
    match FirstLine(stream)
    case NoLine => if stream == [] then [] else [Tail(stream)]
    case Cut(line, rest) => InTwo(line) + Unlucky(rest)
  }

  function InTwo(line: bytes): seq<Read> {
    if |line| <= MAX_EVENT_BYTES + 1 then [Line(line)]
    else [Timeout(line[..MAX_EVENT_BYTES + 1]), Line(line[MAX_EVENT_BYTES + 1..])]
  }

  lemma Ahead(first: Read, more: seq<Read>)
    ensures ([first] + more)[1..] == more
    ensures BytesOf([first] + more) == DataOf(first) + BytesOf(more)
  {
    assert ([first] + more)[1..] == more;
  }

  lemma HalvesOfLine(line: bytes, n: nat, rest: bytes)
    requires IsLine(line) && n < |line|
    ensures 10 !in line[..n] && IsLine(line[n..])
    ensures line[..n] + (line[n..] + rest) == line + rest
  {
    var body := line[..|line| - 1];
    assert line[..n] == body[..n];
    assert line[n..][..|line| - n - 1] == body[n..];
  }

  lemma InTwoThen(line: bytes, more: seq<Read>)
    requires IsLine(line) && IsConnection(more)
    ensures IsConnection(InTwo(line) + more)
    ensures BytesOf(InTwo(line) + more) == line + BytesOf(more)
    ensures |line| <= MAX_EVENT_BYTES + 1 ==> Delivered(InTwo(line) + more, []) == [line] + Delivered(more, [])
    ensures |line| > MAX_EVENT_BYTES + 1 ==>
      Delivered(InTwo(line) + more, []) == [line[MAX_EVENT_BYTES + 1..]] + Delivered(more, [])
  {
    hide IsLine;
    var n := MAX_EVENT_BYTES + 1;
    if |line| <= n {
      Ahead(Line(line), more);
      assert [] + line == line;
    } else {
      var head, tail := line[..n], line[n..];
      HalvesOfLine(line, n, BytesOf(more));
      var second := [Line(tail)] + more;
      Ahead(Line(tail), more);
      Ahead(Timeout(head), second);
      assert InTwo(line) + more == [Timeout(head)] + second;
      assert [] + head == head && [] + tail == tail;
    }
  }

  lemma {:induction false} UnluckyIsConnection(stream: bytes)
    ensures IsConnection(Unlucky(stream)) && BytesOf(Unlucky(stream)) == stream
    decreases |stream|
  {
    hide FirstLine;
    match FirstLine(stream)
    case NoLine =>
      if stream != [] {
        assert [Tail(stream)][1..] == [] && stream + [] == stream;
      }
    case Cut(line, rest) =>
      UnluckyIsConnection(rest);
      InTwoThen(line, Unlucky(rest));
  }

  lemma {:induction false} UnluckyBreaks(stream: bytes)
    requires !AllFit(stream)
    ensures Delivered(Unlucky(stream), []) != Lines(stream)
    decreases |stream|
  {
    hide FirstLine;
    var c := FirstLine(stream);
    assert Lines(stream) == [c.line] + Lines(c.rest);
    UnluckyIsConnection(c.rest);
    InTwoThen(c.line, Unlucky(c.rest));
    if |c.line| <= MAX_EVENT_BYTES + 1 {
      assert !AllFit(c.rest);
      UnluckyBreaks(c.rest);
      assert Delivered(Unlucky(stream), [])[1..] == Delivered(Unlucky(c.rest), []);
      assert Lines(stream)[1..] == Lines(c.rest);
    } else {
      assert Delivered(Unlucky(stream), [])[0] == c.line[MAX_EVENT_BYTES + 1..];
      assert Lines(stream)[0] == c.line;
    }
  }

  /** The lines of all connections, each on its own. */
  function LinesOfAll(connections: seq<seq<Read>>): seq<bytes>
    decreases |connections|
  {
    if connections == [] then []
    else Lines(BytesOf(connections[0])) + LinesOfAll(connections[1..])
  }

  /** Over reconnects, what is decoded is exactly the complete lines of each
      connection in turn: a partial tail never joins the next connection's bytes. */
  lemma {:induction false} ConnectionsNeverMix(connections: seq<seq<Read>>)
    requires forall c :: c in connections ==> IsConnection(c) && AllFit(BytesOf(c))
    ensures DeliveredAll(connections) == LinesOfAll(connections)
    decreases |connections|
  {
    if connections != [] {
      var c := connections[0];
      assert c in connections;
      assert [] + BytesOf(c) == BytesOf(c);
      DeliversItsLines(c, []);
      ConnectionsNeverMix(connections[1..]);
    }
  }

  lemma EndsTogether(a: seq<bytes>, b: seq<bytes>, lines: seq<bytes>, others: seq<bytes>)
    requires AreEndsOf(a, lines) && AreEndsOf(b, others)
    ensures AreEndsOf(a + b, lines + others)
  {
    hide IsSuffix;
    forall k | 0 <= k < |lines + others|
      ensures IsSuffix((a + b)[k], (lines + others)[k])
      ensures |(lines + others)[k]| <= MAX_EVENT_BYTES + 1 ==> (a + b)[k] == (lines + others)[k]
    {
      if k < |a| { assert (a + b)[k] == a[k] && (lines + others)[k] == lines[k]; }
      else { assert (a + b)[k] == b[k - |a|] && (lines + others)[k] == others[k - |a|]; }
    }
  }

  /** The same over reconnects, with lines of any length. */
  lemma {:induction false} LossNeverSpreads(connections: seq<seq<Read>>)
    requires forall c :: c in connections ==> IsConnection(c)
    ensures AreEndsOf(DeliveredAll(connections), LinesOfAll(connections))
    decreases |connections|
  {
    hide AreEndsOf, Lines;
    NoLines();
    if connections != [] {
      var c := connections[0];
      assert c in connections;
      NothingIsSuffix();
      LossIsLocal(c, [], []);
      assert [] + BytesOf(c) == BytesOf(c);
      LossNeverSpreads(connections[1..]);
      EndsTogether(Delivered(c, []), DeliveredAll(connections[1..]), Lines(BytesOf(c)), LinesOfAll(connections[1..]));
    }
  }
}
