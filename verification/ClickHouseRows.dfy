/**
 * The incremental reading of a `JSONEachRow` body: lines are put together from chunks, blank lines
 * are skipped, rows are parsed one line each, and reading stops at the row cap.
 */
module ClickHouseRows {
  import opened Wrappers
  import opened Text
  import opened Core
  import opened Whitespace

  /** A chunk of the response body, or the transport error that ends it. */
  datatype Chunk = Received(text: string) | Broken

  datatype ReadError = BadLine(line: string) | TransportFailed

  // ----- The meaning: one pass over the lines of the whole body -----

  /** Rows read so far, and the line that could not be parsed, if reading failed on one. */
  datatype Progress<R> = Progress(rows: seq<R>, bad: Option<string>)

  /** Reads at most `limit` rows off `lines`, skipping blank lines, up to the first bad line. */
  function Collected<R>(parse: string -> Option<R>, lines: seq<string>, limit: nat): (p: Progress<R>)
    ensures |p.rows| <= limit
    decreases |lines|
  {
    if lines == [] || limit == 0 then Progress([], None)
    else if Blank(lines[0]) then Collected(parse, lines[1..], limit)
    else
      match parse(lines[0])
      case None => Progress([], Some(lines[0]))
      case Some(row) =>
        var rest := Collected(parse, lines[1..], limit - 1);
        Progress([row] + rest.rows, rest.bad)
  }

  lemma {:induction false} CollectedAppend<R>(parse: string -> Option<R>, a: seq<string>, b: seq<string>, limit: nat)
    ensures var first := Collected(parse, a, limit);
            var whole := Collected(parse, a + b, limit);
            if first.bad.Some? then whole == first
            else var rest := Collected(parse, b, limit - |first.rows|);
                 whole == Progress(first.rows + rest.rows, rest.bad)
    decreases |a|
  {
    if a == [] {
      assert a + b == b;
    } else if limit > 0 {
      assert (a + b)[0] == a[0] && (a + b)[1..] == a[1..] + b;
      if Blank(a[0]) {
        CollectedAppend(parse, a[1..], b, limit);
      } else if parse(a[0]).Some? {
        CollectedAppend(parse, a[1..], b, limit - 1);
        var first := Collected(parse, a[1..], limit - 1);
        Associative([parse(a[0]).value], first.rows, Collected(parse, b, limit - 1 - |first.rows|).rows);
      }
    }
  }

  /** The text received before the body ended or broke off. */
  function Body(chunks: seq<Chunk>): string {
    if chunks == [] || chunks[0].Broken? then "" else chunks[0].text + Body(chunks[1..])
  }

  predicate BreaksOff(chunks: seq<Chunk>) {
    exists i :: 0 <= i < |chunks| && chunks[i].Broken?
  }

  function FinishedLines(body: string): seq<string> {
    Init(Split(body, '\n'))
  }

  function UnfinishedLine(body: string): string {
    Last(Split(body, '\n'))
  }

  function Limit(cap: nat): nat {
    if cap == 0 then 1 else cap
  }

  datatype Capped<R> = Capped(rows: seq<R>, isTruncated: bool)

  /** The capped result as a function of the body alone, however it was cut into chunks. */
  function CappedResult<R>(parse: string -> Option<R>, body: string, breaksOff: bool, cap: nat): Result<Capped<R>, ReadError> {
    var read := Collected(parse, FinishedLines(body), Limit(cap));
    var tail := UnfinishedLine(body);
    if read.bad.Some? then Err(BadLine(read.bad.value))
    else if |read.rows| == Limit(cap) then Ok(Capped(read.rows, true))
    else if breaksOff then Err(TransportFailed)
    else if Blank(tail) then Ok(Capped(read.rows, false))
    else
      match parse(tail)
      case None => Err(BadLine(tail))
      case Some(row) => Ok(Capped(read.rows + [row], false))
  }

  // ----- The reading loop -----

  lemma CollectOne<R>(parse: string -> Option<R>, done: seq<string>, line: string, limit: nat)
    requires Collected(parse, done, limit).bad == None && |Collected(parse, done, limit).rows| < limit
    ensures var rows := Collected(parse, done, limit).rows;
            Collected(parse, done + [line], limit) ==
            if Blank(line) then Progress(rows, None)
            else if parse(line).None? then Progress(rows, Some(line))
            else Progress(rows + [parse(line).value], None)
  {
    CollectedAppend(parse, done, [line], limit);
    assert [line][1..] == [];
  }

  lemma InitAppend<T>(a: seq<T>, b: seq<T>)
    requires |b| > 0
    ensures Init(a + b) == a + Init(b)
  {
  }

  lemma FinishedGrow(done: seq<string>, buffer: string, consumed: string, rest: string) returns (more: seq<string>)
    requires Split(consumed, '\n') == done + Split(buffer, '\n')
    ensures FinishedLines(consumed + rest) == done + more
  {
    hide Split;
    var pieces, later := Split(buffer, '\n'), Split(Last(Split(consumed, '\n')) + rest, '\n');
    more := Init(pieces) + Init(later);
    SplitAppend(consumed, rest, '\n');
    InitAppend(done, pieces);
    InitAppend(Init(Split(consumed, '\n')), later);
    Associative(done, Init(pieces), Init(later));
  }

  lemma CollectedStops<R>(parse: string -> Option<R>, done: seq<string>, more: seq<string>, limit: nat)
    requires Collected(parse, done, limit).bad.Some? || |Collected(parse, done, limit).rows| == limit
    ensures Collected(parse, done + more, limit) == Collected(parse, done, limit)
  {
    CollectedAppend(parse, done, more, limit);
    assert Collected(parse, more, 0) == Progress([], None);
  }

  /** Reading that has failed or reached the limit gives the result for the whole body. */
  lemma StopsEarly<R>(parse: string -> Option<R>, done: seq<string>, buffer: string, consumed: string, rest: string,
                      limit: nat)
    requires Split(consumed, '\n') == done + Split(buffer, '\n')
    requires Collected(parse, done, limit).bad.Some? || |Collected(parse, done, limit).rows| == limit
    ensures Collected(parse, FinishedLines(consumed + rest), limit) == Collected(parse, done, limit)
  {
    var more := FinishedGrow(done, buffer, consumed, rest);
    CollectedStops(parse, done, more, limit);
  }

  lemma NextChunk(done: seq<string>, buffer: string, consumed: string, text: string)
    requires Split(consumed, '\n') == done + Split(buffer, '\n') && IndexOf(buffer, '\n') == |buffer|
    ensures Split(consumed + text, '\n') == done + Split(buffer + text, '\n')
    ensures FinishedLines(consumed) == done && UnfinishedLine(consumed) == buffer
  {
    SplitAppend(consumed, text, '\n');
    assert Init(done + [buffer]) == done;
  }

  lemma BreaksOffNext(chunks: seq<Chunk>)
    requires chunks != []
    ensures BreaksOff(chunks) <==> chunks[0].Broken? || BreaksOff(chunks[1..])
  {
    if BreaksOff(chunks) && !chunks[0].Broken? {
      var j :| 0 <= j < |chunks| && chunks[j].Broken?;
      assert chunks[1..][j - 1].Broken?;
    }
    if BreaksOff(chunks[1..]) {
      var j :| 0 <= j < |chunks[1..]| && chunks[1..][j].Broken?;
      assert chunks[j + 1].Broken?;
    }
  }

  lemma NextBody(chunks: seq<Chunk>, i: nat, consumed: string)
    requires i < |chunks|
    requires Body(chunks) == consumed + Body(chunks[i..]) && BreaksOff(chunks) == BreaksOff(chunks[i..])
    ensures chunks[i].Broken? ==> Body(chunks) == consumed && BreaksOff(chunks)
    ensures chunks[i].Received? ==>
              && Body(chunks) == consumed + chunks[i].text + Body(chunks[i + 1..])
              && BreaksOff(chunks) == BreaksOff(chunks[i + 1..])
  {
    hide BreaksOff;
    var rest := chunks[i..];
    assert rest[0] == chunks[i] && rest[1..] == chunks[i + 1..];
    BreaksOffNext(rest);
    if chunks[i].Received? {
      Associative(consumed, chunks[i].text, Body(chunks[i + 1..]));
    } else {
      assert consumed + "" == consumed;
    }
  }

  lemma ReadStart<R>(parse: string -> Option<R>, chunks: seq<Chunk>, limit: nat)
    ensures Split("", '\n') == [""] && IndexOf("", '\n') == 0
    ensures Body([]) == "" && !BreaksOff([])
    ensures Body(chunks) == "" + Body(chunks[0..]) && BreaksOff(chunks) == BreaksOff(chunks[0..])
    ensures Collected(parse, [], limit) == Progress([], None)
  {
    assert chunks[0..] == chunks;
  }

  /**
   * Reads rows off the chunks until `cap` rows are there or the body ends; the result is a function
   * of the concatenated text.
   */
  method ReadCapped<R>(parse: string -> Option<R>, chunks: seq<Chunk>, cap: nat) returns (r: Result<Capped<R>, ReadError>)
    ensures r == CappedResult(parse, Body(chunks), BreaksOff(chunks), cap)
  {
    var buffer: string := "";
    var rows: seq<R> := [];
    ghost var consumed, done: seq<string> := "", [];
    ReadStart(parse, chunks, Limit(cap));
    hide Collected, Split, Body, BreaksOff, IndexOf, Blank;
    var i := 0;
    while i < |chunks|
      invariant 0 <= i <= |chunks|
      invariant Body(chunks) == consumed + Body(chunks[i..]) && BreaksOff(chunks) == BreaksOff(chunks[i..])
      invariant IndexOf(buffer, '\n') == |buffer| && Split(consumed, '\n') == done + Split(buffer, '\n')
      invariant Collected(parse, done, Limit(cap)) == Progress(rows, None) && |rows| < Limit(cap)
    {
      ghost var rest := Body(chunks[i + 1..]);
      NextBody(chunks, i, consumed);
      if chunks[i].Broken? {
        NextChunk(done, buffer, consumed, "");
        return Err(TransportFailed);
      }
      NextChunk(done, buffer, consumed, chunks[i].text);
      buffer := buffer + chunks[i].text;
      consumed := consumed + chunks[i].text;
      while IndexOf(buffer, '\n') < |buffer|
        invariant Split(consumed, '\n') == done + Split(buffer, '\n')
        invariant Collected(parse, done, Limit(cap)) == Progress(rows, None) && |rows| < Limit(cap)
        decreases |buffer|
      {
        var newlineAt := IndexOf(buffer, '\n');
        var line := buffer[..newlineAt];
        SplitNext(Split(consumed, '\n'), done, buffer, '\n');
        CollectOne(parse, done, line, Limit(cap));
        done := done + [line];
        buffer := buffer[newlineAt + 1..];
        if Blank(line) {
          continue;
        }
        var row := parse(line);
        if row.None? {
          StopsEarly(parse, done, buffer, consumed, rest, Limit(cap));
          return Err(BadLine(line));
        }
        rows := rows + [row.value];
        if |rows| >= cap {
          StopsEarly(parse, done, buffer, consumed, rest, Limit(cap));
          return Ok(Capped(rows, true));
        }
      }
      i := i + 1;
    }
    NextChunk(done, buffer, consumed, "");
    assert chunks[i..] == [] && consumed + "" == consumed;
    assert Body(chunks) == consumed;
    if !Blank(buffer) {
      var row := parse(buffer);
      if row.None? {
        return Err(BadLine(buffer));
      }
      rows := rows + [row.value];
    }
    return Ok(Capped(rows, false));
  }

  // ----- What the capped result holds -----

  function NonBlank(lines: seq<string>): seq<string> {
    if lines == [] then []
    else if Blank(lines[0]) then NonBlank(lines[1..])
    else [lines[0]] + NonBlank(lines[1..])
  }

  lemma {:induction false} NonBlankAppend(a: seq<string>, b: seq<string>)
    ensures NonBlank(a + b) == NonBlank(a) + NonBlank(b)
  {
    if a == [] {
      assert a + b == b;
    } else {
      assert (a + b)[1..] == a[1..] + b;
      NonBlankAppend(a[1..], b);
      Associative([a[0]], NonBlank(a[1..]), NonBlank(b));
    }
  }

  /** `rows` are the parsed rows of `lines`, one each. */
  ghost predicate RowsOf<R(!new)>(parse: string -> Option<R>, lines: seq<string>, rows: seq<R>) {
    |rows| == |lines| && forall i :: 0 <= i < |lines| ==> parse(lines[i]) == Some(rows[i])
  }

  ghost predicate AllParse<R>(parse: string -> Option<R>, lines: seq<string>) {
    forall i :: 0 <= i < |lines| ==> parse(lines[i]).Some?
  }

  lemma {:induction false} CollectedAll<R(!new)>(parse: string -> Option<R>, lines: seq<string>, limit: nat)
    requires AllParse(parse, NonBlank(lines))
    ensures var n := Min(limit, |NonBlank(lines)|);
            Collected(parse, lines, limit).bad == None &&
            RowsOf(parse, NonBlank(lines)[..n], Collected(parse, lines, limit).rows)
    decreases |lines|
  {
    if lines != [] && limit > 0 {
      var rest := NonBlank(lines[1..]);
      if Blank(lines[0]) {
        CollectedAll(parse, lines[1..], limit);
      } else {
        assert NonBlank(lines)[0] == lines[0] && NonBlank(lines)[1..] == rest;
        assert AllParse(parse, rest) by {
          assert forall i :: 0 <= i < |rest| ==> rest[i] == NonBlank(lines)[i + 1];
        }
        CollectedAll(parse, lines[1..], limit - 1);
        var n := Min(limit - 1, |rest|);
        assert NonBlank(lines)[..n + 1] == [lines[0]] + rest[..n];
      }
    }
  }

  /**
   * For a cap of at least one and a body whose lines all parse: the rows are those of the first
   * min(cap, n) non-blank lines, an unterminated last line included, however the body was cut.
   * `isTruncated` is set exactly when the terminated lines alone fill the cap, so when it is not set
   * no row was dropped; the error cases cannot arise.
   */
  lemma FirstRowsReturned<R(!new)>(parse: string -> Option<R>, body: string, cap: nat)
    requires cap >= 1 && AllParse(parse, NonBlank(Split(body, '\n')))
    ensures var lines := NonBlank(Split(body, '\n'));
            var r := CappedResult(parse, body, false, cap);
            && r.Ok?
            && RowsOf(parse, lines[..Min(cap, |lines|)], r.value.rows)
            && (r.value.isTruncated <==> |NonBlank(FinishedLines(body))| >= cap)
            && (!r.value.isTruncated ==> |r.value.rows| == |lines|)
  {
    hide Collected, Split, Blank;
    var finished, tail := FinishedLines(body), UnfinishedLine(body);
    var lines, some := NonBlank(Split(body, '\n')), NonBlank(finished);
    LinesOfBody(body);
    assert AllParse(parse, some) by {
      assert forall i :: 0 <= i < |some| ==> some[i] == lines[i];
    }
    CollectedAll(parse, finished, cap);
    var n := Min(cap, |some|);
    assert lines[..n] == some[..n];
    if |some| < cap && !Blank(tail) {
      assert lines[|some|] == tail;
      assert some[..n] == some && lines[..|lines|] == lines;
    }
  }

  lemma LinesOfBody(body: string)
    ensures NonBlank(Split(body, '\n')) ==
            NonBlank(FinishedLines(body)) + if Blank(UnfinishedLine(body)) then [] else [UnfinishedLine(body)]
  {
    hide Split, Blank;
    assert Split(body, '\n') == FinishedLines(body) + [UnfinishedLine(body)];
    NonBlankAppend(FinishedLines(body), [UnfinishedLine(body)]);
    assert [UnfinishedLine(body)][1..] == [];
  }

  /** With a cap of zero the first row of a body comes back, not none. */
  lemma ZeroCapReturnsOneRow<R(!new)>(parse: string -> Option<R>, body: string)
    requires AllParse(parse, NonBlank(Split(body, '\n')))
    ensures var lines := NonBlank(Split(body, '\n'));
            var r := CappedResult(parse, body, false, 0);
            r.Ok? && RowsOf(parse, lines[..Min(1, |lines|)], r.value.rows)
  {
    FirstRowsReturned(parse, body, 1);
    hide Collected, Split, Blank;
    assert CappedResult(parse, body, false, 0) == CappedResult(parse, body, false, 1);
  }

  /** The cap is kept exactly if it is at least one or there is nothing to return. */
  lemma CapKeptExactly<R(!new)>(parse: string -> Option<R>, body: string, cap: nat)
    requires AllParse(parse, NonBlank(Split(body, '\n')))
    ensures var r := CappedResult(parse, body, false, cap);
            r.Ok? && (|r.value.rows| <= cap <==> cap >= 1 || NonBlank(Split(body, '\n')) == [])
  {
    if cap == 0 {
      ZeroCapReturnsOneRow(parse, body);
    } else {
      FirstRowsReturned(parse, body, cap);
    }
  }

  // ----- Every outcome -----

  /** The position of the first line that does not parse, or the number of lines if all do. */
  function FirstBad<R>(parse: string -> Option<R>, lines: seq<string>): (i: nat)
    ensures i <= |lines| && forall j :: 0 <= j < i ==> parse(lines[j]).Some?
    ensures i < |lines| ==> parse(lines[i]).None?
  {
    if lines == [] || parse(lines[0]).None? then 0 else 1 + FirstBad(parse, lines[1..])
  }

  lemma RowsOfMore<R(!new)>(parse: string -> Option<R>, line: string, rest: seq<string>, rows: seq<R>)
    requires parse(line).Some? && RowsOf(parse, rest, rows)
    ensures RowsOf(parse, [line] + rest, [parse(line).value] + rows)
  {
  }

  lemma {:induction false} CollectedExactly<R(!new)>(parse: string -> Option<R>, lines: seq<string>, limit: nat)
    ensures var n, read := NonBlank(lines), Collected(parse, lines, limit);
            var bad, end := FirstBad(parse, n), Min(limit, |n|);
            if bad < end then read.bad == Some(n[bad]) && RowsOf(parse, n[..bad], read.rows)
            else read.bad == None && RowsOf(parse, n[..end], read.rows)
    decreases |lines|
  {
    if lines != [] && limit > 0 {
      if Blank(lines[0]) {
        CollectedExactly(parse, lines[1..], limit);
      } else {
        var n, rest := NonBlank(lines), NonBlank(lines[1..]);
        assert n[0] == lines[0] && n[1..] == rest;
        if parse(lines[0]).Some? {
          CollectedExactly(parse, lines[1..], limit - 1);
          var bad, end := FirstBad(parse, rest), Min(limit - 1, |rest|);
          var k := if bad < end then bad else end;
          assert n[..k + 1] == [lines[0]] + rest[..k];
          RowsOfMore(parse, lines[0], rest[..k], Collected(parse, lines[1..], limit - 1).rows);
          hide RowsOf;
        }
      }
    }
  }

  /** The rows of a prefix of the lines, whichever of them are finished. */
  lemma FirstBadPrefix<R>(parse: string -> Option<R>, lines: seq<string>, n: nat)
    requires n <= |lines|
    ensures FirstBad(parse, lines[..n]) == Min(n, FirstBad(parse, lines))
  {
    var i, j := FirstBad(parse, lines[..n]), FirstBad(parse, lines);
    assert i < n ==> parse(lines[..n][i]) == parse(lines[i]);
    assert j < n ==> parse(lines[..n][j]) == parse(lines[j]);
  }

  /** Reading the finished lines, told by the lines of the whole body. */
  lemma ReadFinished<R(!new)>(parse: string -> Option<R>, body: string, limit: nat)
    ensures var read, tail := Collected(parse, FinishedLines(body), limit), UnfinishedLine(body);
            var lines, n := NonBlank(Split(body, '\n')), |NonBlank(FinishedLines(body))|;
            var bad, end := FirstBad(parse, lines), Min(limit, n);
            && n <= |lines|
            && (if bad < end then read.bad == Some(lines[bad]) && RowsOf(parse, lines[..bad], read.rows)
                else read.bad == None && RowsOf(parse, lines[..end], read.rows))
            && (if Blank(tail) then |lines| == n else |lines| == n + 1 && lines[n] == tail)
  {
    hide Collected, Split, Blank, NonBlank, RowsOf;
    var finished := FinishedLines(body);
    var lines, n := NonBlank(Split(body, '\n')), |NonBlank(finished)|;
    LinesOfBody(body);
    assert lines[..n] == NonBlank(finished);
    FirstBadPrefix(parse, lines, n);
    CollectedExactly(parse, finished, limit);
    hide FirstBad;
    assert forall k :: 0 <= k <= n ==> NonBlank(finished)[..k] == lines[..k];
  }

  /**
   * Every way a capped read can end, for every body, parser and cap, broken off or not. `bad` is the
   * first non-blank line that does not parse, and `finished` of the lines end in a newline. Whatever
   * is returned untruncated is the whole body.
   */
  lemma OutcomeExactly<R(!new)>(parse: string -> Option<R>, body: string, breaksOff: bool, cap: nat)
    ensures var r := CappedResult(parse, body, breaksOff, cap);
            var lines, finished := NonBlank(Split(body, '\n')), |NonBlank(FinishedLines(body))|;
            var bad, limit := FirstBad(parse, lines), if cap == 0 then 1 else cap;
            && (r.Err? && r.error.BadLine? <==> bad < |lines| && bad < limit && (bad < finished || !breaksOff))
            && (r.Err? && r.error.BadLine? ==> r.error.line == lines[bad])
            && (r == Err(TransportFailed) <==> breaksOff && finished < limit && bad >= finished)
            && (r.Ok? && r.value.isTruncated <==> finished >= limit && bad >= limit)
            && (r.Ok? && r.value.isTruncated ==> RowsOf(parse, lines[..limit], r.value.rows))
            && (r.Ok? && !r.value.isTruncated <==> !breaksOff && finished < limit && bad == |lines|)
            && (r.Ok? && !r.value.isTruncated ==> RowsOf(parse, lines, r.value.rows))
  {
    hide Collected, Split, Blank, NonBlank, FirstBad, FinishedLines, UnfinishedLine;
    ReadFinished(parse, body, Limit(cap));
    var lines, n := NonBlank(Split(body, '\n')), |NonBlank(FinishedLines(body))|;
    assert lines[..|lines|] == lines;
    if |lines| == n + 1 {
      assert lines[..n] + [lines[n]] == lines;
    }
  }
}
