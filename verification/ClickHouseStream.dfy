/** The row stream over a chunked `JSONEachRow` body: a header, then rows in batches of a fixed size. */
module ClickHouseStream {
  import opened Wrappers
  import opened Text
  import opened Core
  import opened Whitespace
  import opened Batching
  import opened ClickHouseRows

  const JSON_BATCH_SIZE: nat := 5_000

  // ----- The stream -----

  /** Everything the stream yields, and the error that ends it, as a function of the body alone. */
  datatype Streamed<R> = Streamed(elements: seq<StreamElement<R>>, error: Option<ReadError>)

  function StreamResult<R>(parse: string -> Option<R>, header: StreamElement<R>, body: string, breaksOff: bool)
    : Streamed<R>
  {
    var read := Collected(parse, FinishedLines(body), EMERGENCY_MAX);
    var tail := UnfinishedLine(body);
    var full := [header] + FullBatches(JSON_BATCH_SIZE, read.rows);
    if read.bad.Some? then Streamed(full, Some(BadLine(read.bad.value)))
    else if |read.rows| == EMERGENCY_MAX then Streamed([header] + Batches(JSON_BATCH_SIZE, read.rows), None)
    else if breaksOff then Streamed(full, Some(TransportFailed))
    else if Blank(tail) then Streamed([header] + Batches(JSON_BATCH_SIZE, read.rows), None)
    else
      match parse(tail)
      case None => Streamed(full, Some(BadLine(tail)))
      case Some(row) => Streamed([header] + Batches(JSON_BATCH_SIZE, read.rows + [row]), None)
  }

  method StreamRows<R>(parse: string -> Option<R>, header: StreamElement<R>, chunks: seq<Chunk>)
    returns (elements: seq<StreamElement<R>>, error: Option<ReadError>)
    ensures Streamed(elements, error) == StreamResult(parse, header, Body(chunks), BreaksOff(chunks))
  {
    StreamStart(parse, header);
    hide Collected, Split, Body, BreaksOff, IndexOf, Blank, FullBatches, Remainder;
    elements := [header];
    var buffer: string, batch: seq<R>, total := "", [], 0;
    ghost var rows: seq<R>, consumed: string, done: seq<string> := [], "", [];
    var i := 0;
    while i < |chunks|
      invariant 0 <= i <= |chunks|
      invariant Body(chunks) == consumed + Body(chunks[i..]) && BreaksOff(chunks) == BreaksOff(chunks[i..])
      invariant IndexOf(buffer, '\n') == |buffer| && Split(consumed, '\n') == done + Split(buffer, '\n')
      invariant Collected(parse, done, EMERGENCY_MAX) == Progress(rows, None) && |rows| == total < EMERGENCY_MAX
      invariant elements == [header] + FullBatches(JSON_BATCH_SIZE, rows) && batch == Remainder(JSON_BATCH_SIZE, rows)
    {
      ghost var rest := Body(chunks[i + 1..]);
      NextBody(chunks, i, consumed);
      if chunks[i].Broken? {
        NextChunk(done, buffer, consumed, "");
        return elements, Some(TransportFailed);
      }
      NextChunk(done, buffer, consumed, chunks[i].text);
      buffer := buffer + chunks[i].text;
      consumed := consumed + chunks[i].text;
      while IndexOf(buffer, '\n') < |buffer|
        invariant Split(consumed, '\n') == done + Split(buffer, '\n')
        invariant Collected(parse, done, EMERGENCY_MAX) == Progress(rows, None) && |rows| == total < EMERGENCY_MAX
        invariant elements == [header] + FullBatches(JSON_BATCH_SIZE, rows) && batch == Remainder(JSON_BATCH_SIZE, rows)
        decreases |buffer|
      {
        var newlineAt := IndexOf(buffer, '\n');
        var line := buffer[..newlineAt];
        SplitNext(Split(consumed, '\n'), done, buffer, '\n');
        CollectOne(parse, done, line, EMERGENCY_MAX);
        done := done + [line];
        buffer := buffer[newlineAt + 1..];
        if Blank(line) {
          continue;
        }
        var row := parse(line);
        if row.None? {
          StopsEarly(parse, done, buffer, consumed, rest, EMERGENCY_MAX);
          return elements, Some(BadLine(line));
        }
        OneMoreRow(JSON_BATCH_SIZE, rows, row.value);
        rows := rows + [row.value];
        batch := batch + [row.value];
        total := total + 1;
        if |batch| >= JSON_BATCH_SIZE {
          elements := elements + [Rows(batch)];
          batch := [];
        }
        if total >= EMERGENCY_MAX {
          StopsEarly(parse, done, buffer, consumed, rest, EMERGENCY_MAX);
          if batch != [] {
            elements := elements + [Rows(batch)];
          }
          return elements, None;
        }
      }
      i := i + 1;
    }
    NextChunk(done, buffer, consumed, "");
    assert chunks[i..] == [] && consumed + "" == consumed;
    if total < EMERGENCY_MAX && !Blank(buffer) {
      var row := parse(buffer);
      if row.None? {
        return elements, Some(BadLine(buffer));
      }
      TailBatch(JSON_BATCH_SIZE, rows, row.value);
      batch := batch + [row.value];
    }
    if batch != [] {
      elements := elements + [Rows(batch)];
    }
    return elements, None;
  }

  lemma StreamStart<R>(parse: string -> Option<R>, header: StreamElement<R>)
    ensures Split("", '\n') == [""] && IndexOf("", '\n') == 0
    ensures Body([]) == "" && !BreaksOff([])
    ensures Collected(parse, [], EMERGENCY_MAX) == Progress([], None)
    ensures [header] + FullBatches(JSON_BATCH_SIZE, []) == [header] && Remainder<R>(JSON_BATCH_SIZE, []) == []
  {
  }

  /**
   * For a body whose lines all parse, however it is cut into chunks: one header first, then
   * non-empty batches, all but the last full, which together are the rows of the first
   * min(EMERGENCY_MAX, n) non-blank lines.
   */
  lemma StreamShape<R(!new)>(parse: string -> Option<R>, header: StreamElement<R>, body: string)
    requires AllParse(parse, NonBlank(Split(body, '\n')))
    ensures var lines := NonBlank(Split(body, '\n'));
            var r := StreamResult(parse, header, body, false);
            && r.error == None && r.elements != [] && r.elements[0] == header
            && (forall i :: 1 <= i < |r.elements| ==> r.elements[i].Rows? && 1 <= |r.elements[i].rows| <= JSON_BATCH_SIZE)
            && (forall i :: 1 <= i < |r.elements| - 1 ==> |r.elements[i].rows| == JSON_BATCH_SIZE)
            && RowsOf(parse, lines[..Min(EMERGENCY_MAX, |lines|)], RowsIn(r.elements[1..]))
  {
    hide Collected, Split, Blank, NonBlank, Batches, FullBatches;
    FirstRowsReturned(parse, body, EMERGENCY_MAX);
    var rows := CappedResult(parse, body, false, EMERGENCY_MAX).value.rows;
    BatchShape(JSON_BATCH_SIZE, rows);
    var bs := Batches(JSON_BATCH_SIZE, rows);
    assert StreamResult(parse, header, body, false) == Streamed([header] + bs, None);
    assert ([header] + bs)[1..] == bs;
  }

  /** `elements` are the header and full batches that hold all but fewer than 5000 of `rows`, from the front. */
  ghost predicate AllButLast<R>(elements: seq<StreamElement<R>>, header: StreamElement<R>, rows: seq<R>) {
    && elements != [] && elements[0] == header
    && (forall i :: 1 <= i < |elements| ==> elements[i].Rows? && |elements[i].rows| == 5000)
    && RowsIn(elements[1..]) <= rows && |rows| - |RowsIn(elements[1..])| < 5000
  }

  /** `elements` are the header and non-empty batches, all but the last full, that hold all of `rows`. */
  ghost predicate AllRows<R>(elements: seq<StreamElement<R>>, header: StreamElement<R>, rows: seq<R>) {
    && elements != [] && elements[0] == header
    && (forall i :: 1 <= i < |elements| ==> elements[i].Rows? && 1 <= |elements[i].rows| <= 5000)
    && (forall i :: 1 <= i < |elements| - 1 ==> |elements[i].rows| == 5000)
    && RowsIn(elements[1..]) == rows
  }

  lemma SentFull<R>(header: StreamElement<R>, rows: seq<R>)
    ensures AllButLast([header] + FullBatches(JSON_BATCH_SIZE, rows), header, rows)
  {
    FullShape(JSON_BATCH_SIZE, rows);
    var bs := FullBatches(JSON_BATCH_SIZE, rows);
    assert ([header] + bs)[1..] == bs;
  }

  lemma SentAll<R>(header: StreamElement<R>, rows: seq<R>)
    ensures AllRows([header] + Batches(JSON_BATCH_SIZE, rows), header, rows)
  {
    BatchShape(JSON_BATCH_SIZE, rows);
    var bs := Batches(JSON_BATCH_SIZE, rows);
    assert ([header] + bs)[1..] == bs;
  }

  /** The stream ends like the capped read at the emergency limit, and has sent what that read has. */
  lemma StreamAsRead<R(!new)>(parse: string -> Option<R>, header: StreamElement<R>, body: string, breaksOff: bool)
    ensures var s := StreamResult(parse, header, body, breaksOff);
            var r := CappedResult(parse, body, breaksOff, EMERGENCY_MAX);
            && s.error == (if r.Ok? then None else Some(r.error))
            && (r.Ok? ==> AllRows(s.elements, header, r.value.rows))
            && (r.Err? ==> AllButLast(s.elements, header, Collected(parse, FinishedLines(body), EMERGENCY_MAX).rows))
  {
    hide AllRows, AllButLast, Collected, FinishedLines, UnfinishedLine, Blank, FullBatches, Batches;
    var rows := Collected(parse, FinishedLines(body), EMERGENCY_MAX).rows;
    SentFull(header, rows);
    SentAll(header, rows);
    var tail := UnfinishedLine(body);
    if parse(tail).Some? {
      SentAll(header, rows + [parse(tail).value]);
    }
  }

  /**
   * Every way a stream can end, for every body and parser, broken off or not: with no error, all rows
   * up to the limit of five million; otherwise the full batches of the rows before the fault.
   */
  lemma StreamExactly<R(!new)>(parse: string -> Option<R>, header: StreamElement<R>, body: string, breaksOff: bool)
    ensures var s := StreamResult(parse, header, body, breaksOff);
            var lines, finished := NonBlank(Split(body, '\n')), |NonBlank(FinishedLines(body))|;
            var bad, limit := FirstBad(parse, lines), 5_000_000;
            && (s.error == Some(TransportFailed) <==> breaksOff && finished < limit && bad >= finished)
            && (s.error.Some? && s.error.value.BadLine? <==>
                bad < |lines| && bad < limit && (bad < finished || !breaksOff))
            && (s.error.Some? && s.error.value.BadLine? ==> s.error.value.line == lines[bad])
            && (s.error.None? ==> exists rows ::
                RowsOf(parse, lines[..Min(limit, |lines|)], rows) && AllRows(s.elements, header, rows))
            && (s.error.Some? ==> exists rows ::
                RowsOf(parse, lines[..Min(bad, finished)], rows) && AllButLast(s.elements, header, rows))
  {
    OutcomeExactly(parse, body, breaksOff, EMERGENCY_MAX);
    StreamAsRead(parse, header, body, breaksOff);
    var lines := NonBlank(Split(body, '\n'));
    ReadFinished(parse, body, EMERGENCY_MAX);
    hide AllRows, AllButLast, StreamResult, Collected, Split, FinishedLines, UnfinishedLine, NonBlank, FirstBad;
    hide RowsOf, CappedResult;
    assert lines[..|lines|] == lines;
  }
}
