/** Rendering a query result as JSON Lines, and reading the dump back. */
module JsonExport {
  import opened Wrappers
  import opened Text
  import opened Json
  import opened JsonLines
  import opened JsonText
  import Core

  type Row = seq<Core.CellValue>

  datatype QueryResult = QueryResult(columns: seq<string>, types: seq<string>, rows: seq<Row>)

  type FloatPrinter = string -> Option<FloatText>

  function At(names: seq<string>, i: nat): string {
    if i < |names| then names[i] else ""
  }

  lemma CellIsFlat(cell: Core.CellValue, typeName: string, float: FloatPrinter)
    ensures Flat(CellJson(cell, typeName, float))
  {
    hide Class, ParseBool, IsFloatText;
  }

  /** The members of a row's object: column names and values, in column order. */
  function MembersOf(columns: seq<string>, types: seq<string>, row: Row, float: FloatPrinter): (ms: Members)
    ensures |ms| == |row| && AllFlat(ms)
    ensures forall i :: 0 <= i < |row| ==>
              && ms[i].0 == (if i < |columns| then columns[i] else "")
              && ms[i].1 == CellJson(row[i], if i < |types| then types[i] else "", float)
  {
    var ms := seq(|row|, i requires 0 <= i < |row| => (At(columns, i), CellJson(row[i], At(types, i), float)));
    assert AllFlat(ms) by {
      forall i | 0 <= i < |ms| ensures Flat(ms[i].1) {
        CellIsFlat(row[i], At(types, i), float);
      }
    }
    ms
  }

  function Lines(result: QueryResult, float: FloatPrinter): (lines: seq<string>)
    ensures |lines| == |result.rows|
  {
    seq(|result.rows|, i requires 0 <= i < |result.rows| =>
      RecordText(MembersOf(result.columns, result.types, result.rows[i], float)))
  }

  lemma {:induction false} MembersTextMore(ms: Members, m: (string, Json))
    requires AllFlat(ms) && Flat(m.1)
    ensures AllFlat(ms + [m])
    ensures MembersText(ms + [m]) == MembersText(ms) + ((if ms == [] then "" else ",") + MemberText(m))
    decreases |ms|
  {
    hide MemberText;
    if ms == [] {
      assert ms + [m] == [m];
    } else {
      assert (ms + [m])[1..] == ms[1..] + [m];
      MembersTextMore(ms[1..], m);
    }
  }

  method RenderJsonl(result: QueryResult, float: FloatPrinter) returns (out: string)
    ensures out == Terminate(Lines(result, float), '\n')
  {
    hide Lines, MembersOf, RecordText, Terminate;
    out := "";
    TerminateNone('\n');
    var lines := Lines(result, float);
    for k := 0 to |result.rows|
      invariant out == Terminate(lines[..k], '\n')
    {
      var row := result.rows[k];
      var record := RenderRow(result, row, float);
      LineAt(result, float, k);
      assert lines[..k + 1] == lines[..k] + [lines[k]];
      TerminateSnoc(lines[..k], lines[k], '\n');
      out := out + record;
      out := out + "\n";
    }
    assert lines[..|result.rows|] == lines;
  }

  lemma TerminateNone(sep: char)
    ensures Terminate([], sep) == ""
  {
  }

  lemma LineAt(result: QueryResult, float: FloatPrinter, k: nat)
    requires k < |result.rows|
    ensures Lines(result, float)[k] == RecordText(MembersOf(result.columns, result.types, result.rows[k], float))
  {
  }

  /** One row, cell by cell. */
  method RenderRow(result: QueryResult, row: Row, float: FloatPrinter) returns (out: string)
    ensures out == RecordText(MembersOf(result.columns, result.types, row, float))
  {
    hide MembersText, MemberText, ValueText, CellJson;
    out := "{";
    ghost var ms := MembersOf(result.columns, result.types, row, float);
    EmptyMembers();
    for i := 0 to |row|
      invariant out == "{" + MembersText(ms[..i])
    {
      if i > 0 {
        out := out + ",";
      }
      var column := At(result.columns, i);
      var typeName := At(result.types, i);
      var v := CellToJson(row[i], typeName, float);
      CellIsFlat(row[i], typeName, float);
      assert ms[..i + 1] == ms[..i] + [ms[i]] && ms[i] == (column, v);
      MembersTextMore(ms[..i], ms[i]);
      MemberParts(column, v);
      out := out + StringText(column);
      out := out + ":";
      out := out + ValueText(v);
    }
    assert ms[..|row|] == ms;
    out := out + "}";
  }

  lemma MemberParts(column: string, v: Json)
    requires Flat(v)
    ensures MemberText((column, v)) == StringText(column) + ":" + ValueText(v)
  {
  }

  /**
   * A dump splits at newlines into exactly one record a row, and a standard JSON reader finds in each
   * record the row's columns and values, in column order.
   */
  lemma DumpReadsBack(result: QueryResult, float: FloatPrinter, k: nat)
    ensures var pieces := Split(Terminate(Lines(result, float), '\n'), '\n');
            && |pieces| == |result.rows| + 1 && Last(pieces) == ""
            && (k < |result.rows| ==>
                ReadRecord(pieces[k]) == Some(MembersOf(result.columns, result.types, result.rows[k], float)))
  {
    hide RecordText, MembersOf, ReadRecord, Split, Terminate;
    var lines := Lines(result, float);
    forall i | 0 <= i < |lines| ensures '\n' !in lines[i] {
      LineAt(result, float, i);
      RecordOneLine(MembersOf(result.columns, result.types, result.rows[i], float));
    }
    SplitTerminate(lines, "", '\n');
    assert Terminate(lines, '\n') + "" == Terminate(lines, '\n');
    SplitWhole("", '\n');
    if k < |result.rows| {
      LineAt(result, float, k);
      ReadRecordText(MembersOf(result.columns, result.types, result.rows[k], float));
    }
  }

  lemma RecordOneLine(ms: Members)
    requires AllFlat(ms)
    ensures '\n' !in RecordText(ms)
  {
    hide MembersText;
    MembersOneLine(ms);
  }
}
