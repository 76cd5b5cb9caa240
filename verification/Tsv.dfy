/** The reading of `TabSeparatedWithNamesAndTypes` response bodies. */
module Tsv {
  import opened Wrappers
  import opened Text
  import opened Core

  datatype TsvError = MissingHeader | HeaderMismatch

  /** Column names, column type names, rows. */
  datatype Table = Table(columns: seq<string>, types: seq<string>, rows: seq<seq<CellValue>>)

  // ----- One cell -----

  /** What the letter after a backslash stands for; unknown letters stand for themselves. */
  function EscapeMeaning(letter: char): char {
    match letter
    case 't' => '\t'
    case 'n' => '\n'
    case 'r' => '\r'
    case '0' => '\0'
    case 'b' => '\U{8}'
    case 'f' => '\U{c}'
    case 'a' => '\U{7}'
    case 'v' => '\U{b}'
    case _ => letter
  }

  function Unescaped(raw: string): string {
    if raw == [] then []
    else if raw[0] != '\\' then [raw[0]] + Unescaped(raw[1..])
    else if |raw| == 1 then "\\"
    else [EscapeMeaning(raw[1])] + Unescaped(raw[2..])
  }

  method UnescapeText(input: string) returns (out: string)
    ensures out == Unescaped(input)
  {
    out := "";
    var i := 0;
    while i < |input|
      invariant 0 <= i <= |input|
      invariant out + Unescaped(input[i..]) == Unescaped(input)
    {
      var rest := input[i..];
      assert rest[1..] == input[i + 1..];
      if rest[0] != '\\' {
        out := out + [rest[0]];
        i := i + 1;
        continue;
      }
      if i + 1 < |input| {
        assert rest[2..] == input[i + 2..];
        var letter := input[i + 1];
        out := out + [EscapeMeaning(letter)];
        i := i + 2;
      } else {
        out := out + "\\";
        i := i + 1;
      }
    }
    assert out + [] == out;
  }

  /** A character as it stands in a cell: itself, or a letter after a backslash. */
  datatype Glyph = Itself(c: char) | Escape(letter: char)

  /** What the letters stand for; any other letter stands for itself. */
  const ESCAPES := map[
    't' := '\t', 'n' := '\n', 'r' := '\r', '0' := '\0', 'b' := '\U{8}', 'f' := '\U{c}', 'a' := '\U{7}', 'v' := '\U{b}'
  ]

  function GlyphsText(glyphs: seq<Glyph>): string {
    if glyphs == [] then []
    else (if glyphs[0].Itself? then [glyphs[0].c] else ['\\', glyphs[0].letter]) + GlyphsText(glyphs[1..])
  }

  function Meanings(glyphs: seq<Glyph>): string {
    if glyphs == [] then []
    else
      [match glyphs[0] {
        case Itself(c) => c
        case Escape(letter) => if letter in ESCAPES then ESCAPES[letter] else letter
      }] + Meanings(glyphs[1..])
  }

  /** Every cell means its glyphs one by one, and a lone backslash at its end means itself. */
  lemma {:induction false} UnescapedGlyphs(glyphs: seq<Glyph>, lone: bool)
    requires forall i :: 0 <= i < |glyphs| ==> glyphs[i] != Itself('\\')
    ensures var end := if lone then "\\" else "";
            Unescaped(GlyphsText(glyphs) + end) == Meanings(glyphs) + end
  {
    var end := if lone then "\\" else "";
    if glyphs == [] {
      assert GlyphsText(glyphs) + end == end && Meanings(glyphs) + end == end;
    } else {
      var rest := GlyphsText(glyphs[1..]) + end;
      UnescapedGlyphs(glyphs[1..], lone);
      match glyphs[0]
      case Itself(c) =>
        Associative([c], GlyphsText(glyphs[1..]), end);
        assert ([c] + rest)[1..] == rest;
        Associative([c], Meanings(glyphs[1..]), end);
      case Escape(letter) =>
        Associative(['\\', letter], GlyphsText(glyphs[1..]), end);
        assert (['\\', letter] + rest)[2..] == rest;
        MeaningOf(letter);
        Associative([EscapeMeaning(letter)], Meanings(glyphs[1..]), end);
    }
  }

  lemma MeaningOf(letter: char)
    ensures EscapeMeaning(letter) == if letter in ESCAPES then ESCAPES[letter] else letter
  {
  }

  const NullMarker := "\\N"

  function ParseDataCell(raw: string): CellValue {
    if raw == NullMarker then Null else Text(Unescaped(raw))
  }

  // ----- A whole body -----

  function SplitLines(body: string): (lines: seq<string>)
    ensures body != [] ==> |lines| >= 1
  {
    var lines := Split(body, '\n');
    if Last(lines) == "" then Init(lines) else lines
  }

  lemma {:induction false} LastPiece(body: string)
    requires body != "" && Last(body) != '\n'
    ensures Last(Split(body, '\n')) != ""
    decreases |body|
  {
    var i := IndexOf(body, '\n');
    if i < |body| {
      assert Last(body[i + 1..]) == Last(body);
      LastPiece(body[i + 1..]);
    }
  }

  lemma SplitEnded(body: string)
    ensures Split(body + "\n", '\n') == Split(body, '\n') + [""]
  {
    hide Split;
    var pieces := Split(body, '\n');
    SplitWhole("", '\n');
    SplitAppend(body, "\n", '\n');
    SplitFree(body, '\n');
    SplitFirst(Last(pieces), "", '\n');
    assert Last(pieces) + ['\n'] + "" == Last(pieces) + "\n";
    Associative(Init(pieces), [Last(pieces)], [""]);
    assert Init(pieces) + [Last(pieces)] == pieces;
  }

  /** The lines of a body are its pieces between newlines; one newline at the very end starts no line. */
  lemma SplitLinesExactly(body: string)
    ensures SplitLines(body + "\n") == Split(body, '\n')
    ensures body != "" && Last(body) != '\n' ==> SplitLines(body) == Split(body, '\n')
    ensures SplitLines("") == []
  {
    hide Split;
    SplitWhole("", '\n');
    SplitEnded(body);
    assert Init(Split(body, '\n') + [""]) == Split(body, '\n');
    if body != "" && Last(body) != '\n' {
      LastPiece(body);
    }
  }

  function UnescapedAll(raws: seq<string>): seq<string> {
    if raws == [] then [] else [Unescaped(raws[0])] + UnescapedAll(raws[1..])
  }

  function ParseCells(raws: seq<string>): seq<CellValue> {
    if raws == [] then [] else [ParseDataCell(raws[0])] + ParseCells(raws[1..])
  }

  function ParseRows(lines: seq<string>): seq<seq<CellValue>> {
    if lines == [] then [] else [ParseCells(Split(lines[0], '\t'))] + ParseRows(lines[1..])
  }

  function Header(names: string, types: string): Result<(seq<string>, seq<string>), TsvError> {
    var columns, typeNames := UnescapedAll(Split(names, '\t')), UnescapedAll(Split(types, '\t'));
    if |columns| != |typeNames| then Err(HeaderMismatch) else Ok((columns, typeNames))
  }

  function ParseHeader(body: string): Result<(seq<string>, seq<string>), TsvError> {
    var lines := SplitLines(body);
    Header(if |lines| > 0 then lines[0] else "", if |lines| > 1 then lines[1] else "")
  }

  function Parsed(body: string): Result<Table, TsvError> {
    if body == "" then Ok(Table([], [], [])) else
      var lines := SplitLines(body);
      if |lines| < 2 then Err(MissingHeader) else
        var (columns, types) :- Header(lines[0], lines[1]);
        Ok(Table(columns, types, ParseRows(lines[2..])))
  }

  lemma {:induction false} ParseRowsAppend(a: seq<string>, b: seq<string>)
    ensures ParseRows(a + b) == ParseRows(a) + ParseRows(b)
  {
    if a == [] {
      assert a + b == b;
    } else {
      assert (a + b)[1..] == a[1..] + b;
      ParseRowsAppend(a[1..], b);
      Associative([ParseCells(Split(a[0], '\t'))], ParseRows(a[1..]), ParseRows(b));
    }
  }

  method ParseFull(body: string) returns (r: Result<Table, TsvError>)
    ensures r == Parsed(body)
  {
    if body == "" {
      return Ok(Table([], [], []));
    }
    var lines := SplitLines(body);
    if |lines| < 2 {
      return Err(MissingHeader);
    }
    var columns := UnescapedAll(Split(lines[0], '\t'));
    var types := UnescapedAll(Split(lines[1], '\t'));
    if |columns| != |types| {
      return Err(HeaderMismatch);
    }
    var rows: seq<seq<CellValue>> := [];
    for i := 2 to |lines|
      invariant rows == ParseRows(lines[2..i])
    {
      assert lines[2..i + 1] == lines[2..i] + [lines[i]];
      ParseRowsAppend(lines[2..i], [lines[i]]);
      rows := rows + [ParseCells(Split(lines[i], '\t'))];
    }
    assert lines[2..|lines|] == lines[2..];
    return Ok(Table(columns, types, rows));
  }

  /** On every body with both header lines the two readings agree about the header, errors included. */
  lemma HeadersAgree(body: string)
    requires |SplitLines(body)| >= 2
    ensures ParseHeader(body).Ok? <==> Parsed(body).Ok?
    ensures ParseHeader(body).Ok? ==> ParseHeader(body).value == (Parsed(body).value.columns, Parsed(body).value.types)
    ensures ParseHeader(body).Err? ==> Parsed(body).error == ParseHeader(body).error
  {
    assert body != "" by {
      SplitWhole("", '\n');
    }
  }

  /** Both readings give the same header, or the same error. */
  predicate SameHeader(body: string) {
    match (ParseHeader(body), Parsed(body))
    case (Ok(header), Ok(table)) => header == (table.columns, table.types)
    case (Err(e), Err(f)) => e == f
    case _ => false
  }

  /**
   * The two readings agree exactly on the bodies of two or more lines: on an empty body both succeed
   * with different headers, and on one line `parse_full` misses a line where `parse_header` does not.
   */
  lemma HeadersAgreeExactly(body: string)
    ensures SameHeader(body) <==> |SplitLines(body)| >= 2
  {
    hide Unescaped;
    if |SplitLines(body)| >= 2 {
      HeadersAgree(body);
    } else {
      SplitWhole("", '\n');
      SplitWhole("", '\t');
      assert |UnescapedAll([""])| == 1;
    }
  }

  /** Three bodies on which they differ, in three ways. */
  lemma HeadersDisagree()
    ensures ParseHeader("") == Ok(([""], [""])) && Parsed("") == Ok(Table([], [], []))
    ensures ParseHeader("a") == Ok((["a"], [""])) && Parsed("a") == Err(MissingHeader)
    ensures ParseHeader("a\tb") == Err(HeaderMismatch) && Parsed("a\tb") == Err(MissingHeader)
  {
    SplitWhole("", '\n');
    SplitWhole("", '\t');
    SplitWhole("a", '\n');
    SplitWhole("a", '\t');
    SplitWhole("b", '\t');
    SplitWhole("a\tb", '\n');
    SplitFirst("a", "b", '\t');
    assert "a" + ['\t'] + "b" == "a\tb" && Split("a\tb", '\t') == ["a", "b"];
    assert Unescaped("a") == "a" by {
      assert "a"[1..] == "";
    }
    assert UnescapedAll(["a"]) == ["a"] && UnescapedAll([""]) == [""];
  }

  // ----- The formatter on the other side of the wire -----

  /** The characters the format requires to be escaped, and the letters for others that may be. */
  function EscapeLetter(c: char): Option<char> {
    match c
    case '\\' => Some('\\')
    case '\t' => Some('t')
    case '\n' => Some('n')
    case '\r' => Some('r')
    case '\0' => Some('0')
    case '\U{8}' => Some('b')
    case '\U{c}' => Some('f')
    case '\U{7}' => Some('a')
    case '\U{b}' => Some('v')
    case '\'' => Some('\'')
    case _ => None
  }

  predicate MustEscape(c: char) {
    c == '\\' || c == '\t' || c == '\n'
  }

  function EscapedChar(c: char, also: set<char>): string {
    if MustEscape(c) || (c in also && EscapeLetter(c).Some?) then ['\\', EscapeLetter(c).value] else [c]
  }

  /** A formatter that escapes what it must, and whichever characters of `also` have a letter. */
  function EscapedText(text: string, also: set<char>): string {
    if text == [] then [] else EscapedChar(text[0], also) + EscapedText(text[1..], also)
  }

  function FormatCell(cell: CellValue, also: set<char>): string
    requires !cell.Bytes?
  {
    match cell
    case Null => NullMarker
    case Text(text) => EscapedText(text, also)
  }

  lemma {:induction false} UnescapeEscaped(text: string, also: set<char>)
    ensures Unescaped(EscapedText(text, also)) == text
    ensures '\t' !in EscapedText(text, also) && '\n' !in EscapedText(text, also)
  {
    if text != [] {
      var c, rest := text[0], EscapedText(text[1..], also);
      UnescapeEscaped(text[1..], also);
      var raw := EscapedText(text, also);
      if |EscapedChar(c, also)| == 1 {
        assert raw[1..] == rest;
      } else {
        assert raw[2..] == rest;
        assert EscapeMeaning(EscapeLetter(c).value) == c;
      }
      assert [c] + text[1..] == text;
    }
  }

  /** The marker for NULL is not the formatted form of any text. */
  lemma NullNotText(text: string, also: set<char>)
    ensures EscapedText(text, also) != NullMarker
  {
    if text != [] {
      var head := EscapedChar(text[0], also);
      var raw := EscapedText(text, also);
      assert raw[0] == head[0];
      assert |head| == 2 ==> raw[1] == head[1];
      assert NullMarker[0] == '\\' && NullMarker[1] == 'N';
    }
  }

  lemma CellRoundTrip(cell: CellValue, also: set<char>)
    requires !cell.Bytes?
    ensures ParseDataCell(FormatCell(cell, also)) == cell
    ensures '\t' !in FormatCell(cell, also) && '\n' !in FormatCell(cell, also)
  {
    if cell.Text? {
      UnescapeEscaped(cell.text, also);
      NullNotText(cell.text, also);
    }
  }

  function EscapedAll(texts: seq<string>, also: set<char>): seq<string> {
    if texts == [] then [] else [EscapedText(texts[0], also)] + EscapedAll(texts[1..], also)
  }

  ghost predicate Formattable(row: seq<CellValue>) {
    forall i :: 0 <= i < |row| ==> !row[i].Bytes?
  }

  function FormatCells(row: seq<CellValue>, also: set<char>): seq<string>
    requires Formattable(row)
  {
    if row == [] then [] else [FormatCell(row[0], also)] + FormatCells(row[1..], also)
  }

  ghost predicate WellFormed(t: Table) {
    && |t.columns| == |t.types| && |t.columns| >= 1
    && RowsFormattable(t.rows)
  }

  ghost predicate RowsFormattable(rows: seq<seq<CellValue>>) {
    forall i :: 0 <= i < |rows| ==> |rows[i]| >= 1 && Formattable(rows[i])
  }

  function RowLines(rows: seq<seq<CellValue>>, also: set<char>): seq<string>
    requires RowsFormattable(rows)
  {
    if rows == [] then [] else [Join(FormatCells(rows[0], also), '\t')] + RowLines(rows[1..], also)
  }

  function TableLines(t: Table, also: set<char>): seq<string>
    requires WellFormed(t)
  {
    [Join(EscapedAll(t.columns, also), '\t'), Join(EscapedAll(t.types, also), '\t')] + RowLines(t.rows, also)
  }

  function FormatTable(t: Table, also: set<char>): string
    requires WellFormed(t)
  {
    Terminate(TableLines(t, also), '\n')
  }

  lemma {:induction false} EscapedAllMeans(texts: seq<string>, also: set<char>)
    ensures UnescapedAll(EscapedAll(texts, also)) == texts
    ensures |EscapedAll(texts, also)| == |texts|
    ensures Free(EscapedAll(texts, also), '\t') && Free(EscapedAll(texts, also), '\n')
  {
    if texts != [] {
      UnescapeEscaped(texts[0], also);
      EscapedAllMeans(texts[1..], also);
      assert [texts[0]] + texts[1..] == texts;
    }
  }

  lemma {:induction false} FormatCellsMean(row: seq<CellValue>, also: set<char>)
    requires Formattable(row)
    ensures ParseCells(FormatCells(row, also)) == row
    ensures |FormatCells(row, also)| == |row|
    ensures Free(FormatCells(row, also), '\t') && Free(FormatCells(row, also), '\n')
  {
    if row != [] {
      CellRoundTrip(row[0], also);
      FormatCellsMean(row[1..], also);
      assert [row[0]] + row[1..] == row;
    }
  }

  lemma {:induction false} JoinFree(parts: seq<string>, sep: char, c: char)
    requires Free(parts, c) && c != sep
    ensures c !in Join(parts, sep)
  {
    if |parts| > 1 {
      JoinFree(parts[1..], sep, c);
    }
  }

  lemma {:induction false} RowLinesMean(rows: seq<seq<CellValue>>, also: set<char>)
    requires RowsFormattable(rows)
    ensures ParseRows(RowLines(rows, also)) == rows
    ensures Free(RowLines(rows, also), '\n')
  {
    if rows != [] {
      var cells := FormatCells(rows[0], also);
      FormatCellsMean(rows[0], also);
      SplitJoin(cells, '\t');
      JoinFree(cells, '\t', '\n');
      RowLinesMean(rows[1..], also);
      assert [rows[0]] + rows[1..] == rows;
    }
  }

  lemma HeaderMeans(names: seq<string>, types: seq<string>, also: set<char>)
    requires |names| == |types| && |names| >= 1
    ensures Header(Join(EscapedAll(names, also), '\t'), Join(EscapedAll(types, also), '\t')) == Ok((names, types))
  {
    EscapedAllMeans(names, also);
    EscapedAllMeans(types, also);
    SplitJoin(EscapedAll(names, also), '\t');
    SplitJoin(EscapedAll(types, also), '\t');
  }

  lemma SplitTable(lines: seq<string>)
    requires Free(lines, '\n')
    ensures SplitLines(Terminate(lines, '\n')) == lines
  {
    SplitTerminate(lines, "", '\n');
    SplitWhole("", '\n');
    assert Terminate(lines, '\n') + "" == Terminate(lines, '\n');
    assert Init(lines + [""]) == lines;
  }

  lemma ParseLines(t: Table, also: set<char>, body: string)
    requires WellFormed(t) && body != "" && SplitLines(body) == TableLines(t, also)
    ensures Parsed(body) == Ok(t)
  {
    var lines := TableLines(t, also);
    RowLinesMean(t.rows, also);
    HeaderMeans(t.columns, t.types, also);
    assert lines[2..] == RowLines(t.rows, also);
  }

  lemma LinesFree(t: Table, also: set<char>)
    requires WellFormed(t)
    ensures Free(TableLines(t, also), '\n')
  {
    EscapedAllMeans(t.columns, also);
    EscapedAllMeans(t.types, also);
    JoinFree(EscapedAll(t.columns, also), '\t', '\n');
    JoinFree(EscapedAll(t.types, also), '\t', '\n');
    RowLinesMean(t.rows, also);
  }

  /**
   * Reading back what a formatter wrote gives the table: any cells, NULLs, empty texts, embedded
   * tabs, newlines and backslashes, whichever further characters the formatter chose to escape.
   */
  lemma ParseFormatted(t: Table, also: set<char>)
    requires WellFormed(t)
    ensures Parsed(FormatTable(t, also)) == Ok(t)
  {
    LinesFree(t, also);
    SplitTable(TableLines(t, also));
    assert FormatTable(t, also) != "" by {
      assert TableLines(t, also) != [];
    }
    ParseLines(t, also, FormatTable(t, also));
  }

  /** The newline after the last line may be missing, unless that line is empty. */
  lemma ParseUnterminated(t: Table, also: set<char>)
    requires WellFormed(t) && Last(TableLines(t, also)) != ""
    ensures Parsed(Join(TableLines(t, also), '\n')) == Ok(t)
  {
    hide Join;
    LinesFree(t, also);
    var body := Join(TableLines(t, also), '\n');
    SplitJoin(TableLines(t, also), '\n');
    assert body != "" by {
      SplitWhole("", '\n');
    }
    ParseLines(t, also, body);
  }
}
