/** Server-Sent Events framing: the encoder, and the incremental decoder with its line buffer. */
module Sse {
  import opened Wrappers
  import opened Text

  datatype SseEvent = SseEvent(event: Option<string>, data: string, id: Option<string>)

  /** The fields gathered since the last blank line. */
  datatype Pending = Pending(event: Option<string>, id: Option<string>, dataLines: seq<string>)

  const NothingPending := Pending(None, None, [])

  // ----- What one line means -----

  function FirstLine(s: string): (r: string)
    ensures r <= s && '\n' !in r && '\r' !in r
    ensures |r| < |s| ==> s[|r|] == '\n' || s[|r|] == '\r'
    ensures '\n' !in s && '\r' !in s ==> r == s
  {
    if s == [] || s[0] == '\n' || s[0] == '\r' then [] else [s[0]] + FirstLine(s[1..])
  }

  function DropCr(line: string): (r: string)
    ensures r == line || r + "\r" == line
  {
    if line != [] && Last(line) == '\r' then Init(line) else line
  }

  /** Field name and value of a line that is not a comment. */
  function FieldOf(line: string): (string, string) {
    var colon := IndexOf(line, ':');
    var raw := if colon == |line| then "" else line[colon + 1..];
    (line[..colon], if " " <= raw then raw[1..] else raw)
  }

  function Apply(p: Pending, line: string): Pending {
    if ":" <= line then p else
      var (field, value) := FieldOf(line);
      if field == "data" then p.(dataLines := p.dataLines + [value])
      else if field == "event" then p.(event := Some(value))
      else if field == "id" then p.(id := Some(value))
      else p
  }

  function Dispatched(p: Pending): seq<SseEvent> {
    if p.dataLines == [] then [] else [SseEvent(p.event, Join(p.dataLines, '\n'), p.id)]
  }

  function NextPending(p: Pending, raw: string): Pending {
    var line := DropCr(raw);
    if line == [] then NothingPending else Apply(p, line)
  }

  function LineEvents(p: Pending, raw: string): seq<SseEvent> {
    if DropCr(raw) == [] then Dispatched(p) else []
  }

  /** The fields pending after a number of finished lines. */
  function After(p: Pending, lines: seq<string>): Pending
    decreases |lines|
  {
    if lines == [] then p else After(NextPending(p, lines[0]), lines[1..])
  }

  /** The events a number of finished lines complete. */
  function Events(p: Pending, lines: seq<string>): seq<SseEvent>
    decreases |lines|
  {
    if lines == [] then [] else LineEvents(p, lines[0]) + Events(NextPending(p, lines[0]), lines[1..])
  }

  lemma OneMoreLine(p: Pending, raw: string)
    ensures After(p, [raw]) == NextPending(p, raw) && Events(p, [raw]) == LineEvents(p, raw)
  {
    assert [raw][1..] == [];
  }

  lemma {:induction false} LinesAppend(p: Pending, a: seq<string>, b: seq<string>)
    ensures After(p, a + b) == After(After(p, a), b)
    ensures Events(p, a + b) == Events(p, a) + Events(After(p, a), b)
    decreases |a|
  {
    if a == [] {
      assert a + b == b;
    } else {
      assert (a + b)[0] == a[0] && (a + b)[1..] == a[1..] + b;
      LinesAppend(NextPending(p, a[0]), a[1..], b);
    }
  }

  // ----- The decoder -----

  /** What feeding a text gives: the events, the unfinished last line, and the fields left pending. */
  datatype Outcome = Outcome(events: seq<SseEvent>, buffer: string, pending: Pending)

  function Fed(buffer: string, p: Pending, chunk: string): Outcome {
    var pieces := Split(buffer + chunk, '\n');
    Outcome(Events(p, Init(pieces)), Last(pieces), After(p, Init(pieces)))
  }

  function FedAll(buffer: string, p: Pending, chunks: seq<string>): Outcome
    decreases |chunks|
  {
    if chunks == [] then Outcome([], buffer, p) else
      var first := Fed(buffer, p, chunks[0]);
      var rest := FedAll(first.buffer, first.pending, chunks[1..]);
      Outcome(first.events + rest.events, rest.buffer, rest.pending)
  }

  class PendingEvent {
    var event: Option<string>
    var id: Option<string>
    var dataLines: seq<string>

    constructor ()
      ensures Value() == NothingPending
    {
      event, id, dataLines := None, None, [];
    }

    function Value(): Pending
      reads this
    {
      Pending(event, id, dataLines)
    }

    method ApplyLine(line: string)
      modifies this
      ensures Value() == Apply(old(Value()), line)
    {
      if ":" <= line {
        return;
      }
      var colon := IndexOf(line, ':');
      var field, rawValue := line[..colon], "";
      if colon < |line| {
        rawValue := line[colon + 1..];
      }
      var value := rawValue;
      if " " <= rawValue {
        value := rawValue[1..];
      }
      match field {
        case "data" => dataLines := dataLines + [value];
        case "event" => event := Some(value);
        case "id" => id := Some(value);
        case _ =>
      }
    }

    method Dispatch() returns (r: Option<SseEvent>)
      modifies this
      ensures Value() == NothingPending
      ensures (if r.Some? then [r.value] else []) == Dispatched(old(Value()))
    {
      if dataLines == [] {
        Reset();
        return None;
      }
      r := Some(SseEvent(event, Join(dataLines, '\n'), id));
      Reset();
    }

    method Reset()
      modifies this
      ensures Value() == NothingPending
    {
      event, id, dataLines := None, None, [];
    }
  }

  class SseDecoder {
    var buffer: string
    const pending: PendingEvent

    constructor ()
      ensures buffer == "" && pending.Value() == NothingPending && fresh(pending)
    {
      buffer := "";
      pending := new PendingEvent();
    }

    method Feed(chunk: string) returns (events: seq<SseEvent>)
      modifies this, pending
      ensures Outcome(events, buffer, pending.Value()) == Fed(old(buffer), old(pending.Value()), chunk)
    {
      ghost var start := pending.Value();
      buffer := buffer + chunk;
      events := [];
      ghost var pieces := Split(buffer, '\n');
      ghost var done: seq<string> := [];
      while IndexOf(buffer, '\n') < |buffer|
        invariant pieces == done + Split(buffer, '\n')
        invariant Events(start, done) == events && After(start, done) == pending.Value()
        decreases |buffer|
      {
        var idx := IndexOf(buffer, '\n');
        var line := buffer[..idx];
        SplitNext(pieces, done, buffer, '\n');
        LinesAppend(start, done, [line]);
        OneMoreLine(pending.Value(), line);
        done := done + [line];
        buffer := buffer[idx + 1..];
        line := DropCr(line);
        if line == [] {
          var event := pending.Dispatch();
          if event.Some? {
            events := events + [event.value];
          }
          continue;
        }
        pending.ApplyLine(line);
      }
    }
  }

  lemma FeedTwice(buffer: string, p: Pending, a: string, b: string)
    ensures var first := Fed(buffer, p, a);
            var second := Fed(first.buffer, first.pending, b);
            Fed(buffer, p, a + b) == Outcome(first.events + second.events, second.buffer, second.pending)
  {
    SplitAppend(buffer + a, b, '\n');
    assert buffer + (a + b) == buffer + a + b;
    var pieces := Split(buffer + a, '\n');
    var rest := Split(Last(pieces) + b, '\n');
    assert Init(Init(pieces) + rest) == Init(pieces) + Init(rest);
    LinesAppend(p, Init(pieces), Init(rest));
  }

  /**
   * However a text is cut into chunks, feeding them one by one gives the events, the leftover buffer
   * and the pending fields of feeding it whole.
   */
  lemma {:induction false} ChunkingIrrelevant(buffer: string, p: Pending, chunks: seq<string>)
    requires '\n' !in buffer
    ensures FedAll(buffer, p, chunks) == Fed(buffer, p, Flatten(chunks))
    decreases |chunks|
  {
    if chunks == [] {
      assert buffer + [] == buffer;
      SplitWhole(buffer, '\n');
    } else {
      SplitFree(buffer + chunks[0], '\n');
      var first := Fed(buffer, p, chunks[0]);
      ChunkingIrrelevant(first.buffer, first.pending, chunks[1..]);
      FeedTwice(buffer, p, chunks[0], Flatten(chunks[1..]));
    }
  }

  // ----- What a stream means, block by block -----

  /** Values of the field `name` in a block of lines, in order. */
  function FieldValues(block: seq<string>, name: string): seq<string> {
    if block == [] then [] else
      var before := FieldValues(Init(block), name);
      var line := Last(block);
      if !(":" <= line) && FieldOf(line).0 == name then before + [FieldOf(line).1] else before
  }

  function LastOf(values: seq<string>): Option<string> {
    if values == [] then None else Some(Last(values))
  }

  /** The event of a block: all its data lines joined, and its last event name and id. */
  function BlockEvent(block: seq<string>): seq<SseEvent> {
    var data := FieldValues(block, "data");
    if data == [] then []
    else [SseEvent(LastOf(FieldValues(block, "event")), Join(data, '\n'), LastOf(FieldValues(block, "id")))]
  }

  /** Reads a stream as blocks ended by blank lines; `block` is the one already begun. */
  function BlockEvents(block: seq<string>, lines: seq<string>): seq<SseEvent>
    decreases |lines|
  {
    if lines == [] then []
    else if DropCr(lines[0]) == [] then BlockEvent(block) + BlockEvents([], lines[1..])
    else BlockEvents(block + [DropCr(lines[0])], lines[1..])
  }

  function Gathered(block: seq<string>): Pending {
    Pending(LastOf(FieldValues(block, "event")), LastOf(FieldValues(block, "id")), FieldValues(block, "data"))
  }

  lemma {:induction false} EventsAreBlockwise(block: seq<string>, lines: seq<string>)
    ensures Events(Gathered(block), lines) == BlockEvents(block, lines)
    decreases |lines|
  {
    if lines != [] {
      var line := DropCr(lines[0]);
      if line == [] {
        EventsAreBlockwise([], lines[1..]);
      } else {
        var longer := block + [line];
        assert Init(longer) == block && Last(longer) == line;
        assert Apply(Gathered(block), line) == Gathered(longer);
        EventsAreBlockwise(longer, lines[1..]);
      }
    }
  }

  lemma EventsOfText(chunks: seq<string>)
    ensures FedAll("", NothingPending, chunks).events == BlockEvents([], Init(Split(Flatten(chunks), '\n')))
    ensures FedAll("", NothingPending, chunks).buffer == Last(Split(Flatten(chunks), '\n'))
  {
    ChunkingIrrelevant("", NothingPending, chunks);
    assert "" + Flatten(chunks) == Flatten(chunks);
    EventsAreBlockwise([], Init(Split(Flatten(chunks), '\n')));
  }

  // ----- The spellings of a line, by section 9.2.6 of the HTML standard -----

  /** A line that is not blank: a comment, a field with a space after its colon or without, or a name alone. */
  datatype Spelling =
    | Comment(text: string)
    | Spaced(name: string, value: string)
    | Tight(name: string, value: string)
    | Lone(name: string)

  predicate Sound(l: Spelling) {
    match l
    case Comment(_) => true
    case Spaced(name, _) => name != "" && ':' !in name
    case Tight(name, value) => name != "" && ':' !in name && !(" " <= value)
    case Lone(name) => name != "" && ':' !in name
  }

  function LineText(l: Spelling): string {
    match l
    case Comment(text) => ":" + text
    case Spaced(name, value) => name + (": " + value)
    case Tight(name, value) => name + (":" + value)
    case Lone(name) => name
  }

  /** Every line that is not blank is spelled in one of these ways. */
  lemma EveryLineSpelled(line: string)
    requires line != ""
    ensures exists l :: Sound(l) && LineText(l) == line
  {
    var colon := IndexOf(line, ':');
    var name := line[..colon];
    assert ':' !in name;
    if colon == 0 {
      assert line == LineText(Comment(line[1..]));
    } else if colon == |line| {
      assert line == LineText(Lone(name)) && Sound(Lone(name));
    } else if " " <= line[colon + 1..] {
      var l := Spaced(name, line[colon + 2..]);
      assert line == LineText(l) && Sound(l);
    } else {
      var l := Tight(name, line[colon + 1..]);
      assert line == LineText(l) && Sound(l);
    }
  }

  lemma NotComment(name: string, rest: string)
    requires name != "" && ':' !in name
    ensures !(":" <= name + rest)
  {
    assert (name + rest)[0] == name[0];
  }

  lemma FieldOfSpaced(name: string, value: string)
    requires ':' !in name
    ensures FieldOf(name + (": " + value)) == (name, value)
  {
    var line := name + (": " + value);
    assert line == name + [':'] + (" " + value);
    IndexOfFirst(name, " " + value, ':');
    assert line[..|name|] == name && line[|name| + 1..] == " " + value && (" " + value)[1..] == value;
  }

  lemma FieldOfTight(name: string, value: string)
    requires ':' !in name && !(" " <= value)
    ensures FieldOf(name + (":" + value)) == (name, value)
  {
    var line := name + (":" + value);
    assert line == name + [':'] + value;
    IndexOfFirst(name, value, ':');
    assert line[..|name|] == name && line[|name| + 1..] == value;
  }

  lemma FieldOfLone(name: string)
    requires ':' !in name
    ensures FieldOf(name) == (name, "")
  {
    assert IndexOf(name, ':') == |name|;
    assert name[..|name|] == name;
  }

  /** The field of a line: the value starts after the colon and one space, if there is one. */
  lemma FieldOfSpelling(l: Spelling)
    requires Sound(l)
    ensures l.Comment? <==> ":" <= LineText(l)
    ensures l.Spaced? || l.Tight? ==> FieldOf(LineText(l)) == (l.name, l.value)
    ensures l.Lone? ==> FieldOf(LineText(l)) == (l.name, "")
    ensures LineText(l) != ""
  {
    hide FieldOf;
    match l
    case Comment(_) =>
    case Spaced(name, value) =>
      NotComment(name, ": " + value);
      FieldOfSpaced(name, value);
    case Tight(name, value) =>
      NotComment(name, ":" + value);
      FieldOfTight(name, value);
    case Lone(name) =>
      NotComment(name, "");
      assert name + "" == name;
      FieldOfLone(name);
  }

  /** The values of the lines called `name`; a name alone has the empty value. */
  function Values(block: seq<Spelling>, name: string): seq<string> {
    if block == [] then []
    else
      Values(Init(block), name) +
      match Last(block) {
        case Comment(_) => []
        case Spaced(n, value) => if n == name then [value] else []
        case Tight(n, value) => if n == name then [value] else []
        case Lone(n) => if n == name then [""] else []
      }
  }

  /** A block with data is one event: the data lines joined by newlines, the last event name, the last id. */
  function EventOf(block: seq<Spelling>): seq<SseEvent> {
    var data := Values(block, "data");
    if data == [] then []
    else [SseEvent(LastOf(Values(block, "event")), Join(data, '\n'), LastOf(Values(block, "id")))]
  }

  /** A line of a stream, ended by a newline with or without a carriage return before it. */
  datatype Row = Field(line: Spelling, cr: bool) | Blank(cr: bool)

  function RowText(r: Row): string {
    (if r.Field? then LineText(r.line) else "") + (if r.cr then "\r" else "")
  }

  predicate SoundRow(r: Row) {
    && '\n' !in RowText(r)
    && (r.Field? ==> Sound(r.line) && LineText(r.line) != "" && (r.cr || Last(LineText(r.line)) != '\r'))
  }

  function RowTexts(rows: seq<Row>): (texts: seq<string>)
    ensures |texts| == |rows|
    ensures forall i :: 0 <= i < |rows| ==> texts[i] == RowText(rows[i])
  {
    if rows == [] then [] else [RowText(rows[0])] + RowTexts(rows[1..])
  }

  /** The events of the finished blocks; `block` has begun before. */
  function EventsOf(block: seq<Spelling>, rows: seq<Row>): seq<SseEvent>
    decreases |rows|
  {
    if rows == [] then []
    else
      match rows[0]
      case Blank(_) => EventOf(block) + EventsOf([], rows[1..])
      case Field(line, _) => EventsOf(block + [line], rows[1..])
  }

  function LineTexts(block: seq<Spelling>): seq<string> {
    if block == [] then [] else LineTexts(Init(block)) + [LineText(Last(block))]
  }

  ghost predicate AllSound(block: seq<Spelling>) {
    forall i :: 0 <= i < |block| ==> Sound(block[i])
  }

  lemma {:induction false} ValuesOfTexts(block: seq<Spelling>, name: string)
    requires AllSound(block)
    ensures FieldValues(LineTexts(block), name) == Values(block, name)
  {
    if block != [] {
      ValuesOfTexts(Init(block), name);
      FieldOfSpelling(Last(block));
      assert Init(LineTexts(block)) == LineTexts(Init(block)) && Last(LineTexts(block)) == LineText(Last(block));
    }
  }

  lemma BlockOfTexts(block: seq<Spelling>)
    requires AllSound(block)
    ensures BlockEvent(LineTexts(block)) == EventOf(block)
  {
    ValuesOfTexts(block, "data");
    ValuesOfTexts(block, "event");
    ValuesOfTexts(block, "id");
  }

  lemma RowLine(r: Row)
    requires SoundRow(r)
    ensures DropCr(RowText(r)) == if r.Field? then LineText(r.line) else ""
  {
    if r.Field? {
      FieldOfSpelling(r.line);
    }
    if r.cr {
      assert Init(RowText(r)) == if r.Field? then LineText(r.line) else "";
    }
  }

  lemma {:induction false} EventsOfRows(block: seq<Spelling>, rows: seq<Row>)
    requires AllSound(block) && forall i :: 0 <= i < |rows| ==> SoundRow(rows[i])
    ensures BlockEvents(LineTexts(block), RowTexts(rows)) == EventsOf(block, rows)
    decreases |rows|
  {
    if rows != [] {
      var texts := RowTexts(rows);
      assert texts[0] == RowText(rows[0]) && texts[1..] == RowTexts(rows[1..]);
      assert SoundRow(rows[0]);
      RowLine(rows[0]);
      match rows[0]
      case Blank(_) =>
        BlockOfTexts(block);
        EventsOfRows([], rows[1..]);
      case Field(line, _) =>
        FieldOfSpelling(line);
        var longer := block + [line];
        assert Init(longer) == block && Last(longer) == line;
        assert LineTexts(longer) == LineTexts(block) + [LineText(line)];
        EventsOfRows(longer, rows[1..]);
    }
  }

  /**
   * A stream of lines, however each is spelled and ended and however the text arrives: a fresh decoder
   * reports the events of the finished blocks, and keeps the unfinished last line.
   */
  lemma DecoderReadsBlocks(rows: seq<Row>, tail: string, chunks: seq<string>)
    requires '\n' !in tail && forall i :: 0 <= i < |rows| ==> SoundRow(rows[i])
    requires Flatten(chunks) == Terminate(RowTexts(rows), '\n') + tail
    ensures FedAll("", NothingPending, chunks).events == EventsOf([], rows)
    ensures FedAll("", NothingPending, chunks).buffer == tail
  {
    hide FedAll, BlockEvents, Split, Terminate, Flatten, RowText;
    EventsOfText(chunks);
    SplitTerminate(RowTexts(rows), tail, '\n');
    SplitWhole(tail, '\n');
    assert Init(RowTexts(rows) + [tail]) == RowTexts(rows);
    assert LineTexts([]) == [];
    EventsOfRows([], rows);
  }

  // ----- The encoder and the round trip -----

  function FieldText(name: string, value: string): string {
    name + ": " + value
  }

  function FieldTexts(name: string, values: seq<string>): seq<string> {
    if values == [] then [] else [FieldText(name, values[0])] + FieldTexts(name, values[1..])
  }

  lemma {:induction false} FieldTextsAppend(name: string, a: seq<string>, b: seq<string>)
    ensures FieldTexts(name, a + b) == FieldTexts(name, a) + FieldTexts(name, b)
  {
    if a == [] {
      assert a + b == b;
    } else {
      assert (a + b)[1..] == a[1..] + b;
      FieldTextsAppend(name, a[1..], b);
    }
  }

  lemma {:induction false} FieldTextsAt(name: string, values: seq<string>)
    ensures |FieldTexts(name, values)| == |values|
    ensures forall i :: 0 <= i < |values| ==> FieldTexts(name, values)[i] == FieldText(name, values[i])
  {
    if values != [] {
      FieldTextsAt(name, values[1..]);
    }
  }

  function OptionalLine(name: string, value: Option<string>): seq<string> {
    if value.Some? then [FieldText(name, FirstLine(value.value))] else []
  }

  function EncodedLines(e: SseEvent): seq<string> {
    OptionalLine("event", e.event) + OptionalLine("id", e.id) + FieldTexts("data", Split(e.data, '\n')) + [""]
  }

  function Encoded(e: SseEvent): string {
    Terminate(EncodedLines(e), '\n')
  }

  lemma ThreeLines(a: string, b: string, c: string)
    ensures Terminate([a, b, c, ""], '\n') == a + "\n" + b + "\n" + c + "\n" + "\n"
  {
    assert [a, b, c, ""] == [a] + [b] + [c] + [""];
    TerminateSnoc([], a, '\n');
    TerminateSnoc([a], b, '\n');
    TerminateSnoc([a] + [b], c, '\n');
    TerminateSnoc([a] + [b] + [c], "", '\n');
    assert [] + [a] == [a];
  }

  /** The text of an event whose name, id and data are one line each. */
  lemma EncodedText(name: string, id: string, data: string)
    requires '\n' !in name && '\r' !in name && '\n' !in id && '\r' !in id && '\n' !in data
    ensures Encoded(SseEvent(Some(name), data, Some(id))) ==
            ("event: " + name) + "\n" + ("id: " + id) + "\n" + ("data: " + data) + "\n" + "\n"
  {
    SplitWhole(data, '\n');
    var (e, f, d) := (FieldText("event", name), FieldText("id", id), FieldText("data", data));
    assert FieldTexts("data", [data]) == [d];
    assert EncodedLines(SseEvent(Some(name), data, Some(id))) == [e, f, d, ""];
    ThreeLines(e, f, d);
    assert "event" + ": " == "event: " && "id" + ": " == "id: " && "data" + ": " == "data: ";
  }

  method EncodeSseEvent(e: SseEvent) returns (out: string)
    ensures out == Encoded(e)
  {
    out := "";
    ghost var written: seq<string> := [];
    if e.event.Some? {
      var field := FieldText("event", FirstLine(e.event.value));
      TerminateSnoc(written, field, '\n');
      written := written + [field];
      out := out + field + "\n";
    }
    if e.id.Some? {
      var field := FieldText("id", FirstLine(e.id.value));
      TerminateSnoc(written, field, '\n');
      written := written + [field];
      out := out + field + "\n";
    }
    assert written == OptionalLine("event", e.event) + OptionalLine("id", e.id);
    var lines := Split(e.data, '\n');
    var i := 0;
    assert written + FieldTexts("data", lines[..0]) == written;
    while i < |lines|
      invariant 0 <= i <= |lines|
      invariant out == Terminate(written + FieldTexts("data", lines[..i]), '\n')
    {
      var field := FieldText("data", lines[i]);
      EncodeOneMore(written, lines, i);
      out := out + field + "\n";
      i := i + 1;
    }
    assert lines[..i] == lines;
    TerminateSnoc(written + FieldTexts("data", lines), "", '\n');
    out := out + "\n";
  }

  lemma EncodeOneMore(written: seq<string>, lines: seq<string>, i: nat)
    requires i < |lines|
    ensures Terminate(written + FieldTexts("data", lines[..i + 1]), '\n') ==
            Terminate(written + FieldTexts("data", lines[..i]), '\n') + FieldText("data", lines[i]) + "\n"
  {
    assert lines[..i + 1] == lines[..i] + [lines[i]];
    FieldTextsAppend("data", lines[..i], [lines[i]]);
    assert FieldTexts("data", [lines[i]]) == [FieldText("data", lines[i])];
    assert written + FieldTexts("data", lines[..i + 1]) ==
           written + FieldTexts("data", lines[..i]) + [FieldText("data", lines[i])];
    TerminateSnoc(written + FieldTexts("data", lines[..i]), FieldText("data", lines[i]), '\n');
  }

  function DropCrs(lines: seq<string>): (r: seq<string>)
    ensures |r| == |lines|
    ensures forall i :: 0 <= i < |lines| ==> r[i] == DropCr(lines[i])
  {
    if lines == [] then [] else [DropCr(lines[0])] + DropCrs(lines[1..])
  }

  function OptionalFirst(value: Option<string>): Option<string> {
    if value.Some? then Some(FirstLine(value.value)) else None
  }

  /** What survives the wire: one line of event name and id, and each data line without one final CR. */
  function Normal(e: SseEvent): SseEvent {
    SseEvent(OptionalFirst(e.event), Join(DropCrs(Split(e.data, '\n')), '\n'), OptionalFirst(e.id))
  }

  lemma DropCrSuffix(head: string, value: string)
    requires head != [] && Last(head) != '\r'
    ensures DropCr(head + value) == head + DropCr(value)
  {
    if value != [] {
      assert Last(head + value) == Last(value);
      assert Init(head + value) == head + Init(value);
    } else {
      assert head + value == head;
    }
  }

  lemma FieldLine(name: string, value: string)
    requires name != [] && ':' !in name && '\r' !in name
    ensures DropCr(FieldText(name, value)) == FieldText(name, DropCr(value))
    ensures !(":" <= FieldText(name, DropCr(value))) && FieldText(name, DropCr(value)) != []
    ensures FieldOf(FieldText(name, DropCr(value))) == (name, DropCr(value))
  {
    var v := DropCr(value);
    var line := name + ": " + v;
    DropCrSuffix(name + ": ", value);
    assert line[0] == name[0];
    assert line == name + [':'] + (" " + v);
    IndexOfFirst(name, " " + v, ':');
    assert line[..|name|] == name && line[|name| + 1..] == " " + v;
    assert (" " + v)[1..] == v;
  }

  lemma DataLine(p: Pending, value: string)
    ensures LineEvents(p, FieldText("data", value)) == []
    ensures NextPending(p, FieldText("data", value)) == p.(dataLines := p.dataLines + [DropCr(value)])
  {
    FieldLine("data", value);
  }

  lemma EventLine(p: Pending, value: string)
    ensures LineEvents(p, FieldText("event", value)) == []
    ensures NextPending(p, FieldText("event", value)) == p.(event := Some(DropCr(value)))
  {
    FieldLine("event", value);
  }

  lemma IdLine(p: Pending, value: string)
    ensures LineEvents(p, FieldText("id", value)) == []
    ensures NextPending(p, FieldText("id", value)) == p.(id := Some(DropCr(value)))
  {
    FieldLine("id", value);
  }

  lemma LinesCons(p: Pending, head: string, tail: seq<string>)
    ensures After(p, [head] + tail) == After(NextPending(p, head), tail)
    ensures Events(p, [head] + tail) == LineEvents(p, head) + Events(NextPending(p, head), tail)
  {
  }

  lemma {:induction false} DataLines(p: Pending, lines: seq<string>)
    ensures Events(p, FieldTexts("data", lines)) == []
    ensures After(p, FieldTexts("data", lines)) == Pending(p.event, p.id, p.dataLines + DropCrs(lines))
    decreases |lines|
  {
    if lines != [] {
      var value := DropCr(lines[0]);
      LinesCons(p, FieldText("data", lines[0]), FieldTexts("data", lines[1..]));
      DataLine(p, lines[0]);
      DataLines(Pending(p.event, p.id, p.dataLines + [value]), lines[1..]);
      Associative(p.dataLines, [value], DropCrs(lines[1..]));
    }
  }

  lemma OptionalLines(event: Option<string>, id: Option<string>)
    ensures var named := OptionalLine("event", event) + OptionalLine("id", id);
            && Events(NothingPending, named) == []
            && After(NothingPending, named) == Pending(OptionalFirst(event), OptionalFirst(id), [])
  {
    var a, b := OptionalLine("event", event), OptionalLine("id", id);
    var p := NothingPending.(event := OptionalFirst(event));
    LinesAppend(NothingPending, a, b);
    if event.Some? {
      EventLine(NothingPending, FirstLine(event.value));
      OneMoreLine(NothingPending, a[0]);
    }
    if id.Some? {
      IdLine(p, FirstLine(id.value));
      OneMoreLine(p, b[0]);
    }
  }

  /** The lines of one encoded event complete exactly that event, in normal form. */
  lemma EncodedLinesMean(e: SseEvent)
    ensures Events(NothingPending, EncodedLines(e)) == [Normal(e)]
    ensures After(NothingPending, EncodedLines(e)) == NothingPending
  {
    var named := OptionalLine("event", e.event) + OptionalLine("id", e.id);
    var lines := Split(e.data, '\n');
    var p := Pending(OptionalFirst(e.event), OptionalFirst(e.id), []);
    OptionalLines(e.event, e.id);
    DataLines(p, lines);
    assert p.dataLines + DropCrs(lines) == DropCrs(lines);
    LinesAppend(NothingPending, named, FieldTexts("data", lines));
    LinesAppend(NothingPending, named + FieldTexts("data", lines), [""]);
    OneMoreLine(p.(dataLines := DropCrs(lines)), "");
  }

  function EncodedAll(es: seq<SseEvent>): string {
    if es == [] then [] else Encoded(es[0]) + EncodedAll(es[1..])
  }

  function Normals(es: seq<SseEvent>): (r: seq<SseEvent>)
    ensures |r| == |es| && forall i :: 0 <= i < |es| ==> r[i] == Normal(es[i])
  {
    if es == [] then [] else [Normal(es[0])] + Normals(es[1..])
  }

  lemma EncodedLinesFree(e: SseEvent)
    ensures Free(EncodedLines(e), '\n')
  {
    SplitFree(e.data, '\n');
    FieldTextsAt("data", Split(e.data, '\n'));
  }

  lemma FedOne(e: SseEvent)
    ensures Fed("", NothingPending, Encoded(e)) == Outcome([Normal(e)], "", NothingPending)
  {
    var lines := EncodedLines(e);
    EncodedLinesFree(e);
    SplitTerminate(lines, "", '\n');
    SplitWhole("", '\n');
    assert "" + Encoded(e) == Encoded(e) + "" == Encoded(e);
    assert Init(lines + [""]) == lines;
    EncodedLinesMean(e);
  }

  lemma {:induction false} FedEncoded(es: seq<SseEvent>)
    ensures Fed("", NothingPending, EncodedAll(es)) == Outcome(Normals(es), "", NothingPending)
    decreases |es|
  {
    if es == [] {
      SplitWhole("", '\n');
    } else {
      var head, tail := Encoded(es[0]), EncodedAll(es[1..]);
      FedOne(es[0]);
      FedEncoded(es[1..]);
      FeedTwice("", NothingPending, head, tail);
    }
  }

  /**
   * Events encoded one after the other, cut into chunks anywhere and fed to a fresh decoder, come
   * out in order and in normal form, and leave nothing behind.
   */
  lemma DecodeEncode(es: seq<SseEvent>, chunks: seq<string>)
    requires Flatten(chunks) == EncodedAll(es)
    ensures FedAll("", NothingPending, chunks) == Outcome(Normals(es), "", NothingPending)
  {
    ChunkingIrrelevant("", NothingPending, chunks);
    FedEncoded(es);
  }

  ghost predicate OneLine(value: Option<string>) {
    value.Some? ==> '\n' !in value.value && '\r' !in value.value
  }

  ghost predicate EndsInCr(line: string) {
    line != [] && Last(line) == '\r'
  }

  /** The wire loses nothing of an event exactly when its name and id are one line and no data line ends in CR. */
  lemma NormalIsIdentity(e: SseEvent)
    ensures Normal(e) == e <==>
            && OneLine(e.event) && OneLine(e.id)
            && forall i :: 0 <= i < |Split(e.data, '\n')| ==> !EndsInCr(Split(e.data, '\n')[i])
  {
    var lines := Split(e.data, '\n');
    var cut := DropCrs(lines);
    SplitFree(e.data, '\n');
    SplitJoin(cut, '\n');
    JoinSplit(e.data, '\n');
    assert Join(cut, '\n') == e.data <==> cut == lines;
    if cut == lines {
      forall i | 0 <= i < |lines|
        ensures !EndsInCr(lines[i])
      {
        assert cut[i] == lines[i];
      }
    } else {
      var i :| 0 <= i < |lines| && cut[i] != lines[i];
      assert EndsInCr(lines[i]);
    }
  }
}
