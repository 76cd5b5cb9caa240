/** Redis command lines: splitting them into tokens, binding parameters, and the read-only gate. */
module RedisCommand {
  import opened Wrappers
  import opened Text
  import opened Encoding
  import opened Core
  import opened Whitespace

  datatype CommandError =
    | UnterminatedQuote(quote: char)
    | EmptyCommand
    | NotEnoughParameters
    | NullArgument
    | NotPermitted(name: string)

  predicate IsQuote(c: char) {
    c == '"' || c == '\''
  }

  // ----- Tokens -----

  /** The tokens of `input` after an unfinished token `current`, which counts only if `begun`. */
  function Scan(input: string, current: string, begun: bool): Result<seq<string>, CommandError>
    decreases |input|
  {
    if input == [] then Ok(if begun then [current] else [])
    else
      var c, rest := input[0], input[1..];
      if IsWhitespace(c) then
        var tokens :- Scan(rest, "", false);
        Ok((if begun then [current] else []) + tokens)
      else if IsQuote(c) then
        var end := IndexOf(rest, c);
        if end == |rest| then Err(UnterminatedQuote(c)) else Scan(rest[end + 1..], current + rest[..end], true)
      else Scan(rest, current + [c], true)
  }

  function Tokens(input: string): Result<seq<string>, CommandError> {
    Scan(input, "", false)
  }

  /** What a scan gives once `done` tokens are out. */
  function After(done: seq<string>, r: Result<seq<string>, CommandError>): Result<seq<string>, CommandError> {
    match r
    case Ok(tokens) => Ok(done + tokens)
    case Err(_) => r
  }

  /** How far a reader of `input` is: `tokens` are out, and the unfinished token precedes position `i`. */
  ghost predicate Reads(input: string, tokens: seq<string>, i: nat, current: string, begun: bool) {
    i <= |input| && After(tokens, Scan(input[i..], current, begun)) == Tokens(input)
  }

  method Tokenize(input: string) returns (r: Result<seq<string>, CommandError>)
    ensures r == Tokens(input)
  {
    hide Reads, Tokens, IsWhitespace;
    var tokens: seq<string> := [];
    var current, hasCurrent := "", false;
    var i := 0;
    ReadsFirst(input);
    while i < |input|
      invariant 0 <= i <= |input| && Reads(input, tokens, i, current, hasCurrent)
      invariant !hasCurrent ==> current == ""
    {
      var c := input[i];
      if IsWhitespace(c) {
        ReadSpace(input, tokens, i, current, hasCurrent);
        if hasCurrent {
          tokens := tokens + [current];
          current, hasCurrent := "", false;
        }
        i := i + 1;
      } else if IsQuote(c) {
        ghost var open, held, begun := i, current, hasCurrent;
        hasCurrent := true;
        i := i + 1;
        while i < |input| && input[i] != c
          invariant open < i <= |input|
          invariant forall k :: open < k < i ==> input[k] != c
          invariant current == held + input[open + 1..i]
        {
          current := current + [input[i]];
          i := i + 1;
        }
        ReadQuote(input, tokens, open, i, held, begun);
        if i == |input| {
          return Err(UnterminatedQuote(c));
        }
        i := i + 1;
      } else {
        ReadOther(input, tokens, i, current, hasCurrent);
        current := current + [c];
        hasCurrent := true;
        i := i + 1;
      }
    }
    ReadsLast(input, tokens, current, hasCurrent);
    if hasCurrent {
      tokens := tokens + [current];
    }
    return Ok(tokens);
  }

  lemma ReadsFirst(input: string)
    ensures Reads(input, [], 0, "", false)
  {
    assert input[0..] == input;
    AfterNone(Tokens(input));
  }

  lemma ReadsLast(input: string, tokens: seq<string>, current: string, begun: bool)
    requires Reads(input, tokens, |input|, current, begun)
    ensures Tokens(input) == Ok(if begun then tokens + [current] else tokens)
  {
    assert tokens + [] == tokens;
  }

  lemma ReadSpace(input: string, tokens: seq<string>, i: nat, current: string, begun: bool)
    requires i < |input| && IsWhitespace(input[i]) && Reads(input, tokens, i, current, begun)
    ensures Reads(input, if begun then tokens + [current] else tokens, i + 1, "", false)
  {
    hide Tokens, IsWhitespace;
    assert input[i..][1..] == input[i + 1..];
    var rest := Scan(input[i + 1..], "", false);
    AfterOne(tokens, current, rest);
    AfterNone(rest);
  }

  lemma ReadQuote(input: string, tokens: seq<string>, i: nat, end: nat, current: string, begun: bool)
    requires i < end <= |input| && IsQuote(input[i]) && !IsWhitespace(input[i])
    requires forall k :: i < k < end ==> input[k] != input[i]
    requires end < |input| ==> input[end] == input[i]
    requires Reads(input, tokens, i, current, begun)
    ensures if end == |input| then Tokens(input) == Err(UnterminatedQuote(input[i]))
            else Reads(input, tokens, end + 1, current + input[i + 1..end], true)
  {
    hide Tokens, IsWhitespace, IsQuote, IndexOf;
    assert input[i..][1..] == input[i + 1..];
    var rest, c := input[i + 1..], input[i];
    assert IndexOf(rest, c) == end - i - 1;
    if end < |input| {
      assert rest[..end - i - 1] == input[i + 1..end] && rest[end - i..] == input[end + 1..];
    }
  }

  lemma ReadOther(input: string, tokens: seq<string>, i: nat, current: string, begun: bool)
    requires i < |input| && !IsWhitespace(input[i]) && !IsQuote(input[i]) && Reads(input, tokens, i, current, begun)
    ensures Reads(input, tokens, i + 1, current + [input[i]], true)
  {
    hide Tokens, IsWhitespace;
    assert input[i..][1..] == input[i + 1..];
  }

  lemma AfterOne(done: seq<string>, current: string, r: Result<seq<string>, CommandError>)
    ensures After(done + [current], r) == After(done, After([current], r))
  {
    if r.Ok? {
      Associative(done, [current], r.value);
    }
  }

  lemma AfterNone(r: Result<seq<string>, CommandError>)
    ensures After([], r) == r
  {
    if r.Ok? {
      assert [] + r.value == r.value;
    }
  }

  // ----- When tokenizing fails -----

  /** The quote a reader is inside of, if any, after one more character. */
  function NextOpen(open: Option<char>, c: char): Option<char> {
    match open
    case None => if !IsWhitespace(c) && IsQuote(c) then Some(c) else None
    case Some(q) => if c == q then None else open
  }

  function OpenAfter(open: Option<char>, input: string): Option<char>
    decreases |input|
  {
    if input == [] then open else OpenAfter(NextOpen(open, input[0]), input[1..])
  }

  lemma {:induction false} OpenUntil(q: char, input: string)
    ensures var end := IndexOf(input, q);
            OpenAfter(Some(q), input) == if end == |input| then Some(q) else OpenAfter(None, input[end + 1..])
    decreases |input|
  {
    if input != [] && input[0] != q {
      OpenUntil(q, input[1..]);
      var end := IndexOf(input[1..], q);
      if end < |input[1..]| {
        assert input[1..][end + 1..] == input[end + 2..];
      }
    }
  }

  /** Tokenizing fails exactly when a quote is still open at the end, and reports that quote. */
  lemma {:induction false} FailsIffQuoteOpen(input: string, current: string, begun: bool)
    ensures Scan(input, current, begun).Err? <==> OpenAfter(None, input).Some?
    ensures Scan(input, current, begun).Err? ==>
              Scan(input, current, begun).error == UnterminatedQuote(OpenAfter(None, input).value)
    decreases |input|
  {
    if input != [] {
      var c, rest := input[0], input[1..];
      if IsWhitespace(c) {
        FailsIffQuoteOpen(rest, "", false);
      } else if IsQuote(c) {
        OpenUntil(c, rest);
        var end := IndexOf(rest, c);
        if end < |rest| {
          FailsIffQuoteOpen(rest[end + 1..], current + rest[..end], true);
        }
      } else {
        FailsIffQuoteOpen(rest, current + [c], true);
      }
    }
  }

  // ----- A printer that tokenizing inverts -----

  function QuotedChar(c: char): string {
    if c == '"' then ['\'', c, '\''] else ['"', c, '"']
  }

  function QuotedChars(token: string): string {
    if token == [] then [] else QuotedChar(token[0]) + QuotedChars(token[1..])
  }

  /** A token in quotes; the empty pair in front keeps the empty token. */
  function QuotedToken(token: string): string {
    "\"\"" + QuotedChars(token)
  }

  function Printed(tokens: seq<string>): string {
    if tokens == [] then [] else QuotedToken(tokens[0]) + " " + Printed(tokens[1..])
  }

  lemma ScanQuotedChar(c: char, rest: string, current: string)
    ensures Scan(QuotedChar(c) + rest, current, true) == Scan(rest, current + [c], true)
  {
    var q := if c == '"' then '\'' else '"';
    var text := QuotedChar(c) + rest;
    assert text[1..] == [c] + [q] + rest;
    IndexOfFirst([c], rest, q);
    assert text[1..][2..] == rest && text[1..][..1] == [c];
  }

  lemma {:induction false} ScanQuotedChars(token: string, rest: string, current: string)
    ensures Scan(QuotedChars(token) + rest, current, true) == Scan(rest, current + token, true)
    decreases |token|
  {
    if token == [] {
      assert QuotedChars(token) + rest == rest && current + token == current;
    } else {
      Associative(QuotedChar(token[0]), QuotedChars(token[1..]), rest);
      ScanQuotedChar(token[0], QuotedChars(token[1..]) + rest, current);
      ScanQuotedChars(token[1..], rest, current + [token[0]]);
      assert current + [token[0]] + token[1..] == current + token;
    }
  }

  lemma ScanEmptyQuotes(body: string)
    ensures Scan("\"\"" + body, "", false) == Scan(body, "", true)
  {
    var text := "\"\"" + body;
    assert text[1..] == [] + ['"'] + body;
    IndexOfFirst([], body, '"');
    assert text[1..][1..] == body && "" + text[1..][..0] == "";
  }

  lemma ScanBlank(rest: string, current: string)
    ensures Scan(" " + rest, current, true) == After([current], Scan(rest, "", false))
  {
    assert (" " + rest)[1..] == rest;
  }

  lemma ScanQuotedToken(token: string, rest: string)
    ensures Scan(QuotedToken(token) + " " + rest, "", false) == After([token], Scan(rest, "", false))
  {
    hide Scan, QuotedChars, After;
    var body := QuotedChars(token) + (" " + rest);
    assert QuotedToken(token) + " " + rest == "\"\"" + body;
    ScanEmptyQuotes(body);
    ScanQuotedChars(token, " " + rest, "");
    assert "" + token == token;
    ScanBlank(rest, token);
  }

  /** Every list of strings, empty ones included, can be printed so that tokenizing gives it back. */
  lemma {:induction false} TokensOfPrinted(tokens: seq<string>)
    ensures Tokens(Printed(tokens)) == Ok(tokens)
  {
    if tokens != [] {
      ScanQuotedToken(tokens[0], Printed(tokens[1..]));
      TokensOfPrinted(tokens[1..]);
      assert [tokens[0]] + tokens[1..] == tokens;
    }
  }

  // ----- Every spelling of a line -----

  /** A piece of a token: a character as it stands, or text in quotes. */
  datatype Part = Bare(c: char) | Quote(quote: char, text: string)

  /** A token in parts and the white space after it. */
  datatype Spelled = Spelled(parts: seq<Part>, space: string)

  predicate SoundPart(p: Part) {
    match p
    case Bare(c) => !IsWhitespace(c) && !IsQuote(c)
    case Quote(quote, text) => IsQuote(quote) && quote !in text
  }

  predicate SoundToken(t: Spelled) {
    t.parts != [] && Blank(t.space) && forall i :: 0 <= i < |t.parts| ==> SoundPart(t.parts[i])
  }

  function PartText(p: Part): string {
    if p.Bare? then [p.c] else [p.quote] + p.text + [p.quote]
  }

  function PartMeaning(p: Part): string {
    if p.Bare? then [p.c] else p.text
  }

  function PartsText(parts: seq<Part>): string {
    if parts == [] then [] else PartText(parts[0]) + PartsText(parts[1..])
  }

  function PartsMeaning(parts: seq<Part>): string {
    if parts == [] then [] else PartMeaning(parts[0]) + PartsMeaning(parts[1..])
  }

  /** The text of some tokens; there is white space between any two. */
  function LineText(tokens: seq<Spelled>): string {
    if tokens == [] then [] else PartsText(tokens[0].parts) + tokens[0].space + LineText(tokens[1..])
  }

  function LineMeaning(tokens: seq<Spelled>): seq<string> {
    if tokens == [] then [] else [PartsMeaning(tokens[0].parts)] + LineMeaning(tokens[1..])
  }

  predicate SoundLine(tokens: seq<Spelled>) {
    && (forall i :: 0 <= i < |tokens| ==> SoundToken(tokens[i]))
    && (forall i :: 0 <= i < |tokens| - 1 ==> tokens[i].space != "")
  }

  lemma WhitespaceNoQuote(c: char)
    ensures IsWhitespace(c) ==> !IsQuote(c)
  {
  }

  lemma ScanPart(p: Part, rest: string, current: string, begun: bool)
    requires SoundPart(p)
    ensures Scan(PartText(p) + rest, current, begun) == Scan(rest, current + PartMeaning(p), true)
  {
    var text := PartText(p) + rest;
    match p
    case Bare(c) => assert text[1..] == rest;
    case Quote(quote, inner) =>
      WhitespaceNoQuote(quote);
      assert text[0] == quote && text[1..] == inner + [quote] + rest;
      IndexOfFirst(inner, rest, quote);
      assert text[1..][..|inner|] == inner && text[1..][|inner| + 1..] == rest;
  }

  lemma {:induction false} ScanParts(parts: seq<Part>, rest: string, current: string, begun: bool)
    requires forall i :: 0 <= i < |parts| ==> SoundPart(parts[i])
    requires begun || parts != []
    ensures Scan(PartsText(parts) + rest, current, begun) == Scan(rest, current + PartsMeaning(parts), true)
    decreases |parts|
  {
    if parts == [] {
      assert PartsText(parts) + rest == rest && current + PartsMeaning(parts) == current;
    } else {
      hide Scan, PartText, PartMeaning;
      Associative(PartText(parts[0]), PartsText(parts[1..]), rest);
      ScanPart(parts[0], PartsText(parts[1..]) + rest, current, begun);
      ScanParts(parts[1..], rest, current + PartMeaning(parts[0]), true);
      Associative(current, PartMeaning(parts[0]), PartsMeaning(parts[1..]));
    }
  }

  lemma {:induction false} ScanSpaces(space: string, rest: string)
    requires Blank(space)
    ensures Scan(space + rest, "", false) == Scan(rest, "", false)
    decreases |space|
  {
    if space == [] {
      assert space + rest == rest;
    } else {
      assert (space + rest)[1..] == space[1..] + rest;
      ScanSpaces(space[1..], rest);
      AfterNone(Scan(rest, "", false));
    }
  }

  /** White space ends a token, and so does the end of the line. */
  lemma ScanEnd(space: string, rest: string, current: string)
    requires Blank(space) && (space != "" || rest == "")
    ensures Scan(space + rest, current, true) == After([current], Scan(rest, "", false))
  {
    if space == "" {
      assert space + rest == "" && [current] + [] == [current];
    } else {
      assert (space + rest)[1..] == space[1..] + rest;
      ScanSpaces(space[1..], rest);
    }
  }

  /**
   * Every line means its tokens, however they are spelled: plain characters and quoted stretches run
   * together, quotes of one kind inside the other, empty quotes, and any white space around.
   */
  lemma {:induction false} TokensOfSpelled(lead: string, tokens: seq<Spelled>)
    requires Blank(lead) && SoundLine(tokens)
    ensures Tokens(lead + LineText(tokens)) == Ok(LineMeaning(tokens))
    decreases |tokens|
  {
    ScanSpaces(lead, LineText(tokens));
    if tokens != [] {
      hide Scan, PartsText, PartsMeaning, LineText, Blank, SoundPart;
      FirstToken(tokens);
      TokensOfSpelled("", tokens[1..]);
      assert "" + LineText(tokens[1..]) == LineText(tokens[1..]);
    }
  }

  lemma FirstToken(tokens: seq<Spelled>)
    requires SoundLine(tokens) && tokens != []
    ensures SoundLine(tokens[1..]) && Blank("")
    ensures Scan(LineText(tokens), "", false) ==
            After([PartsMeaning(tokens[0].parts)], Scan(LineText(tokens[1..]), "", false))
  {
    hide Scan, PartsText, PartsMeaning, After;
    var (first, rest) := (tokens[0], LineText(tokens[1..]));
    LineTextMore(tokens);
    LineTextEmpty(tokens[1..]);
    hide LineText;
    ScanParts(first.parts, first.space + rest, "", false);
    assert "" + PartsMeaning(first.parts) == PartsMeaning(first.parts);
    ScanEnd(first.space, rest, PartsMeaning(first.parts));
  }

  lemma LineTextMore(tokens: seq<Spelled>)
    requires tokens != []
    ensures LineText(tokens) == PartsText(tokens[0].parts) + (tokens[0].space + LineText(tokens[1..]))
  {
    Associative(PartsText(tokens[0].parts), tokens[0].space, LineText(tokens[1..]));
  }

  lemma LineTextEmpty(tokens: seq<Spelled>)
    ensures tokens == [] ==> LineText(tokens) == ""
  {
  }

  // ----- Commands -----

  datatype Argument = TextArgument(text: string) | BytesArgument(bytes: seq<Byte>)

  datatype Command = Command(name: string, arguments: seq<Argument>)

  const PLACEHOLDER := "?"

  function Placeholders(tokens: seq<string>): (n: nat)
    ensures n <= |tokens|
  {
    if tokens == [] then 0 else Placeholders(Init(tokens)) + if Last(tokens) == PLACEHOLDER then 1 else 0
  }

  function ArgumentOf(v: CellValue): Argument
    requires v != Null
  {
    if v.Text? then TextArgument(v.text) else BytesArgument(v.bytes)
  }

  /** The argument is the value: its text as text, or its bytes as bytes. */
  predicate Sends(v: CellValue, argument: Argument) {
    match argument
    case TextArgument(text) => v == Text(text)
    case BytesArgument(bytes) => v == Bytes(bytes)
  }

  /** Argument `i` is the token itself, or the value whose turn it is if the token is a placeholder. */
  ghost predicate BoundAt(rest: seq<string>, parameters: seq<CellValue>, i: nat, argument: Argument)
    requires i < |rest|
  {
    if rest[i] == PLACEHOLDER then
      var k := Placeholders(rest[..i]);
      k < |parameters| && Sends(parameters[k], argument)
    else
      argument == TextArgument(rest[i])
  }

  /** The command has the first token as its name and every later one bound. */
  ghost predicate Bound(tokens: seq<string>, parameters: seq<CellValue>, upper: string -> string, command: Command) {
    && tokens != [] && command.name == upper(tokens[0]) && |command.arguments| == |tokens| - 1
    && forall i :: 0 <= i < |tokens| - 1 ==> BoundAt(tokens[1..], parameters, i, command.arguments[i])
  }

  /** There is a value, and not a NULL, for each of the first `n` placeholders. */
  predicate Suffice(parameters: seq<CellValue>, n: nat) {
    n <= |parameters| && forall k :: 0 <= k < n ==> parameters[k] != Null
  }

  lemma {:induction false} PlaceholdersGrow(tokens: seq<string>, i: nat)
    requires i <= |tokens|
    ensures Placeholders(tokens[..i]) <= Placeholders(tokens)
    decreases |tokens|
  {
    if i < |tokens| {
      PlaceholdersGrow(Init(tokens), i);
      assert Init(tokens)[..i] == tokens[..i];
    } else {
      assert tokens[..i] == tokens;
    }
  }

  /**
   * Builds a command: it succeeds exactly if there is a name and a non-NULL value for every
   * placeholder; then the k-th placeholder after the name has become the k-th value, as an argument
   * of its own, and every other token an argument as it stands. Surplus values are ignored.
   */
  method BuildCommand(tokens: seq<string>, parameters: seq<CellValue>, upper: string -> string)
    returns (r: Result<Command, CommandError>)
    ensures r.Ok? <==> tokens != [] && Suffice(parameters, Placeholders(tokens[1..]))
    ensures r.Ok? ==> Bound(tokens, parameters, upper, r.value)
    ensures tokens == [] ==> r == Err(EmptyCommand)
    ensures tokens != [] && r.Err? ==>
              r.error == if Suffice(parameters, Min(Placeholders(tokens[1..]), |parameters|)) then NotEnoughParameters
                         else NullArgument
  {
    if tokens == [] {
      return Err(EmptyCommand);
    }
    var rest := tokens[1..];
    var arguments: seq<Argument> := [];
    var next := 0;
    for i := 0 to |rest|
      invariant |arguments| == i && next == Placeholders(rest[..i]) && Suffice(parameters, next)
      invariant forall j :: 0 <= j < i ==> BoundAt(rest, parameters, j, arguments[j])
    {
      assert Init(rest[..i + 1]) == rest[..i] && Last(rest[..i + 1]) == rest[i];
      if rest[i] == PLACEHOLDER {
        PlaceholdersGrow(rest, i + 1);
        if next >= |parameters| {
          return Err(NotEnoughParameters);
        }
        if parameters[next] == Null {
          return Err(NullArgument);
        }
        arguments := arguments + [ArgumentOf(parameters[next])];
        next := next + 1;
      } else {
        arguments := arguments + [TextArgument(rest[i])];
      }
    }
    assert rest[..|rest|] == rest;
    return Ok(Command(upper(tokens[0]), arguments));
  }

  const READ_ONLY_COMMANDS: seq<string> := [
    "GET", "MGET", "GETRANGE", "STRLEN", "SUBSTR",
    "HGET", "HGETALL", "HMGET", "HKEYS", "HVALS", "HLEN", "HSTRLEN", "HEXISTS", "HRANDFIELD", "HSCAN",
    "LRANGE", "LLEN", "LINDEX", "LPOS",
    "SMEMBERS", "SISMEMBER", "SMISMEMBER", "SCARD", "SRANDMEMBER", "SSCAN", "SINTER", "SUNION", "SDIFF",
    "ZRANGE", "ZRANGEBYSCORE", "ZRANGEBYLEX", "ZREVRANGE", "ZREVRANGEBYSCORE", "ZREVRANGEBYLEX", "ZSCORE", "ZMSCORE",
    "ZCARD", "ZCOUNT", "ZLEXCOUNT", "ZRANK", "ZREVRANK", "ZSCAN", "ZRANDMEMBER",
    "XRANGE", "XREVRANGE", "XLEN", "XREAD", "XINFO",
    "EXISTS", "TYPE", "TTL", "PTTL", "EXPIRETIME", "PEXPIRETIME", "KEYS", "SCAN", "DBSIZE", "RANDOMKEY", "DUMP",
    "OBJECT", "BITCOUNT", "BITPOS", "GETBIT",
    "PING", "ECHO", "TIME", "COMMAND", "INFO", "MEMORY"
  ]

  /** Lets a query pass exactly if it tokenizes and its first token names a command on the list. */
  method RequireReadOnly(query: string, upper: string -> string) returns (r: Result<(), CommandError>)
    ensures r.Ok? <==> Tokens(query).Ok? && Tokens(query).value != [] && upper(Tokens(query).value[0]) in READ_ONLY_COMMANDS
    ensures Tokens(query).Err? ==> r == Err(Tokens(query).error)
    ensures Tokens(query) == Ok([]) ==> r == Err(EmptyCommand)
    ensures r.Err? && Tokens(query).Ok? && Tokens(query).value != [] ==> r == Err(NotPermitted(upper(Tokens(query).value[0])))
  {
    var tokenized := Tokenize(query);
    match tokenized {
      case Err(error) =>
        return Err(error);
      case Ok(tokens) =>
        if tokens == [] {
          return Err(EmptyCommand);
        }
        var name := upper(tokens[0]);
        if name in READ_ONLY_COMMANDS {
          return Ok(());
        }
        return Err(NotPermitted(name));
    }
  }

  /**
   * The command a user's query becomes. On a read-only connection nothing leaves under a name off the
   * list, whatever the parameters and however case is raised; otherwise the gate changes nothing.
   */
  method UserCommand(query: string, parameters: seq<CellValue>, readOnly: bool, upper: string -> string)
    returns (r: Result<Command, CommandError>)
    ensures r.Ok? && readOnly ==> r.value.name in READ_ONLY_COMMANDS
    ensures r.Ok? <==>
              && Tokens(query).Ok? && Tokens(query).value != []
              && (readOnly ==> upper(Tokens(query).value[0]) in READ_ONLY_COMMANDS)
              && Suffice(parameters, Placeholders(Tokens(query).value[1..]))
    ensures r.Ok? ==> Bound(Tokens(query).value, parameters, upper, r.value)
    ensures Tokens(query).Err? ==> r == Err(Tokens(query).error)
  {
    hide Tokens, Suffice, Placeholders, BoundAt;
    if readOnly {
      var gate := RequireReadOnly(query, upper);
      if gate.Err? {
        return Err(gate.error);
      }
    }
    var tokenized := Tokenize(query);
    match tokenized {
      case Err(error) => return Err(error);
      case Ok(tokens) => r := BuildCommand(tokens, parameters, upper);
    }
  }
}
