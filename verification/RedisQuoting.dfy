/**
 * Which tokens of a Redis command line were quoted. The driver documents that only an unquoted `?` is
 * a placeholder, but a token has lost its quotes by the time it is bound.
 */
module RedisQuoting {
  import opened Wrappers
  import opened Text
  import opened Core
  import opened Whitespace
  import opened RedisCommand

  /** A token, and whether any part of it stood in quotes. */
  datatype Token = Token(text: string, quoted: bool)

  function MarkedScan(input: string, current: string, begun: bool, quoted: bool): Result<seq<Token>, CommandError>
    decreases |input|
  {
    if input == [] then Ok(if begun then [Token(current, quoted)] else [])
    else
      var c, rest := input[0], input[1..];
      if IsWhitespace(c) then
        var tokens :- MarkedScan(rest, "", false, false);
        Ok((if begun then [Token(current, quoted)] else []) + tokens)
      else if IsQuote(c) then
        var end := IndexOf(rest, c);
        if end == |rest| then Err(UnterminatedQuote(c))
        else MarkedScan(rest[end + 1..], current + rest[..end], true, true)
      else MarkedScan(rest, current + [c], true, quoted)
  }

  function MarkedTokens(input: string): Result<seq<Token>, CommandError> {
    MarkedScan(input, "", false, false)
  }

  function Texts(tokens: seq<Token>): (texts: seq<string>)
    ensures |texts| == |tokens| && forall i :: 0 <= i < |tokens| ==> texts[i] == tokens[i].text
  {
    if tokens == [] then [] else [tokens[0].text] + Texts(tokens[1..])
  }

  function Unmarked(r: Result<seq<Token>, CommandError>): Result<seq<string>, CommandError> {
    match r
    case Ok(tokens) => Ok(Texts(tokens))
    case Err(e) => Err(e)
  }

  lemma TextsAppend(a: seq<Token>, b: seq<Token>)
    ensures Texts(a + b) == Texts(a) + Texts(b)
  {
  }

  /** Marking changes nothing else: the texts and the errors are the tokenizer's. */
  lemma {:induction false} MarkedTexts(input: string, current: string, begun: bool, quoted: bool)
    ensures Unmarked(MarkedScan(input, current, begun, quoted)) == Scan(input, current, begun)
    decreases |input|
  {
    if input != [] {
      var c, rest := input[0], input[1..];
      if IsWhitespace(c) {
        MarkedTexts(rest, "", false, false);
        if MarkedScan(rest, "", false, false).Ok? {
          var first := if begun then [Token(current, quoted)] else [];
          TextsAppend(first, MarkedScan(rest, "", false, false).value);
          assert Texts(first) == if begun then [current] else [];
        }
      } else if IsQuote(c) {
        var end := IndexOf(rest, c);
        if end == |rest| {
          assert MarkedScan(input, current, begun, quoted) == Err(UnterminatedQuote(c));
          assert Scan(input, current, begun) == Err(UnterminatedQuote(c));
        } else {
          MarkedTexts(rest[end + 1..], current + rest[..end], true, true);
        }
      } else {
        MarkedTexts(rest, current + [c], true, quoted);
      }
    } else if begun {
      assert [Token(current, quoted)][1..] == [] && Texts([Token(current, quoted)]) == [current];
    }
  }

  /** What the documentation calls a placeholder. */
  predicate Bare(t: Token) {
    t.text == PLACEHOLDER && !t.quoted
  }

  predicate NoQuotedMark(tokens: seq<Token>) {
    forall i :: 0 <= i < |tokens| ==> !(tokens[i].quoted && tokens[i].text == PLACEHOLDER)
  }

  /**
   * The tokens that are bound as placeholders are the documented ones exactly if no quoted token of
   * the line has the text `?`.
   */
  lemma PlaceholdersAreBare(input: string)
    requires Tokens(input).Ok?
    ensures MarkedTokens(input).Ok? && Texts(MarkedTokens(input).value) == Tokens(input).value
    ensures var (tokens, marked) := (Tokens(input).value, MarkedTokens(input).value);
            (forall i :: 0 <= i < |tokens| ==> (tokens[i] == PLACEHOLDER <==> Bare(marked[i]))) <==> NoQuotedMark(marked)
  {
    hide MarkedScan, Scan;
    MarkedTexts(input, "", false, false);
    var (tokens, marked) := (Tokens(input).value, MarkedTokens(input).value);
    if forall i :: 0 <= i < |tokens| ==> (tokens[i] == PLACEHOLDER <==> Bare(marked[i])) {
      forall i | 0 <= i < |marked| ensures !(marked[i].quoted && marked[i].text == PLACEHOLDER) {
        assert tokens[i] == PLACEHOLDER <==> Bare(marked[i]);
      }
    }
  }

  // ----- What is bound -----

  function BareMarks(tokens: seq<Token>): (n: nat)
    ensures n <= |tokens|
  {
    if tokens == [] then 0 else BareMarks(Init(tokens)) + if Bare(Last(tokens)) then 1 else 0
  }

  /** Argument `i` as documented: only a bare `?` takes the value whose turn it is. */
  ghost predicate DocumentedAt(rest: seq<Token>, parameters: seq<CellValue>, i: nat, argument: Argument)
    requires i < |rest|
  {
    if Bare(rest[i]) then
      var k := BareMarks(rest[..i]);
      k < |parameters| && Sends(parameters[k], argument)
    else
      argument == TextArgument(rest[i].text)
  }

  /** Whatever the values, every argument the driver binds is the documented one. */
  ghost predicate BoundAsDocumented(rest: seq<Token>) {
    forall parameters: seq<CellValue>, i: nat, argument: Argument ::
      i < |rest| && BoundAt(Texts(rest), parameters, i, argument) ==> DocumentedAt(rest, parameters, i, argument)
  }

  lemma {:induction false} CountsAgree(tokens: seq<Token>)
    requires NoQuotedMark(tokens)
    ensures Placeholders(Texts(tokens)) == BareMarks(tokens)
  {
    if tokens != [] {
      TextsAppend(Init(tokens), [Last(tokens)]);
      assert tokens == Init(tokens) + [Last(tokens)];
      assert Init(Texts(tokens)) == Texts(Init(tokens));
      CountsAgree(Init(tokens));
    }
  }

  /**
   * The arguments of a command are bound as documented, for all values, exactly if no quoted token
   * after the name has the text `?`.
   */
  lemma DocumentedBinding(rest: seq<Token>)
    ensures BoundAsDocumented(rest) <==> NoQuotedMark(rest)
  {
    if NoQuotedMark(rest) {
      forall parameters: seq<CellValue>, i: nat, argument: Argument |
        i < |rest| && BoundAt(Texts(rest), parameters, i, argument)
        ensures DocumentedAt(rest, parameters, i, argument)
      {
        CountsAgree(rest[..i]);
        assert Texts(rest)[..i] == Texts(rest[..i]);
      }
    } else {
      var i :| 0 <= i < |rest| && rest[i].quoted && rest[i].text == PLACEHOLDER;
      var parameters := seq(|rest|, _ => CellValue.Text(""));
      assert BoundAt(Texts(rest), parameters, i, TextArgument(""));
      assert !DocumentedAt(rest, parameters, i, TextArgument(""));
    }
  }

  lemma MarkedPlain(c: char, rest: string, current: string, begun: bool)
    requires !IsWhitespace(c) && !IsQuote(c)
    ensures MarkedScan([c] + rest, current, begun, false) == MarkedScan(rest, current + [c], true, false)
  {
    assert ([c] + rest)[1..] == rest;
  }

  lemma MarkedBlank(rest: string, current: string)
    requires MarkedScan(rest, "", false, false).Ok?
    ensures MarkedScan(" " + rest, current, true, false) ==
            Ok([Token(current, false)] + MarkedScan(rest, "", false, false).value)
  {
    assert (" " + rest)[1..] == rest;
  }

  lemma MarkedQuotedMark()
    ensures MarkedScan("'?'", "", false, false) == Ok([Token("?", true)])
  {
    assert "'?'"[1..] == "?" + ['\''] + "";
    IndexOfFirst("?", "", '\'');
    assert "'?'"[1..][2..] == "" && "'?'"[1..][..1] == "?" && "" + "?" == "?";
    assert MarkedScan("'?'", "", false, false) == MarkedScan("", "?", true, true);
  }

  lemma MarkedName(rest: string)
    ensures MarkedScan("GET" + rest, "", false, false) == MarkedScan(rest, "GET", true, false)
  {
    MarkedPlain('T', rest, "GE", true);
    MarkedPlain('E', "T" + rest, "G", true);
    MarkedPlain('G', "E" + ("T" + rest), "", false);
    assert "G" + ("E" + ("T" + rest)) == "GET" + rest;
    assert "" + "G" == "G" && "G" + "E" == "GE" && "GE" + "T" == "GET";
  }

  /** A quoted `?` is a placeholder like any other: here the value is bound instead of the text. */
  lemma QuotedMarkBinds(v: CellValue)
    requires v != Null
    ensures MarkedTokens("GET '?'") == Ok([Token("GET", false), Token("?", true)])
    ensures Tokens("GET '?'") == Ok(["GET", "?"])
    ensures BoundAt(["?"], [v], 0, ArgumentOf(v))
  {
    assert BoundAt(["?"], [v], 0, ArgumentOf(v)) by {
      assert ["?"][..0] == [];
    }
    hide MarkedScan, Scan, BoundAt;
    MarkedQuotedMark();
    MarkedBlank("'?'", "GET");
    MarkedName(" " + "'?'");
    assert "GET" + (" " + "'?'") == "GET '?'";
    MarkedTexts("GET '?'", "", false, false);
    assert [Token("GET", false), Token("?", true)] == [Token("GET", false)] + [Token("?", true)];
    assert Texts([Token("GET", false), Token("?", true)]) == ["GET", "?"];
  }
}
