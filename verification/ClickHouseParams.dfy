/**
 * The rewriting of `?` placeholders into ClickHouse's typed named parameters, bound out of band as
 * hex text, and the quoting of identifiers that are spliced into such statements.
 */
module ClickHouseParams {
  import opened Wrappers
  import opened Text
  import opened Encoding
  import opened Core

  // ----- The lexer: which characters are outside quotes and backticks -----

  datatype Mode = Plain | Quoted | Escaped | Ticked

  function Next(m: Mode, c: char): Mode {
    match m
    case Plain => if c == '\'' then Quoted else if c == '`' then Ticked else Plain
    case Quoted => if c == '\\' then Escaped else if c == '\'' then Plain else Quoted
    case Escaped => Quoted
    case Ticked => if c == '`' then Plain else Ticked
  }

  function ModeAfter(m: Mode, text: string): Mode
    decreases |text|
  {
    if text == [] then m else ModeAfter(Next(m, text[0]), text[1..])
  }

  lemma {:induction false} ModeAfterAppend(m: Mode, a: string, b: string)
    ensures ModeAfter(m, a + b) == ModeAfter(ModeAfter(m, a), b)
    decreases |a|
  {
    if a == [] {
      assert a + b == b;
    } else {
      assert (a + b)[1..] == a[1..] + b;
      ModeAfterAppend(Next(m, a[0]), a[1..], b);
    }
  }

  // ----- The rewriting -----

  function Placeholder(n: nat): string {
    "unhex({p" + Decimal(n) + ":String})"
  }

  predicate Marker(m: Mode, c: char) {
    m == Plain && c == '?'
  }

  /** The number of `?` outside quotes and backticks in a text that is entered in mode `m`. */
  function Markers(m: Mode, sql: string): nat
    decreases |sql|
  {
    if sql == [] then 0 else (if Marker(m, sql[0]) then 1 else 0) + Markers(Next(m, sql[0]), sql[1..])
  }

  /** `sql` entered in mode `m`, after `k` placeholders. */
  function Rewritten(m: Mode, sql: string, k: nat): string
    decreases |sql|
  {
    if sql == [] then []
    else if Marker(m, sql[0]) then Placeholder(k + 1) + Rewritten(m, sql[1..], k + 1)
    else [sql[0]] + Rewritten(Next(m, sql[0]), sql[1..], k)
  }

  /**
   * The scanner of the driver: it looks one character ahead for doubled quotes and backticks. That
   * comes to the same as leaving and entering the quotes again.
   */
  method RewriteQuestionMarks(sql: string) returns (out: string, count: nat)
    ensures out == Rewritten(Plain, sql, 0)
    ensures count == Markers(Plain, sql)
  {
    out, count := "", 0;
    var inSingleQuote, inBacktick := false, false;
    var i := 0;
    while i < |sql|
      invariant 0 <= i <= |sql| && !(inSingleQuote && inBacktick)
      invariant var m := if inSingleQuote then Quoted else if inBacktick then Ticked else Plain;
                && out + Rewritten(m, sql[i..], count) == Rewritten(Plain, sql, 0)
                && count + Markers(m, sql[i..]) == Markers(Plain, sql)
      decreases |sql| - i
    {
      var ch := sql[i];
      ghost var m := if inSingleQuote then Quoted else if inBacktick then Ticked else Plain;
      OneCharacter(m, sql[i..], out, count);
      assert sql[i..][1..] == sql[i + 1..];
      i := i + 1;
      if inSingleQuote {
        out := out + [ch];
        if ch == '\\' {
          if i < |sql| {
            OneCharacter(Escaped, sql[i..], out, count);
            assert sql[i..][1..] == sql[i + 1..];
            out := out + [sql[i]];
            i := i + 1;
          }
          continue;
        }
        if ch == '\'' {
          if i < |sql| && sql[i] == '\'' {
            OneCharacter(Plain, sql[i..], out, count);
            assert sql[i..][1..] == sql[i + 1..];
            out := out + [sql[i]];
            i := i + 1;
            continue;
          }
          inSingleQuote := false;
        }
        continue;
      }
      if inBacktick {
        out := out + [ch];
        if ch == '`' {
          if i < |sql| && sql[i] == '`' {
            OneCharacter(Plain, sql[i..], out, count);
            assert sql[i..][1..] == sql[i + 1..];
            out := out + [sql[i]];
            i := i + 1;
            continue;
          }
          inBacktick := false;
        }
        continue;
      }
      match ch {
        case '\'' =>
          inSingleQuote := true;
          out := out + [ch];
        case '`' =>
          inBacktick := true;
          out := out + [ch];
        case '?' =>
          count := count + 1;
          out := out + Placeholder(count);
        case _ =>
          out := out + [ch];
      }
    }
    assert out + [] == out;
  }

  lemma OneCharacter(m: Mode, rest: string, out: string, k: nat)
    requires rest != []
    ensures Marker(m, rest[0]) ==>
              out + Rewritten(m, rest, k) == out + Placeholder(k + 1) + Rewritten(m, rest[1..], k + 1)
    ensures !Marker(m, rest[0]) ==>
              out + Rewritten(m, rest, k) == out + [rest[0]] + Rewritten(Next(m, rest[0]), rest[1..], k)
  {
    Associative(out, Placeholder(k + 1), Rewritten(m, rest[1..], k + 1));
    Associative(out, [rest[0]], Rewritten(Next(m, rest[0]), rest[1..], k));
  }

  lemma {:induction false} RewrittenAppend(m: Mode, a: string, b: string, k: nat)
    ensures Rewritten(m, a + b, k) ==
            Rewritten(m, a, k) + Rewritten(ModeAfter(m, a), b, k + Markers(m, a))
    ensures Markers(m, a + b) == Markers(m, a) + Markers(ModeAfter(m, a), b)
    decreases |a|
  {
    if a == [] {
      assert a + b == b;
    } else {
      assert (a + b)[0] == a[0] && (a + b)[1..] == a[1..] + b;
      var c, rest := a[0], a[1..];
      if Marker(m, c) {
        RewrittenAppend(m, rest, b, k + 1);
        Associative(Placeholder(k + 1), Rewritten(m, rest, k + 1),
                    Rewritten(ModeAfter(m, a), b, k + Markers(m, a)));
      } else {
        RewrittenAppend(Next(m, c), rest, b, k);
        Associative([c], Rewritten(Next(m, c), rest, k), Rewritten(ModeAfter(m, a), b, k + Markers(m, a)));
      }
    }
  }

  /** A text without `?`, quotes and backticks passes through in plain mode. */
  lemma {:induction false} InertText(text: string, k: nat)
    requires forall i :: 0 <= i < |text| ==> text[i] !in "?'`"
    ensures Rewritten(Plain, text, k) == text && Markers(Plain, text) == 0 && ModeAfter(Plain, text) == Plain
  {
    if text != [] {
      InertText(text[1..], k);
    }
  }

  lemma PlaceholderInert(n: nat)
    ensures forall i :: 0 <= i < |Placeholder(n)| ==> Placeholder(n)[i] !in "?'`"
  {
    var head, tail := "unhex({p", ":String})";
    var p := head + Decimal(n) + tail;
    forall i | 0 <= i < |p|
      ensures p[i] !in "?'`"
    {
      if i >= |head| && i < |head| + |Decimal(n)| {
        assert p[i] == Decimal(n)[i - |head|];
      }
    }
  }

  /** Rewriting leaves no placeholder behind, so a second pass changes nothing. */
  lemma {:induction false} RewritingIdempotent(m: Mode, sql: string, k: nat, j: nat)
    ensures Rewritten(m, Rewritten(m, sql, k), j) == Rewritten(m, sql, k)
    ensures Markers(m, Rewritten(m, sql, k)) == 0
    decreases |sql|
  {
    if sql != [] {
      var c, rest := sql[0], sql[1..];
      if Marker(m, c) {
        RewritingIdempotent(m, rest, k + 1, j);
        PlaceholderInert(k + 1);
        InertText(Placeholder(k + 1), j);
        RewrittenAppend(m, Placeholder(k + 1), Rewritten(m, rest, k + 1), j);
      } else {
        RewritingIdempotent(Next(m, c), rest, k, j);
        assert ([c] + Rewritten(Next(m, c), rest, k))[1..] == Rewritten(Next(m, c), rest, k);
      }
    }
  }

  // ----- Quoting of spliced names -----

  function Doubled(name: string, quote: char): string {
    if name == [] then []
    else if name[0] == quote then [quote, quote] + Doubled(name[1..], quote)
    else [name[0]] + Doubled(name[1..], quote)
  }

  function Enclosed(name: string, quote: char): string {
    [quote] + Doubled(name, quote) + [quote]
  }

  lemma {:induction false} DoubledAppend(a: string, b: string, quote: char)
    ensures Doubled(a + b, quote) == Doubled(a, quote) + Doubled(b, quote)
  {
    if a == [] {
      assert a + b == b;
    } else {
      assert (a + b)[1..] == a[1..] + b;
      DoubledAppend(a[1..], b, quote);
      Associative(if a[0] == quote then [quote, quote] else [a[0]], Doubled(a[1..], quote), Doubled(b, quote));
    }
  }

  method QuoteIdent(name: string) returns (quoted: string)
    ensures quoted == Enclosed(name, '`')
  {
    quoted := EncloseIn(name, '`');
  }

  method QuoteLiteral(value: string) returns (quoted: string)
    ensures quoted == Enclosed(value, '\'')
  {
    quoted := EncloseIn(value, '\'');
  }

  method EncloseIn(name: string, quote: char) returns (quoted: string)
    ensures quoted == Enclosed(name, quote)
  {
    quoted := [quote];
    for i := 0 to |name|
      invariant quoted == [quote] + Doubled(name[..i], quote)
    {
      assert name[..i + 1] == name[..i] + [name[i]];
      DoubledAppend(name[..i], [name[i]], quote);
      if name[i] == quote {
        quoted := quoted + [quote];
      }
      quoted := quoted + [name[i]];
    }
    assert name[..|name|] == name;
    quoted := quoted + [quote];
  }

  /** `text`, met in mode `m` after `k` placeholders, is copied and leaves the mode as it was. */
  ghost predicate Inert(m: Mode, text: string, k: nat) {
    Rewritten(m, text, k) == text && Markers(m, text) == 0 && ModeAfter(m, text) == m
  }

  lemma {:induction false} TickedBody(name: string, k: nat)
    ensures Inert(Ticked, Doubled(name, '`'), k)
  {
    if name != [] {
      TickedBody(name[1..], k);
      var text, rest := Doubled(name, '`'), Doubled(name[1..], '`');
      if name[0] == '`' {
        assert text[1..] == "`" + rest && text[1..][1..] == rest;
        assert Rewritten(Plain, text[1..], k) == "`" + rest;
      } else {
        assert text[1..] == rest;
      }
    }
  }

  lemma QuotedIdentInert(name: string, k: nat)
    ensures Inert(Plain, Enclosed(name, '`'), k)
  {
    var body := Doubled(name, '`');
    assert "`"[1..] == "";
    TickedBody(name, k);
    RewrittenAppend(Ticked, body, "`", k);
    ModeAfterAppend(Ticked, body, "`");
    assert Enclosed(name, '`')[1..] == body + "`";
  }

  lemma InertSplice(before: string, text: string, after: string)
    requires ModeAfter(Plain, before) == Plain && Inert(Plain, text, Markers(Plain, before))
    ensures Rewritten(Plain, before + text + after, 0) ==
            Rewritten(Plain, before, 0) + text + Rewritten(Plain, after, Markers(Plain, before))
    ensures Markers(Plain, before + text + after) == Markers(Plain, before) + Markers(Plain, after)
    ensures ModeAfter(Plain, before + text + after) == ModeAfter(Plain, after)
  {
    hide Rewritten, Markers, ModeAfter;
    RewrittenAppend(Plain, before, text, 0);
    ModeAfterAppend(Plain, before, text);
    RewrittenAppend(Plain, before + text, after, 0);
    ModeAfterAppend(Plain, before + text, after);
  }

  /**
   * A quoted identifier may be spliced in wherever the statement is outside quotes: for every name
   * and whatever stands next to it, it stays as it is, holds no placeholder, and leaves the text
   * before and after it rewritten as if it were not there.
   */
  lemma QuotedIdentTransparent(before: string, name: string, after: string)
    requires ModeAfter(Plain, before) == Plain
    ensures Rewritten(Plain, before + Enclosed(name, '`') + after, 0) ==
            Rewritten(Plain, before, 0) + Enclosed(name, '`') + Rewritten(Plain, after, Markers(Plain, before))
    ensures Rewritten(Plain, before + after, 0) ==
            Rewritten(Plain, before, 0) + Rewritten(Plain, after, Markers(Plain, before))
    ensures Markers(Plain, before + Enclosed(name, '`') + after) == Markers(Plain, before + after)
    ensures ModeAfter(Plain, before + Enclosed(name, '`') + after) == ModeAfter(Plain, before + after)
  {
    hide Rewritten, Markers, ModeAfter, Enclosed, Inert;
    QuotedIdentInert(name, Markers(Plain, before));
    InertSplice(before, Enclosed(name, '`'), after);
    RewrittenAppend(Plain, before, after, 0);
    ModeAfterAppend(Plain, before, after);
  }

  /** Reading backslashes in pairs with what follows them, none stands before a quote or at the end. */
  predicate BackslashSafe(value: string) {
    if value == [] then true
    else if value[0] == '\\' then |value| > 1 && value[1] != '\'' && BackslashSafe(value[2..])
    else BackslashSafe(value[1..])
  }

  /** Once a literal has been left too early, doubled quotes never get back into it. */
  lemma {:induction false} BrokenOut(m: Mode, value: string)
    requires m == Plain || m == Ticked
    ensures ModeAfter(m, Doubled(value, '\'')) == Plain || ModeAfter(m, Doubled(value, '\'')) == Ticked
    decreases |value|
  {
    if value != [] {
      if value[0] == '\'' {
        assert Doubled(value, '\'')[1..][1..] == Doubled(value[1..], '\'');
        BrokenOut(m, value[1..]);
      } else {
        assert Doubled(value, '\'')[1..] == Doubled(value[1..], '\'');
        BrokenOut(Next(m, value[0]), value[1..]);
      }
    }
  }

  lemma {:induction false} QuotedBody(value: string)
    ensures BackslashSafe(value) <==> ModeAfter(Quoted, Doubled(value, '\'')) == Quoted
    decreases |value|
  {
    if value != [] {
      var text, rest := Doubled(value, '\''), Doubled(value[1..], '\'');
      if value[0] == '\\' {
        assert text[1..] == rest;
        if |value| > 1 {
          assert value[1..][1..] == value[2..];
          if value[1] == '\'' {
            assert rest[1..][1..] == Doubled(value[2..], '\'');
            assert ModeAfter(Escaped, rest) == ModeAfter(Plain, rest[1..][1..]);
            BrokenOut(Plain, value[2..]);
          } else {
            assert rest[1..] == Doubled(value[2..], '\'');
            QuotedBody(value[2..]);
          }
        }
      } else if value[0] == '\'' {
        assert text[1..][1..] == rest;
        QuotedBody(value[1..]);
      } else {
        assert text[1..] == rest;
        QuotedBody(value[1..]);
      }
    }
  }

  /**
   * A quoted string literal doubles quotes but leaves backslashes alone, while the lexer reads
   * backslash escapes. So it ends where it should exactly for values whose backslashes, taken in
   * pairs with the next character, stand neither before a quote nor at the end.
   */
  lemma QuotedLiteralCloses(value: string)
    ensures ModeAfter(Plain, Enclosed(value, '\'')) == Plain <==> BackslashSafe(value)
  {
    var body := Doubled(value, '\'');
    QuotedBody(value);
    assert "'"[1..] == "";
    ModeAfterAppend(Quoted, body, "'");
    assert Enclosed(value, '\'')[1..] == body + "'";
  }

  lemma {:induction false} SafeBody(value: string, k: nat)
    requires BackslashSafe(value)
    ensures Inert(Quoted, Doubled(value, '\''), k)
    decreases |value|
  {
    if value != [] {
      var text, rest := Doubled(value, '\''), Doubled(value[1..], '\'');
      if value[0] == '\\' {
        assert text[1..] == rest && value[1..][1..] == value[2..];
        assert rest[1..] == Doubled(value[2..], '\'');
        SafeBody(value[2..], k);
        assert Rewritten(Escaped, rest, k) == [rest[0]] + Rewritten(Quoted, rest[1..], k);
      } else {
        SafeBody(value[1..], k);
        if value[0] == '\'' {
          assert text[1..] == "'" + rest && text[1..][1..] == rest;
          assert Rewritten(Plain, text[1..], k) == "'" + rest;
        } else {
          assert text[1..] == rest;
        }
      }
    }
  }

  /**
   * A quoted literal that ends where it should may be spliced in outside quotes like a quoted
   * identifier: no `?` in it is ever taken for a placeholder.
   */
  lemma QuotedLiteralTransparent(before: string, value: string, after: string)
    requires ModeAfter(Plain, before) == Plain && BackslashSafe(value)
    ensures Rewritten(Plain, before + Enclosed(value, '\'') + after, 0) ==
            Rewritten(Plain, before, 0) + Enclosed(value, '\'') + Rewritten(Plain, after, Markers(Plain, before))
    ensures Markers(Plain, before + Enclosed(value, '\'') + after) == Markers(Plain, before) + Markers(Plain, after)
  {
    var k := Markers(Plain, before);
    assert Inert(Plain, Enclosed(value, '\''), k) by {
      var body := Doubled(value, '\'');
      assert "'"[1..] == "";
      SafeBody(value, k);
      RewrittenAppend(Quoted, body, "'", k);
      ModeAfterAppend(Quoted, body, "'");
      assert Enclosed(value, '\'')[1..] == body + "'";
    }
    hide Rewritten, Markers, ModeAfter, Enclosed, Inert;
    InertSplice(before, Enclosed(value, '\''), after);
  }

  // ----- Binding: what the server makes of the rewritten statement -----

  predicate IsNameChar(c: char) {
    'a' <= c <= 'z' || 'A' <= c <= 'Z' || '0' <= c <= '9' || c == '_'
  }

  /** The length of the longest run of name characters at the front. */
  function NameLength(s: string): (n: nat)
    ensures n <= |s|
    ensures forall i :: 0 <= i < n ==> IsNameChar(s[i])
    ensures n < |s| ==> !IsNameChar(s[n])
  {
    if s == [] || !IsNameChar(s[0]) then 0 else 1 + NameLength(s[1..])
  }

  lemma NameLengthIs(s: string, n: nat)
    requires n < |s| && !IsNameChar(s[n]) && forall i :: 0 <= i < n ==> IsNameChar(s[i])
    ensures NameLength(s) == n
  {
  }

  const TypeSuffix := ":String}"

  /** The length of a parameter `{name:String}` at the front of `s`, 0 if there is none. */
  function ParameterLength(s: string): (n: nat)
    ensures n <= |s|
  {
    if s == [] || s[0] != '{' then 0 else
      var name := NameLength(s[1..]);
      if name > 0 && TypeSuffix <= s[1 + name..] then 1 + name + |TypeSuffix| else 0
  }

  function ParameterName(s: string): string
    requires ParameterLength(s) > 0
  {
    s[1..1 + NameLength(s[1..])]
  }

  const UnhexOpening := "unhex("

  /** The length of `unhex({name:String})` at the front of `s`, 0 if there is none. */
  function UnhexLength(s: string): (n: nat)
    ensures n <= |s|
  {
    if !(UnhexOpening <= s) then 0 else
      var n := ParameterLength(s[|UnhexOpening|..]);
      if n > 0 && |UnhexOpening| + n < |s| && s[|UnhexOpening| + n] == ')' then |UnhexOpening| + n + 1 else 0
  }

  /** A statement after binding: characters of the text, decoded bytes, and parameters put in as text. */
  datatype Piece = Ch(c: char) | Data(bytes: Option<seq<Byte>>) | Param(text: Option<string>)

  type QueryPairs = seq<(string, string)>

  function Find(pairs: QueryPairs, key: string): Option<string> {
    if pairs == [] then None
    else if pairs[0].0 == key then Some(pairs[0].1)
    else Find(pairs[1..], key)
  }

  function ParameterText(pairs: QueryPairs, s: string): Option<string>
    requires ParameterLength(s) > 0
  {
    Find(pairs, "param_" + ParameterName(s))
  }

  function Decoded(text: Option<string>): Option<seq<Byte>> {
    if text.Some? then UnHex(text.value) else None
  }

  /** The server's view of a statement: parameters outside quotes are replaced by what `pairs` bind. */
  function Bound(m: Mode, sql: string, pairs: QueryPairs): seq<Piece>
    decreases |sql|
  {
    if sql == [] then []
    else if m == Plain && UnhexLength(sql) > 0 then
      [Data(Decoded(ParameterText(pairs, sql[|UnhexOpening|..])))] + Bound(Plain, sql[UnhexLength(sql)..], pairs)
    else if m == Plain && ParameterLength(sql) > 0 then
      [Param(ParameterText(pairs, sql))] + Bound(Plain, sql[ParameterLength(sql)..], pairs)
    else [Ch(sql[0])] + Bound(Next(m, sql[0]), sql[1..], pairs)
  }

  /** The meaning intended: the k-th marker stands for the bytes of the k-th value. */
  function Meant(m: Mode, sql: string, values: seq<seq<Byte>>): seq<Piece>
    decreases |sql|
  {
    if sql == [] then []
    else if Marker(m, sql[0]) then
      (if values == [] then [Data(None)] + Meant(m, sql[1..], [])
       else [Data(Some(values[0]))] + Meant(m, sql[1..], values[1..]))
    else [Ch(sql[0])] + Meant(Next(m, sql[0]), sql[1..], values)
  }

  /** No parameter of the server's own form stands outside quotes. */
  predicate NoParameters(m: Mode, sql: string)
    decreases |sql|
  {
    sql == [] || ((m == Plain ==> ParameterLength(sql) == 0) && NoParameters(Next(m, sql[0]), sql[1..]))
  }

  // The text of a parameter decides that it is one, and cannot reach into a placeholder.

  lemma ParameterCharacters(s: string)
    requires ParameterLength(s) > 0
    ensures var n := ParameterLength(s);
            s[n - 1] == '}' && forall i :: 0 <= i < n ==> s[i] !in "?'`("
  {
    var n, name := ParameterLength(s), NameLength(s[1..]);
    assert s[1 + name..][..|TypeSuffix|] == TypeSuffix;
    forall i | 0 <= i < n
      ensures s[i] !in "?'`("
      ensures i == n - 1 ==> s[i] == '}'
    {
      if 1 <= i < 1 + name {
        assert s[i] == s[1..][i - 1];
      } else if i >= 1 + name {
        assert s[i] == TypeSuffix[i - 1 - name];
      }
    }
  }

  lemma ParameterLocal(s: string, t: string)
    requires ParameterLength(s) > 0 && ParameterLength(s) <= |t| && t[..ParameterLength(s)] == s[..ParameterLength(s)]
    ensures ParameterLength(t) == ParameterLength(s) && ParameterName(t) == ParameterName(s)
  {
    var n, name := ParameterLength(s), NameLength(s[1..]);
    assert forall i :: 0 <= i < n ==> t[i] == s[i] by {
      assert forall i :: 0 <= i < n ==> t[i] == t[..n][i];
    }
    assert s[1 + name..][..|TypeSuffix|] == TypeSuffix;
    assert t[1..][name] == s[1 + name..][0] == ':';
    NameLengthIs(t[1..], name);
    assert t[1 + name..][..|TypeSuffix|] == s[1 + name..][..|TypeSuffix|];
    assert t[1..1 + name] == s[1..1 + name];
  }

  lemma {:induction false} CopiedText(m: Mode, text: string, k: nat)
    requires '?' !in text
    ensures Rewritten(m, text, k) == text && Markers(m, text) == 0
    decreases |text|
  {
    if text != [] {
      CopiedText(Next(m, text[0]), text[1..], k);
    }
  }

  lemma RewrittenFrom(sql: string, n: nat, k: nat)
    requires n <= |sql| && '?' !in sql[..n]
    ensures Rewritten(Plain, sql, k) == sql[..n] + Rewritten(ModeAfter(Plain, sql[..n]), sql[n..], k)
  {
    CopiedText(Plain, sql[..n], k);
    RewrittenAppend(Plain, sql[..n], sql[n..], k);
    assert sql[..n] + sql[n..] == sql;
  }

  /** Rewriting neither makes nor breaks a parameter at the front of a plain text. */
  lemma ParameterKept(sql: string, k: nat)
    ensures ParameterLength(Rewritten(Plain, sql, k)) == ParameterLength(sql)
  {
    var w := Rewritten(Plain, sql, k);
    if ParameterLength(sql) > 0 {
      var n := ParameterLength(sql);
      ParameterCharacters(sql);
      RewrittenFrom(sql, n, k);
      ParameterLocal(sql, w);
    } else if ParameterLength(w) > 0 {
      ParameterReflected(sql, k);
    }
  }

  lemma ParameterReflected(sql: string, k: nat)
    requires ParameterLength(Rewritten(Plain, sql, k)) > 0
    ensures ParameterLength(sql) == ParameterLength(Rewritten(Plain, sql, k))
  {
    hide *;
    var w := Rewritten(Plain, sql, k);
    var n, j := ParameterLength(w), IndexOf(sql, '?');
    RewrittenFrom(sql, j, k);
    ParameterCharacters(w);
    if n <= j {
      assert w[..n] == sql[..n];
      ParameterLocal(w, sql);
    } else if j < |sql| {
      MarkRewritten(ModeAfter(Plain, sql[..j]), sql[j..], k);
      ParameterStopsAtMark(sql[..j], Rewritten(ModeAfter(Plain, sql[..j]), sql[j..], k));
    } else {
      assert w == sql[..j] + Rewritten(ModeAfter(Plain, sql[..j]), sql[j..], k);
      assert sql[j..] == [];
      NothingRewritten(ModeAfter(Plain, sql[..j]), k);
    }
  }

  ghost predicate StartsLikeMark(r: string) {
    r != [] && (r[0] == '?' || (|r| >= 6 && r[5] == '(' && forall i :: 0 <= i < 5 ==> r[i] != '}'))
  }

  lemma ParameterStopsAtMark(text: string, mark: string)
    requires ParameterLength(text + mark) > 0 && StartsLikeMark(mark)
    ensures ParameterLength(text + mark) <= |text|
  {
    hide ParameterLength;
    var w := text + mark;
    ParameterCharacters(w);
    assert forall i :: 0 <= i < |mark| ==> w[|text| + i] == mark[i];
    assert w[|text|] == mark[0];
    assert |mark| >= 6 ==> w[|text| + 5] == mark[5];
    assert forall i :: |text| <= i < |w| ==> w[i] == mark[i - |text|];
  }

  lemma NothingRewritten(m: Mode, k: nat)
    ensures Rewritten(m, [], k) == []
  {
  }

  /** A `?` is either copied or starts a placeholder, which opens with a parenthesis in sixth place. */
  lemma MarkRewritten(m: Mode, sql: string, k: nat)
    requires sql != [] && sql[0] == '?'
    ensures StartsLikeMark(Rewritten(m, sql, k))
    ensures Rewritten(m, sql, k)[0] == '?' || Rewritten(m, sql, k)[0] == 'u'
  {
    var p := Placeholder(k + 1);
    PlaceholderStart(k + 1);
    assert p[..6][5] == '(' && p[..6][0] == 'u';
    assert forall i {:trigger p[i]} :: 0 <= i < 6 ==> p[i] == p[..6][i];
  }

  lemma PlaceholderStart(n: nat)
    ensures |Placeholder(n)| >= 6 && Placeholder(n)[..6] == UnhexOpening
  {
  }

  lemma {:induction false} NoParametersFrom(m: Mode, sql: string, n: nat)
    requires n <= |sql| && NoParameters(m, sql)
    ensures NoParameters(ModeAfter(m, sql[..n]), sql[n..])
    decreases n
  {
    hide ParameterLength;
    if n > 0 {
      NoParametersFrom(Next(m, sql[0]), sql[1..], n - 1);
      assert sql[1..][..n - 1] == sql[..n][1..];
      assert sql[1..][n - 1..] == sql[n..];
    }
  }

  /** A decoded parameter at the front of the rewritten text was either put there or there before. */
  lemma UnhexReflected(sql: string, k: nat)
    requires sql != [] && sql[0] != '?' && UnhexLength(Rewritten(Plain, sql, k)) > 0
    ensures !NoParameters(Plain, sql)
  {
    hide Rewritten, NoParameters, ParameterLength, ModeAfter, IndexOf;
    var w := Rewritten(Plain, sql, k);
    var j := IndexOf(sql, '?');
    var rest := Rewritten(ModeAfter(Plain, sql[..j]), sql[j..], k);
    RewrittenFrom(sql, j, k);
    if j < |sql| {
      MarkRewritten(ModeAfter(Plain, sql[..j]), sql[j..], k);
    } else {
      assert sql[j..] == [];
      NothingRewritten(ModeAfter(Plain, sql[..j]), k);
    }
    OpeningBeforeMark(sql[..j], rest);
    assert sql[..6] == sql[..j][..6];
    UnhexInSource(sql, k);
  }

  lemma OpeningBeforeMark(text: string, mark: string)
    requires UnhexOpening <= text + mark && text != []
    requires mark == [] || mark[0] == '?' || mark[0] == 'u'
    ensures |text| >= 6 && text[..6] == UnhexOpening
  {
    var w := text + mark;
    assert forall i :: 0 <= i < 6 ==> w[i] == UnhexOpening[i];
    assert forall i :: 1 <= i < 6 ==> UnhexOpening[i] != 'u' && UnhexOpening[i] != '?';
    assert mark != [] ==> w[|text|] == mark[0];
    assert |text| >= 6;
    assert forall i :: 0 <= i < 6 ==> text[i] == w[i];
  }

  lemma UnhexInSource(sql: string, k: nat)
    requires |sql| >= 6 && sql[..6] == UnhexOpening
    requires |Rewritten(Plain, sql, k)| >= 6 && ParameterLength(Rewritten(Plain, sql, k)[6..]) > 0
    ensures !NoParameters(Plain, sql)
  {
    hide Rewritten, ParameterLength, ModeAfter;
    InertText(UnhexOpening, k);
    RewrittenFrom(sql, 6, k);
    assert Rewritten(Plain, sql, k)[6..] == Rewritten(Plain, sql[6..], k);
    ParameterKept(sql[6..], k);
    if NoParameters(Plain, sql) {
      NoParametersFrom(Plain, sql, 6);
    }
  }

  /** The text put in for a marker is read by the server as the decoded parameter of that number. */
  lemma PlaceholderRead(n: nat, rest: string)
    ensures var text := Placeholder(n) + rest;
            && UnhexLength(text) == |Placeholder(n)|
            && ParameterLength(text[|UnhexOpening|..]) > 0
            && ParameterName(text[|UnhexOpening|..]) == "p" + Decimal(n)
  {
    hide ParameterLength, ParameterName, NameLength, Decimal;
    var text := Placeholder(n) + rest;
    var inner := text[|UnhexOpening|..];
    assert inner == "{" + ("p" + Decimal(n)) + TypeSuffix + (")" + rest);
    ParameterRead("p" + Decimal(n), ")" + rest);
    PlaceholderStart(n);
    assert text[..6] == UnhexOpening;
  }

  lemma ParameterRead(name: string, rest: string)
    requires name != [] && forall i :: 0 <= i < |name| ==> IsNameChar(name[i])
    ensures var text := "{" + name + TypeSuffix + rest;
            ParameterLength(text) == 1 + |name| + |TypeSuffix| && ParameterName(text) == name
  {
    var text := "{" + name + TypeSuffix + rest;
    assert text[1..] == name + (TypeSuffix + rest);
    assert TypeSuffix[0] == ':';
    NameLengthIs(text[1..], |name|);
    assert text[1 + |name|..] == TypeSuffix + rest;
    assert text[1..1 + |name|] == name;
  }

  /** `pairs` bind the parameters p(k+1), p(k+2), ... to the hex text of `values`. */
  ghost predicate Binds(pairs: QueryPairs, k: nat, values: seq<seq<Byte>>) {
    forall i :: 0 <= i < |values| ==> Find(pairs, PairKey(k + 1 + i)) == Some(HexOf(values[i]))
  }

  lemma BindsRest(pairs: QueryPairs, k: nat, values: seq<seq<Byte>>)
    requires Binds(pairs, k, values) && values != []
    ensures Binds(pairs, k + 1, values[1..])
  {
    forall i | 0 <= i < |values[1..]|
      ensures Find(pairs, PairKey(k + 1 + 1 + i)) == Some(HexOf(values[1..][i]))
    {
      assert values[1..][i] == values[1 + i];
      assert k + 1 + 1 + i == k + 1 + (1 + i);
    }
  }

  /**
   * Binding the rewritten statement means what the markers were meant to say, for every statement
   * and all values, exactly if the statement has no parameter of the server's own form in it.
   */
  lemma {:induction false} BindingMeaning(m: Mode, sql: string, k: nat, pairs: QueryPairs, values: seq<seq<Byte>>)
    requires |values| == Markers(m, sql) && Binds(pairs, k, values)
    ensures Bound(m, Rewritten(m, sql, k), pairs) == Meant(m, sql, values) <==> NoParameters(m, sql)
    decreases |sql|
  {
    hide Bound, Rewritten, ParameterLength, Binds;
    if sql == [] {
      EmptyMeaning(m, k, pairs);
    } else {
      var c, rest := sql[0], sql[1..];
      if Marker(m, c) {
        MarkerMeaning(sql, k, pairs, values);
        BindsRest(pairs, k, values);
        BindingMeaning(m, rest, k + 1, pairs, values[1..]);
        var bound, meant := Bound(m, Rewritten(m, rest, k + 1), pairs), Meant(m, rest, values[1..]);
        assert ([Data(Some(values[0]))] + bound)[1..] == bound && ([Data(Some(values[0]))] + meant)[1..] == meant;
      } else {
        BindingMeaning(Next(m, c), rest, k, pairs, values);
        CharacterMeaning(m, sql, k, pairs, values);
      }
    }
  }

  lemma EmptyMeaning(m: Mode, k: nat, pairs: QueryPairs)
    ensures Bound(m, Rewritten(m, [], k), pairs) == []
  {
  }

  lemma MarkerMeaning(sql: string, k: nat, pairs: QueryPairs, values: seq<seq<Byte>>)
    requires sql != [] && sql[0] == '?' && values != [] && Binds(pairs, k, values)
    ensures Bound(Plain, Rewritten(Plain, sql, k), pairs) ==
            [Data(Some(values[0]))] + Bound(Plain, Rewritten(Plain, sql[1..], k + 1), pairs)
    ensures ParameterLength(sql) == 0
  {
    var rest := Rewritten(Plain, sql[1..], k + 1);
    var w := Placeholder(k + 1) + rest;
    PlaceholderRead(k + 1, rest);
    assert w[|Placeholder(k + 1)|..] == rest;
    assert Find(pairs, PairKey(k + 1 + 0)) == Some(HexOf(values[0]));
    UnHexHex(values[0]);
  }

  lemma CharacterMeaning(m: Mode, sql: string, k: nat, pairs: QueryPairs, values: seq<seq<Byte>>)
    requires sql != [] && !Marker(m, sql[0])
    requires var m' := Next(m, sql[0]);
             Bound(m', Rewritten(m', sql[1..], k), pairs) == Meant(m', sql[1..], values) <==> NoParameters(m', sql[1..])
    ensures Bound(m, Rewritten(m, sql, k), pairs) == Meant(m, sql, values) <==> NoParameters(m, sql)
  {
    var c, m' := sql[0], Next(m, sql[0]);
    var w, rest := Rewritten(m, sql, k), Rewritten(m', sql[1..], k);
    assert w[0] == c && w[1..] == rest;
    if m == Plain && UnhexLength(w) > 0 {
      UnhexReflected(sql, k);
      assert Bound(m, w, pairs)[0].Data? && Meant(m, sql, values)[0] == Ch(c);
    } else if m == Plain && ParameterLength(w) > 0 {
      ParameterKept(sql, k);
      assert Bound(m, w, pairs)[0].Param? && Meant(m, sql, values)[0] == Ch(c);
    } else {
      if m == Plain {
        ParameterKept(sql, k);
      }
      var bound, meant := Bound(m', rest, pairs), Meant(m', sql[1..], values);
      assert Bound(m, w, pairs) == [Ch(c)] + bound && Meant(m, sql, values) == [Ch(c)] + meant;
      assert ([Ch(c)] + bound)[1..] == bound && ([Ch(c)] + meant)[1..] == meant;
    }
  }

  // ----- Preparing a statement with its parameters -----

  datatype PrepareError = CountMismatch(expected: nat, actual: nat) | NullParameter

  /** The bytes a value is bound as; NULL has none. */
  function ValueBytes(v: CellValue): seq<Byte> {
    match v
    case Null => []
    case Text(text) => Utf8(text)
    case Bytes(bytes) => bytes
  }

  function AllBytes(values: seq<CellValue>): (r: seq<seq<Byte>>)
    ensures |r| == |values| && forall i :: 0 <= i < |values| ==> r[i] == ValueBytes(values[i])
  {
    if values == [] then [] else [ValueBytes(values[0])] + AllBytes(values[1..])
  }

  /** What the server gets for a value: the UTF-8 bytes that spell a text, or the bytes themselves. */
  predicate Spells(bytes: seq<Byte>, v: CellValue) {
    match v
    case Null => false
    case Text(text) => ReadUtf8(bytes) == Some(text)
    case Bytes(b) => bytes == b
  }

  lemma ValueSpelled(v: CellValue)
    requires v != Null
    ensures Spells(ValueBytes(v), v)
  {
    if v.Text? {
      ReadUtf8Text(v.text);
    }
  }

  function PairKey(n: nat): string {
    "param_" + ("p" + Decimal(n))
  }

  /** The query pairs for `values`, the first of them numbered `k + 1`. */
  function Pairs(values: seq<CellValue>, k: nat): (pairs: QueryPairs)
    ensures |pairs| == |values|
  {
    if values == [] then [] else [(PairKey(k + 1), HexOf(ValueBytes(values[0])))] + Pairs(values[1..], k + 1)
  }

  predicate HasNull(values: seq<CellValue>) {
    exists i :: 0 <= i < |values| && values[i] == Null
  }

  lemma PairKeyInjective(m: nat, n: nat)
    requires PairKey(m) == PairKey(n)
    ensures m == n
  {
    assert Decimal(m) == PairKey(m)[7..] && Decimal(n) == PairKey(n)[7..];
    DecimalInjective(m, n);
  }

  lemma {:induction false} PairsFind(values: seq<CellValue>, k: nat, i: nat)
    requires i < |values|
    ensures Find(Pairs(values, k), PairKey(k + 1 + i)) == Some(HexOf(ValueBytes(values[i])))
  {
    hide HexOf, PairKey, ValueBytes;
    var pairs := Pairs(values, k);
    assert pairs[1..] == Pairs(values[1..], k + 1);
    if i > 0 {
      if pairs[0].0 == PairKey(k + 1 + i) {
        PairKeyInjective(k + 1, k + 1 + i);
      }
      PairsFind(values[1..], k + 1, i - 1);
      assert k + 1 + 1 + (i - 1) == k + 1 + i;
    }
  }

  /** The pair called `param_p<n>` holds hex digits of bytes that spell the value. */
  predicate Carries(pairs: QueryPairs, n: nat, v: CellValue) {
    var hex := Find(pairs, "param_p" + Decimal(n));
    hex.Some? && UnHex(hex.value).Some? && Spells(UnHex(hex.value).value, v)
  }

  lemma PairKeyText(n: nat)
    ensures PairKey(n) == "param_p" + Decimal(n)
  {
    Associative("param_", "p", Decimal(n));
    assert "param_" + "p" == "param_p";
  }

  lemma CarriesMeans(pairs: QueryPairs, n: nat, v: CellValue, bytes: seq<Byte>)
    requires Spells(bytes, v) && UnHex(HexOf(bytes)) == Some(bytes)
    requires Find(pairs, "param_p" + Decimal(n)) == Some(HexOf(bytes))
    ensures Carries(pairs, n, v)
  {
  }

  /** For every value but NULL, its pair decodes to exactly that value. */
  lemma PairsCarry(values: seq<CellValue>, i: nat)
    requires i < |values| && values[i] != Null
    ensures Carries(Pairs(values, 0), i + 1, values[i])
  {
    hide *;
    PairsFind(values, 0, i);
    PairKeyText(i + 1);
    assert 0 + 1 + i == i + 1;
    UnHexHex(ValueBytes(values[i]));
    ValueSpelled(values[i]);
    CarriesMeans(Pairs(values, 0), i + 1, values[i], ValueBytes(values[i]));
  }

  /** The pairs of the values in order, each carrying its value; any NULL is refused. */
  method BuildParamQueryPairs(values: seq<CellValue>) returns (r: Result<QueryPairs, PrepareError>)
    ensures r == if HasNull(values) then Err(NullParameter) else Ok(Pairs(values, 0))
    ensures r.Ok? ==> |r.value| == |values| && forall i :: 0 <= i < |values| ==> Carries(r.value, i + 1, values[i])
  {
    hide Carries, ValueBytes, PairKey;
    var pairs: QueryPairs := [];
    for i := 0 to |values|
      invariant forall j :: 0 <= j < i ==> values[j] != Null
      invariant pairs + Pairs(values[i..], i) == Pairs(values, 0)
    {
      if values[i] == Null {
        return Err(NullParameter);
      }
      var hex := ToHex(ValueBytes(values[i]));
      assert values[i..][1..] == values[i + 1..];
      Associative(pairs, [(PairKey(i + 1), hex)], Pairs(values[i + 1..], i + 1));
      pairs := pairs + [(PairKey(i + 1), hex)];
    }
    assert pairs + [] == pairs;
    forall i | 0 <= i < |values|
      ensures Carries(pairs, i + 1, values[i])
    {
      PairsCarry(values, i);
    }
    return Ok(pairs);
  }

  /**
   * What a parameterized statement sends: it is refused when the numbers of markers and values
   * differ, or for a NULL; otherwise statement and pairs together mean the statement with the bytes
   * of the k-th value at its k-th marker, exactly if no parameter of the server's form was in it.
   */
  method Prepare(sql: string, values: seq<CellValue>) returns (r: Result<(string, QueryPairs), PrepareError>)
    ensures Markers(Plain, sql) != |values| ==> r == Err(CountMismatch(Markers(Plain, sql), |values|))
    ensures Markers(Plain, sql) == |values| && HasNull(values) ==> r == Err(NullParameter)
    ensures Markers(Plain, sql) == |values| && !HasNull(values) ==> r.Ok?
    ensures r.Ok? ==>
              r.value.0 == Rewritten(Plain, sql, 0) && r.value.1 == Pairs(values, 0) &&
              (Bound(Plain, r.value.0, r.value.1) == Meant(Plain, sql, AllBytes(values)) <==> NoParameters(Plain, sql))
    ensures r.Ok? ==>
              forall i :: 0 <= i < |values| ==> Carries(r.value.1, i + 1, values[i]) && Spells(AllBytes(values)[i], values[i])
  {
    hide Carries, Spells, Bound, Meant, NoParameters, Markers, Rewritten, Pairs, ValueBytes;
    var rewritten, count := RewriteQuestionMarks(sql);
    if count != |values| {
      return Err(CountMismatch(count, |values|));
    }
    var pairs := BuildParamQueryPairs(values);
    match pairs {
      case Err(error) =>
        return Err(error);
      case Ok(p) =>
        PairsBind(values);
        BindingMeaning(Plain, sql, 0, p, AllBytes(values));
        forall i | 0 <= i < |values|
          ensures Spells(AllBytes(values)[i], values[i])
        {
          ValueSpelled(values[i]);
        }
        return Ok((rewritten, p));
    }
  }

  lemma PairsBind(values: seq<CellValue>)
    ensures Binds(Pairs(values, 0), 0, AllBytes(values))
  {
    hide Pairs, ValueBytes, HexOf, PairKey, Find, AllBytes;
    forall i | 0 <= i < |values|
      ensures Find(Pairs(values, 0), PairKey(0 + 1 + i)) == Some(HexOf(AllBytes(values)[i]))
    {
      PairsFind(values, 0, i);
    }
  }
}
