/** Compact JSON text of flat values, and a reader that follows RFC 8259. */
module JsonText {
  import opened Wrappers
  import opened Text
  import opened Encoding
  import opened Json
  import opened JsonLines

  // ----- Writing -----

  function EscapedChar(c: char): string {
    if c == '"' then "\\\"" else if c == '\\' then "\\\\"
    else if c == '\U{8}' then "\\b" else if c == '\t' then "\\t" else if c == '\n' then "\\n"
    else if c == '\U{C}' then "\\f" else if c == '\r' then "\\r"
    else if c < ' ' then "\\u00" + [HexDigit(c as int / 16), HexDigit(c as int % 16)]
    else [c]
  }

  function EscapedText(s: string): string {
    if s == [] then [] else EscapedChar(s[0]) + EscapedText(s[1..])
  }

  function StringText(s: string): string {
    "\"" + (EscapedText(s) + "\"")
  }

  function WholeText(n: int): string {
    if n < 0 then "-" + Decimal(-n) else Decimal(n)
  }

  predicate Flat(v: Json) {
    match v
    case Real(f) => IsFloatText(f.token)
    case Array(_) => false
    case Object(_) => false
    case _ => true
  }

  function ValueText(v: Json): string
    requires Flat(v)
  {
    match v
    case Null => "null"
    case Bool(b) => if b then "true" else "false"
    case Integer(n) => WholeText(n)
    case Real(f) => f.token
    case String(s) => StringText(s)
  }

  predicate AllFlat(ms: Members) {
    forall i :: 0 <= i < |ms| ==> Flat(ms[i].1)
  }

  function MemberText(m: (string, Json)): string
    requires Flat(m.1)
  {
    StringText(m.0) + (":" + ValueText(m.1))
  }

  function MembersText(ms: Members): string
    requires AllFlat(ms)
  {
    if ms == [] then "" else if |ms| == 1 then MemberText(ms[0]) else MemberText(ms[0]) + ("," + MembersText(ms[1..]))
  }

  function RecordText(ms: Members): string
    requires AllFlat(ms)
  {
    "{" + (MembersText(ms) + "}")
  }

  // ----- Reading, by sections 2, 4, 6 and 7 of RFC 8259 -----

  function SkipSpace(s: string): string {
    if s != [] && s[0] in " \t\n\r" then SkipSpace(s[1..]) else s
  }

  /** The character code of four hexadecimal digits, if it is a character on its own. */
  function FourHex(s: string): Option<char>
    requires |s| == 4
  {
    match (HexValue(s[0]), HexValue(s[1]), HexValue(s[2]), HexValue(s[3]))
    case (Some(a), Some(b), Some(c), Some(d)) =>
      var n := 4096 * a + 256 * b + 16 * c + d;
      if 0 <= n < 0xD800 || 0xE000 <= n < 0x10000 then Some(n as char) else None
    case _ => None
  }

  /** One character of a string and how many characters spell it. */
  function ReadChar(s: string): (r: Option<(char, nat)>)
    requires s != []
    ensures r.Some? ==> 1 <= r.value.1 <= |s|
  {
    if s[0] < ' ' then None
    else if s[0] != '\\' then Some((s[0], 1))
    else if |s| == 1 then None
    else
      match s[1]
      case '"' => Some(('"', 2))
      case '\\' => Some(('\\', 2))
      case '/' => Some(('/', 2))
      case 'b' => Some(('\U{8}', 2))
      case 'f' => Some(('\U{C}', 2))
      case 'n' => Some(('\n', 2))
      case 'r' => Some(('\r', 2))
      case 't' => Some(('\t', 2))
      case 'u' =>
        if |s| < 6 then None
        else (match FourHex(s[2..6]) case Some(c) => Some((c, 6)) case None => None)
      case _ => None
  }

  /** The rest of a string after its opening quote, and what follows the closing one. */
  function ReadBody(s: string): (r: Option<(string, string)>)
    ensures r.Some? ==> |r.value.1| < |s|
    decreases |s|
  {
    if s == [] then None
    else if s[0] == '"' then Some(("", s[1..]))
    else
      match ReadChar(s)
      case None => None
      case Some((c, n)) =>
        match ReadBody(s[n..])
        case None => None
        case Some((text, rest)) => Some(([c] + text, rest))
  }

  function ReadString(s: string): (r: Option<(string, string)>)
    ensures r.Some? ==> |r.value.1| < |s|
  {
    if s != [] && s[0] == '"' then ReadBody(s[1..]) else None
  }

  /** The number characters at the front of `s`. */
  function NumberEnd(s: string): (n: nat)
    ensures n <= |s| && Numeric(s[..n])
    ensures n < |s| ==> !NumberChar(s[n])
  {
    if s == [] || !NumberChar(s[0]) then 0
    else
      var n := 1 + NumberEnd(s[1..]);
      assert s[..n] == [s[0]] + s[1..][..n - 1];
      n
  }

  /** Digits with no superfluous zero in front. */
  predicate PlainDigits(s: string) {
    s != [] && AllDigits(s) && (s[0] == '0' ==> |s| == 1)
  }

  /** The number a token stands for: whole if it is written so and fits, and a float otherwise. */
  function NumberOf(token: string): Json {
    if PlainDigits(token) && DigitsValue(token) <= U64_MAX then Integer(DigitsValue(token))
    else if |token| > 1 && token[0] == '-' && PlainDigits(token[1..]) && 0 < DigitsValue(token[1..]) <= -I64_MIN then
      Integer(-(DigitsValue(token[1..]) as int))
    else Real(Float(token))
  }

  function ReadValue(s: string): (r: Option<(Json, string)>)
    ensures r.Some? ==> |r.value.1| < |s|
  {
    if s != [] && s[0] == '"' then
      match ReadString(s)
      case Some((text, rest)) => Some((String(text), rest))
      case None => None
    else if "null" <= s then Some((Null, s[4..]))
    else if "true" <= s then Some((Bool(true), s[4..]))
    else if "false" <= s then Some((Bool(false), s[5..]))
    else
      var n := NumberEnd(s);
      if n > 0 && (IsDigit(s[0]) || s[0] == '-') then Some((NumberOf(s[..n]), s[n..])) else None
  }

  /** One member, with white space around its parts. */
  function ReadMember(s: string): (r: Option<((string, Json), string)>)
    ensures r.Some? ==> |r.value.1| < |s|
  {
    SkipShorter(s);
    match ReadString(SkipSpace(s))
    case None => None
    case Some((name, s1)) =>
      SkipShorter(s1);
      var s2 := SkipSpace(s1);
      if s2 == [] || s2[0] != ':' then None
      else
        SkipShorter(s2[1..]);
        match ReadValue(SkipSpace(s2[1..]))
        case None => None
        case Some((v, s3)) =>
          SkipShorter(s3);
          Some(((name, v), SkipSpace(s3)))
  }

  lemma SkipShorter(s: string)
    ensures |SkipSpace(s)| <= |s|
  {
  }

  /** Members up to the closing brace, and what follows it. */
  function ReadMembers(s: string): Option<(Members, string)>
    decreases |s|
  {
    match ReadMember(s)
    case None => None
    case Some((m, rest)) =>
      if rest != [] && rest[0] == '}' then Some(([m], rest[1..]))
      else if rest != [] && rest[0] == ',' then
        match ReadMembers(rest[1..])
        case None => None
        case Some((ms, after)) => Some(([m] + ms, after))
      else None
  }

  /** A text that is one object of flat values, as its members in order. */
  function ReadRecord(s: string): Option<Members> {
    var start := SkipSpace(s);
    if start == [] || start[0] != '{' then None
    else
      var inside := SkipSpace(start[1..]);
      if inside != [] && inside[0] == '}' then
        if SkipSpace(inside[1..]) == [] then Some([]) else None
      else
        match ReadMembers(inside)
        case Some((ms, rest)) => if SkipSpace(rest) == [] then Some(ms) else None
        case None => None
  }

  // ----- Reading what was written -----

  lemma HexOfControl(n: int)
    requires 0 <= n < 32
    ensures FourHex("00" + [HexDigit(n / 16), HexDigit(n % 16)]) == Some(n as char)
  {
    HexDigitValue(n / 16);
    HexDigitValue(n % 16);
    assert HexValue('0') == Some(0);
  }

  lemma ReadEscaped(c: char, rest: string)
    ensures EscapedChar(c)[0] != '"'
    ensures ReadChar(EscapedChar(c) + rest) == Some((c, |EscapedChar(c)|))
  {
    hide HexDigit, FourHex;
    var s := EscapedChar(c) + rest;
    if c < ' ' && c !in "\U{8}\t\n\U{C}\r" {
      HexOfControl(c as int);
      assert s[2..6] == "00" + [HexDigit(c as int / 16), HexDigit(c as int % 16)];
    }
  }

  lemma {:induction false} ReadEscapedText(text: string, rest: string)
    ensures ReadBody(EscapedText(text) + ("\"" + rest)) == Some((text, rest))
  {
    var s := EscapedText(text) + ("\"" + rest);
    if text == [] {
      assert s[0] == '"' && s[1..] == rest;
    } else {
      hide ReadChar, EscapedChar;
      var tail := EscapedText(text[1..]) + ("\"" + rest);
      Associative(EscapedChar(text[0]), EscapedText(text[1..]), "\"" + rest);
      ReadEscaped(text[0], tail);
      assert s[|EscapedChar(text[0])|..] == tail;
      ReadEscapedText(text[1..], rest);
      assert [text[0]] + text[1..] == text;
    }
  }

  lemma ReadStringText(text: string, rest: string)
    ensures (StringText(text) + rest)[0] == '"'
    ensures ReadString(StringText(text) + rest) == Some((text, rest))
  {
    hide EscapedText, ReadBody;
    ReadEscapedText(text, rest);
    assert (StringText(text) + rest)[1..] == EscapedText(text) + ("\"" + rest);
  }

  lemma {:induction false} NumberEndOf(token: string, rest: string)
    requires Numeric(token) && (rest == [] || !NumberChar(rest[0]))
    ensures NumberEnd(token + rest) == |token|
    decreases |token|
  {
    if token == [] {
      assert token + rest == rest;
    } else {
      assert (token + rest)[1..] == token[1..] + rest;
      NumberEndOf(token[1..], rest);
    }
  }

  lemma {:induction false} DecimalPlain(n: nat)
    ensures PlainDigits(Decimal(n)) && (n > 0 ==> Decimal(n)[0] != '0')
  {
    if n >= 10 {
      DecimalPlain(n / 10);
    }
  }

  lemma WholeTextRead(n: Whole)
    ensures WholeText(n) != [] && Numeric(WholeText(n)) && NumberOf(WholeText(n)) == Integer(n)
    ensures IsDigit(WholeText(n)[0]) || WholeText(n)[0] == '-'
  {
    hide Decimal, DigitsValue;
    if n < 0 {
      DecimalPlain(-n);
      DecimalValue(-n);
      assert WholeText(n)[1..] == Decimal(-n);
    } else {
      DecimalPlain(n);
      DecimalValue(n);
    }
  }

  lemma FloatTextRead(token: FloatText)
    ensures NumberOf(token) == Real(Float(token))
  {
    var i :| 0 <= i < |token| && token[i] in ".e";
    assert !IsDigit(token[i]) && token[i] != '-';
    assert |token| > 1 ==> i == 0 || token[1..][i - 1] == token[i];
  }

  lemma ReadNumber(token: string, rest: string)
    requires token != [] && Numeric(token) && (IsDigit(token[0]) || token[0] == '-')
    requires rest == [] || !NumberChar(rest[0])
    ensures ReadValue(token + rest) == Some((NumberOf(token), rest))
  {
    NumberEndOf(token, rest);
    assert (token + rest)[..|token|] == token && (token + rest)[|token|..] == rest;
  }

  /** Every flat value reads back, whatever ends it. */
  lemma ReadValueText(v: Json, rest: string)
    requires Flat(v) && rest != [] && !NumberChar(rest[0])
    ensures ReadValue(ValueText(v) + rest) == Some((v, rest))
    ensures (ValueText(v) + rest)[0] !in " \t\n\r"
  {
    hide NumberOf, NumberEnd, ReadString, WholeText;
    match v
    case Null => assert ("null" + rest)[4..] == rest;
    case Bool(b) => assert ("true" + rest)[4..] == rest && ("false" + rest)[5..] == rest;
    case Integer(n) =>
      WholeTextRead(n);
      ReadNumber(WholeText(n), rest);
    case Real(f) =>
      FloatTextRead(f.token);
      ReadNumber(f.token, rest);
    case String(s) => ReadStringText(s, rest);
  }

  lemma NoSpace(s: string)
    requires s == [] || s[0] !in " \t\n\r"
    ensures SkipSpace(s) == s
  {
  }

  lemma ReadMemberText(m: (string, Json), rest: string)
    requires Flat(m.1) && rest != [] && (rest[0] == ',' || rest[0] == '}')
    ensures ReadMember(MemberText(m) + rest) == Some((m, rest))
    ensures (MemberText(m) + rest)[0] == '"'
  {
    hide ReadString, ReadValue, StringText, ValueText, SkipSpace;
    var tail := ":" + (ValueText(m.1) + rest);
    Associative(StringText(m.0), ":" + ValueText(m.1), rest);
    assert ":" + ValueText(m.1) + rest == tail;
    ReadStringText(m.0, tail);
    NoSpace(StringText(m.0) + tail);
    NoSpace(tail);
    assert tail[1..] == ValueText(m.1) + rest;
    ReadValueText(m.1, rest);
    NoSpace(tail[1..]);
    NoSpace(rest);
  }

  lemma {:induction false} ReadMembersText(ms: Members, rest: string)
    requires ms != [] && AllFlat(ms)
    ensures ReadMembers(MembersText(ms) + ("}" + rest)) == Some((ms, rest))
    ensures (MembersText(ms) + ("}" + rest))[0] == '"'
    decreases |ms|
  {
    hide ReadMember, MemberText;
    if |ms| == 1 {
      ReadMemberText(ms[0], "}" + rest);
      assert ("}" + rest)[1..] == rest && ms == [ms[0]];
    } else {
      var tail := MembersText(ms[1..]) + ("}" + rest);
      assert MembersText(ms) + ("}" + rest) == MemberText(ms[0]) + ("," + tail);
      ReadMemberText(ms[0], "," + tail);
      assert ("," + tail)[1..] == tail;
      ReadMembersText(ms[1..], rest);
      assert [ms[0]] + ms[1..] == ms;
    }
  }

  /** A record reads back as its own members, in order and with their values. */
  lemma ReadRecordText(ms: Members)
    requires AllFlat(ms)
    ensures ReadRecord(RecordText(ms)) == Some(ms)
  {
    hide ReadMembers, MembersText, SkipSpace;
    var s := RecordText(ms);
    NoSpace(s);
    NoSpace("");
    if ms == [] {
      EmptyMembers();
      assert s == "{}" && s[1..] == "}" && s[1..][1..] == "";
      NoSpace("}");
    } else {
      ReadMembersText(ms, "");
      assert "}" + "" == "}" && s[1..] == MembersText(ms) + "}";
      NoSpace(s[1..]);
    }
  }

  lemma EmptyMembers()
    ensures MembersText([]) == ""
  {
  }

  // ----- One line each -----

  lemma {:induction false} EscapedOneLine(s: string)
    ensures '\n' !in EscapedText(s)
  {
    if s != [] {
      EscapedCharOneLine(s[0]);
      EscapedOneLine(s[1..]);
    }
  }

  lemma EscapedCharOneLine(c: char)
    ensures '\n' !in EscapedChar(c)
  {
    if c < ' ' {
      HexDigitValue(c as int / 16);
      HexDigitValue(c as int % 16);
    }
  }

  lemma ValueOneLine(v: Json)
    requires Flat(v)
    ensures '\n' !in ValueText(v)
  {
    hide WholeText, EscapedText;
    match v
    case Integer(n) =>
      WholeTextRead(n);
      assert !NumberChar('\n');
    case Real(f) => assert !NumberChar('\n');
    case String(s) => EscapedOneLine(s);
    case _ =>
  }

  lemma {:induction false} MembersOneLine(ms: Members)
    requires AllFlat(ms)
    ensures '\n' !in MembersText(ms)
  {
    if ms != [] {
      EscapedOneLine(ms[0].0);
      ValueOneLine(ms[0].1);
      MembersOneLine(ms[1..]);
    }
  }
}
