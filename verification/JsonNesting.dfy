/** The byte scan that bounds how deep a message may nest, against the grammar of JSON text. */
module JsonNesting {
  import opened Text
  import opened Encoding

  // ----- JSON text, section 2 of RFC 8259 -----

  /** A character of a string as it is written: itself, or one after a backslash. */
  datatype Piece = Plain(c: char) | Escaped(c: char)

  /** A JSON value as written, with every run of white space and every spelling of a string. */
  datatype Doc =
    | Scalar(token: string)
    | Quoted(pieces: seq<Piece>)
    | Array(elements: Elements)
    | Object(elements: Elements)

  datatype Elements =
    | Blank(space: string)
    | Only(element: Element)
    | Several(element: Element, rest: Elements)

  datatype Element = Element(before: string, key: Key, value: Doc, after: string)

  datatype Key = NoKey | Key(name: seq<Piece>, beforeColon: string, afterColon: string)

  predicate Space(s: string) {
    forall i :: 0 <= i < |s| ==> s[i] in " \t\n\r"
  }

  /** The characters of `true`, `false`, `null` and the numbers. */
  predicate ScalarText(token: string) {
    forall i :: 0 <= i < |token| ==> 'a' <= token[i] <= 'z' || IsDigit(token[i]) || token[i] in "+-.E"
  }

  predicate GoodPiece(p: Piece) {
    if p.Plain? then p.c >= ' ' && p.c != '"' && p.c != '\\' else p.c in "\"\\/bfnrtu"
  }

  predicate GoodPieces(pieces: seq<Piece>) {
    forall i :: 0 <= i < |pieces| ==> GoodPiece(pieces[i])
  }

  predicate GoodKey(key: Key, named: bool) {
    if named then key.Key? && GoodPieces(key.name) && Space(key.beforeColon) && Space(key.afterColon) else key.NoKey?
  }

  predicate Good(d: Doc) {
    match d
    case Scalar(token) => ScalarText(token)
    case Quoted(pieces) => GoodPieces(pieces)
    case Array(elements) => GoodElements(elements, false)
    case Object(elements) => GoodElements(elements, true)
  }

  predicate GoodElements(es: Elements, named: bool) {
    match es
    case Blank(space) => Space(space)
    case Only(e) => GoodElement(e, named)
    case Several(e, rest) => GoodElement(e, named) && !rest.Blank? && GoodElements(rest, named)
  }

  predicate GoodElement(e: Element, named: bool) {
    Space(e.before) && GoodKey(e.key, named) && Good(e.value) && Space(e.after)
  }

  function PieceText(p: Piece): string {
    if p.Plain? then [p.c] else ['\\', p.c]
  }

  function PiecesText(pieces: seq<Piece>): string {
    if pieces == [] then [] else PieceText(pieces[0]) + PiecesText(pieces[1..])
  }

  function StringText(pieces: seq<Piece>): string {
    "\"" + (PiecesText(pieces) + "\"")
  }

  function KeyText(key: Key): string {
    match key
    case NoKey => ""
    case Key(name, beforeColon, afterColon) => StringText(name) + (beforeColon + (":" + afterColon))
  }

  function TextOf(d: Doc): string {
    match d
    case Scalar(token) => token
    case Quoted(pieces) => StringText(pieces)
    case Array(elements) => "[" + (ElementsText(elements) + "]")
    case Object(elements) => "{" + (ElementsText(elements) + "}")
  }

  function ElementsText(es: Elements): string {
    match es
    case Blank(space) => space
    case Only(e) => ElementText(e)
    case Several(e, rest) => ElementText(e) + ("," + ElementsText(rest))
  }

  function ElementText(e: Element): string {
    e.before + (KeyText(e.key) + (TextOf(e.value) + e.after))
  }

  function Max(a: nat, b: nat): nat {
    if a >= b then a else b
  }

  /** How many arrays and objects enclose the innermost value of a document, itself included. */
  function Depth(d: Doc): nat {
    match d
    case Scalar(_) => 0
    case Quoted(_) => 0
    case Array(elements) => 1 + ElementsDepth(elements)
    case Object(elements) => 1 + ElementsDepth(elements)
  }

  function ElementsDepth(es: Elements): nat {
    match es
    case Blank(_) => 0
    case Only(e) => Depth(e.value)
    case Several(e, rest) => Max(Depth(e.value), ElementsDepth(rest))
  }

  // ----- The scan -----

  /** Where a scan stands, and the deepest it has been. */
  datatype Scan = Scan(depth: nat, inString: bool, escaped: bool, peak: nat)

  function Next(s: Scan, b: Byte): Scan {
    if s.inString then
      if s.escaped then s.(escaped := false)
      else if b == '\\' as int then s.(escaped := true)
      else if b == '"' as int then s.(inString := false)
      else s
    else if b == '"' as int then s.(inString := true)
    else if b == '{' as int || b == '[' as int then s.(depth := s.depth + 1, peak := Max(s.peak, s.depth + 1))
    else if b == '}' as int || b == ']' as int then s.(depth := if s.depth > 0 then s.depth - 1 else 0)
    else s
  }

  function After(s: Scan, bytes: seq<Byte>): (r: Scan)
    ensures r.peak >= s.peak
    decreases |bytes|
  {
    if bytes == [] then s else After(Next(s, bytes[0]), bytes[1..])
  }

  const START := Scan(0, false, false, 0)

  /** The scan stops at the first byte that goes too deep: it reports whether any byte does. */
  method ExceedsMaxNesting(bytes: seq<Byte>, maxDepth: nat) returns (r: bool)
    ensures r <==> After(START, bytes).peak > maxDepth
  {
    var depth: nat, inString, escaped := 0, false, false;
    ghost var peak: nat := 0;
    assert bytes[0..] == bytes;
    for i := 0 to |bytes|
      invariant peak <= maxDepth && After(Scan(depth, inString, escaped, peak), bytes[i..]) == After(START, bytes)
    {
      var byte := bytes[i];
      assert bytes[i..][0] == byte && bytes[i..][1..] == bytes[i + 1..];
      if inString {
        if escaped {
          escaped := false;
        } else if byte == '\\' as int {
          escaped := true;
        } else if byte == '"' as int {
          inString := false;
        }
        continue;
      }
      if byte == '"' as int {
        inString := true;
      } else if byte == '{' as int || byte == '[' as int {
        depth := depth + 1;
        peak := Max(peak, depth);
        if depth > maxDepth {
          return true;
        }
      } else if byte == '}' as int || byte == ']' as int {
        depth := if depth > 0 then depth - 1 else 0;
      }
    }
    return false;
  }

  // ----- The scan on text -----

  function Read(s: Scan, text: string): Scan {
    After(s, Utf8(text))
  }

  lemma {:induction false} AfterAppend(s: Scan, a: seq<Byte>, b: seq<Byte>)
    ensures After(s, a + b) == After(After(s, a), b)
    decreases |a|
  {
    if a == [] {
      assert a + b == b;
    } else {
      assert (a + b)[1..] == a[1..] + b;
      AfterAppend(Next(s, a[0]), a[1..], b);
    }
  }

  lemma {:induction false} Utf8Append(a: string, b: string)
    ensures Utf8(a + b) == Utf8(a) + Utf8(b)
  {
    if a == [] {
      assert a + b == b;
    } else {
      assert (a + b)[1..] == a[1..] + b;
      Utf8Append(a[1..], b);
      Associative(Utf8Char(a[0]), Utf8(a[1..]), Utf8(b));
    }
  }

  lemma ReadAppend(s: Scan, a: string, b: string)
    ensures Read(s, a + b) == Read(Read(s, a), b)
  {
    Utf8Append(a, b);
    AfterAppend(s, Utf8(a), Utf8(b));
  }

  lemma Utf8One(c: char)
    ensures Utf8([c]) == Utf8Char(c)
  {
    assert [c][1..] == "" && Utf8Char(c) + [] == Utf8Char(c);
  }

  lemma ReadAscii(s: Scan, c: char)
    requires c as int < 128
    ensures Read(s, [c]) == Next(s, c as int)
  {
    Utf8One(c);
    assert [c as int][1..] == [];
    assert After(Next(s, c as int), []) == Next(s, c as int);
  }

  /** Inside a string the bytes of a non-ASCII character change nothing. */
  lemma {:induction false} HighBytes(s: Scan, bytes: seq<Byte>)
    requires !s.escaped && s.inString && forall i :: 0 <= i < |bytes| ==> bytes[i] >= 128
    ensures After(s, bytes) == s
    decreases |bytes|
  {
    if bytes != [] {
      HighBytes(s, bytes[1..]);
    }
  }

  lemma ReadPlain(s: Scan, c: char)
    requires s.inString && !s.escaped && c != '"' && c != '\\'
    ensures Read(s, [c]) == s
  {
    if c as int < 128 {
      ReadAscii(s, c);
    } else {
      Utf8One(c);
      HighBytes(s, Utf8Char(c));
    }
  }

  lemma ReadPiece(s: Scan, p: Piece)
    requires s.inString && !s.escaped && GoodPiece(p)
    ensures Read(s, PieceText(p)) == s
  {
    if p.Plain? {
      ReadPlain(s, p.c);
    } else {
      assert PieceText(p) == ['\\'] + [p.c];
      ReadAppend(s, ['\\'], [p.c]);
      ReadAscii(s, '\\');
      ReadAscii(s.(escaped := true), p.c);
    }
  }

  lemma {:induction false} ReadPieces(s: Scan, pieces: seq<Piece>)
    requires s.inString && !s.escaped && GoodPieces(pieces)
    ensures Read(s, PiecesText(pieces)) == s
  {
    if pieces != [] {
      ReadPiece(s, pieces[0]);
      ReadAppend(s, PieceText(pieces[0]), PiecesText(pieces[1..]));
      ReadPieces(s, pieces[1..]);
    }
  }

  /** Whatever brackets, quotes and backslashes a string holds, reading it changes nothing. */
  lemma ReadString(s: Scan, pieces: seq<Piece>)
    requires !s.inString && !s.escaped && GoodPieces(pieces)
    ensures Read(s, StringText(pieces)) == s
  {
    hide Utf8, After;
    var inside := s.(inString := true);
    ReadAscii(s, '"');
    ReadAscii(inside, '"');
    ReadPieces(inside, pieces);
    ReadAppend(s, "\"", PiecesText(pieces) + "\"");
    ReadAppend(inside, PiecesText(pieces), "\"");
  }

  predicate Neutral(c: char) {
    c as int < 128 && c !in "\"{}[]"
  }

  lemma {:induction false} ReadNeutral(s: Scan, text: string)
    requires !s.inString && forall i :: 0 <= i < |text| ==> Neutral(text[i])
    ensures Read(s, text) == s
    decreases |text|
  {
    if text != [] {
      assert text == [text[0]] + text[1..];
      ReadAppend(s, [text[0]], text[1..]);
      ReadAscii(s, text[0]);
      ReadNeutral(s, text[1..]);
    }
  }

  lemma ReadKey(s: Scan, key: Key, named: bool)
    requires !s.inString && !s.escaped && GoodKey(key, named)
    ensures Read(s, KeyText(key)) == s
  {
    if key.Key? {
      hide Utf8, After, StringText;
      ReadString(s, key.name);
      ReadNeutral(s, key.beforeColon);
      ReadNeutral(s, ":");
      ReadNeutral(s, key.afterColon);
      ReadAppend(s, ":", key.afterColon);
      ReadAppend(s, key.beforeColon, ":" + key.afterColon);
      ReadAppend(s, StringText(key.name), key.beforeColon + (":" + key.afterColon));
    }
  }

  function Deepened(s: Scan, levels: nat): Scan {
    s.(peak := Max(s.peak, s.depth + levels))
  }

  lemma ReadBrackets(s: Scan, open: char, inner: string, close: char, levels: nat)
    requires !s.inString && !s.escaped && ((open == '[' && close == ']') || (open == '{' && close == '}'))
    requires var inside := Scan(s.depth + 1, false, false, Max(s.peak, s.depth + 1));
             Read(inside, inner) == Deepened(inside, levels)
    ensures Read(s, [open] + (inner + [close])) == Deepened(s, 1 + levels)
  {
    hide Utf8, After;
    var inside := Scan(s.depth + 1, false, false, Max(s.peak, s.depth + 1));
    ReadAscii(s, open);
    ReadAppend(s, [open], inner + [close]);
    ReadAppend(inside, inner, [close]);
    ReadAscii(Deepened(inside, levels), close);
  }

  lemma {:induction false} ReadDoc(s: Scan, d: Doc)
    requires !s.inString && !s.escaped && s.peak >= s.depth && Good(d)
    ensures Read(s, TextOf(d)) == Deepened(s, Depth(d))
    decreases d
  {
    hide Read;
    match d
    case Scalar(token) => ReadNeutral(s, token);
    case Quoted(pieces) => ReadString(s, pieces);
    case Array(elements) =>
      var inside := Scan(s.depth + 1, false, false, Max(s.peak, s.depth + 1));
      ReadElements(inside, elements, false);
      ReadBrackets(s, '[', ElementsText(elements), ']', ElementsDepth(elements));
    case Object(elements) =>
      var inside := Scan(s.depth + 1, false, false, Max(s.peak, s.depth + 1));
      ReadElements(inside, elements, true);
      ReadBrackets(s, '{', ElementsText(elements), '}', ElementsDepth(elements));
  }

  lemma {:induction false} ReadElements(s: Scan, es: Elements, named: bool)
    requires !s.inString && !s.escaped && s.peak >= s.depth && GoodElements(es, named)
    ensures Read(s, ElementsText(es)) == Deepened(s, ElementsDepth(es))
    decreases es
  {
    hide Read;
    match es
    case Blank(space) => ReadNeutral(s, space);
    case Only(e) => ReadElement(s, e, named);
    case Several(e, rest) =>
      ReadElement(s, e, named);
      var next := Deepened(s, Depth(e.value));
      ReadAppend(s, ElementText(e), "," + ElementsText(rest));
      ReadAppend(next, ",", ElementsText(rest));
      ReadNeutral(next, ",");
      ReadElements(next, rest, named);
  }

  lemma {:induction false} ReadElement(s: Scan, e: Element, named: bool)
    requires !s.inString && !s.escaped && s.peak >= s.depth && GoodElement(e, named)
    ensures Read(s, ElementText(e)) == Deepened(s, Depth(e.value))
    decreases e
  {
    hide Read, KeyText, TextOf, Depth;
    ReadNeutral(s, e.before);
    ReadKey(s, e.key, named);
    ReadDoc(s, e.value);
    var next := Deepened(s, Depth(e.value));
    ReadNeutral(next, e.after);
    ReadAppend(s, TextOf(e.value), e.after);
    ReadAppend(s, KeyText(e.key), TextOf(e.value) + e.after);
    ReadAppend(s, e.before, KeyText(e.key) + (TextOf(e.value) + e.after));
  }

  /**
   * On every JSON text, however it is spaced and however its strings are spelled, the scan reports
   * "deeper than k" exactly when the document is.
   */
  lemma NestingExact(before: string, d: Doc, after: string, k: nat)
    requires Space(before) && Good(d) && Space(after)
    ensures After(START, Utf8(before + (TextOf(d) + after))).peak > k <==> Depth(d) > k
  {
    hide Utf8, After, TextOf, Depth;
    ReadAppend(START, before, TextOf(d) + after);
    ReadNeutral(START, before);
    ReadAppend(START, TextOf(d), after);
    ReadDoc(START, d);
    ReadNeutral(Deepened(START, Depth(d)), after);
  }

  // ----- Any bytes at all -----

  lemma {:induction false} PeakMonotone(s: Scan, bytes: seq<Byte>, i: nat)
    requires i <= |bytes|
    ensures After(s, bytes[..i]).peak <= After(s, bytes).peak
  {
    assert bytes == bytes[..i] + bytes[i..];
    AfterAppend(s, bytes[..i], bytes[i..]);
  }

  lemma {:induction false} DepthAtMostPeak(s: Scan, bytes: seq<Byte>)
    requires s.depth <= s.peak
    ensures After(s, bytes).depth <= After(s, bytes).peak
    decreases |bytes|
  {
    if bytes != [] {
      DepthAtMostPeak(Next(s, bytes[0]), bytes[1..]);
    }
  }

  /** Input let through, JSON or not, never has more than `k` brackets open at any point. */
  lemma NeverDeeper(bytes: seq<Byte>, i: nat, k: nat)
    requires i <= |bytes| && After(START, bytes).peak <= k
    ensures After(START, bytes[..i]).depth <= k
  {
    PeakMonotone(START, bytes, i);
    DepthAtMostPeak(START, bytes[..i]);
  }
}
