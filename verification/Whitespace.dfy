/** Unicode white space, blank lines, trimming and ASCII lower case. */
module Whitespace {
  import opened Text

  predicate IsWhitespace(c: char) {
    || '\t' <= c <= '\r' || c == ' ' || c == '\U{85}' || c == '\U{A0}' || c == '\U{1680}'
    || '\U{2000}' <= c <= '\U{200A}' || c == '\U{2028}' || c == '\U{2029}' || c == '\U{202F}'
    || c == '\U{205F}' || c == '\U{3000}'
  }

  predicate Blank(line: string) {
    forall i :: 0 <= i < |line| ==> IsWhitespace(line[i])
  }

  function TrimStart(s: string): string {
    if s != [] && IsWhitespace(s[0]) then TrimStart(s[1..]) else s
  }

  function TrimEnd(s: string): string {
    if s != [] && IsWhitespace(Last(s)) then TrimEnd(Init(s)) else s
  }

  function Trim(s: string): (r: string)
    ensures |r| <= |s|
  {
    TrimNoLonger(s);
    TrimEnd(TrimStart(s))
  }

  lemma TrimNoLonger(s: string)
    ensures |TrimEnd(TrimStart(s))| <= |s|
  {
    TrimStartNoLonger(s);
    TrimEndNoLonger(TrimStart(s));
  }

  lemma TrimStartNoLonger(s: string)
    ensures |TrimStart(s)| <= |s|
  {
  }

  lemma TrimEndNoLonger(s: string)
    ensures |TrimEnd(s)| <= |s|
  {
  }

  lemma {:induction false} TrimEndFirst(s: string)
    requires s != [] && !IsWhitespace(s[0])
    ensures TrimEnd(s) != [] && TrimEnd(s)[0] == s[0] && !IsWhitespace(Last(TrimEnd(s)))
  {
    if IsWhitespace(Last(s)) {
      TrimEndFirst(Init(s));
    }
  }

  lemma {:induction false} TrimStartFirst(s: string)
    ensures TrimStart(s) == [] || !IsWhitespace(TrimStart(s)[0])
  {
    if s != [] && IsWhitespace(s[0]) {
      TrimStartFirst(s[1..]);
    }
  }

  lemma TrimTight(s: string)
    requires s != [] && !IsWhitespace(s[0]) && !IsWhitespace(Last(s))
    ensures Trim(s) == s
  {
  }

  /** Trimming again changes nothing. */
  lemma TrimTwice(s: string)
    ensures Trim(Trim(s)) == Trim(s)
  {
    hide IsWhitespace;
    TrimStartFirst(s);
    if TrimStart(s) != [] {
      TrimEndFirst(TrimStart(s));
      TrimTight(Trim(s));
    }
  }

  // ----- ASCII case -----

  function LowerChar(c: char): char {
    if 'A' <= c <= 'Z' then (c as int + 32) as char else c
  }

  function Lower(s: string): (r: string)
    ensures |r| == |s|
    ensures forall i :: 0 <= i < |s| ==> r[i] == LowerChar(s[i])
  {
    if s == [] then [] else [LowerChar(s[0])] + Lower(s[1..])
  }

  lemma LowerAppend(a: string, b: string)
    ensures Lower(a + b) == Lower(a) + Lower(b)
  {
  }

  lemma CaseKeepsBlanks(c: char)
    ensures IsWhitespace(LowerChar(c)) == IsWhitespace(c)
  {
  }

  lemma {:induction false} TrimStartLower(s: string)
    ensures TrimStart(Lower(s)) == Lower(TrimStart(s))
  {
    hide IsWhitespace, LowerChar;
    if s != [] {
      CaseKeepsBlanks(s[0]);
      assert Lower(s)[1..] == Lower(s[1..]);
      TrimStartLower(s[1..]);
    }
  }

  lemma {:induction false} TrimEndLower(s: string)
    ensures TrimEnd(Lower(s)) == Lower(TrimEnd(s))
  {
    hide IsWhitespace, LowerChar;
    if s != [] {
      CaseKeepsBlanks(Last(s));
      LowerAppend(Init(s), [Last(s)]);
      assert s == Init(s) + [Last(s)];
      assert Init(Lower(s)) == Lower(Init(s));
      TrimEndLower(Init(s));
    }
  }

  lemma TrimLower(s: string)
    ensures Trim(Lower(s)) == Lower(Trim(s))
  {
    TrimStartLower(s);
    TrimEndLower(TrimStart(s));
  }
}
