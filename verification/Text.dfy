/** Text as sequences of characters: splitting at a separator, joining back, trimming, decimals. */
module Text {

  /** Position of the first `c` in `s`, or `|s|` when there is none. */
  function IndexOf(s: string, c: char): (i: nat)
    ensures i <= |s|
    ensures forall k :: 0 <= k < i ==> s[k] != c
    ensures i < |s| ==> s[i] == c
  {
    if s == [] || s[0] == c then 0 else 1 + IndexOf(s[1..], c)
  }

  /** The pieces of `s` between separators; there is always at least one. */
  function Split(s: string, sep: char): (parts: seq<string>)
    ensures |parts| >= 1
    decreases |s|
  {
    var i := IndexOf(s, sep);
    if i == |s| then [s] else [s[..i]] + Split(s[i + 1..], sep)
  }

  function Init<T>(s: seq<T>): seq<T>
    requires |s| > 0
  {
    s[..|s| - 1]
  }

  function Last<T>(s: seq<T>): T
    requires |s| > 0
  {
    s[|s| - 1]
  }

  function Flatten<T>(parts: seq<seq<T>>): seq<T> {
    if parts == [] then [] else parts[0] + Flatten(parts[1..])
  }

  lemma Associative<T>(a: seq<T>, b: seq<T>, c: seq<T>)
    ensures a + b + c == a + (b + c)
  {
  }

  lemma {:induction false} FlattenAppend<T>(a: seq<seq<T>>, b: seq<seq<T>>)
    ensures Flatten(a + b) == Flatten(a) + Flatten(b)
  {
    if a == [] {
      assert a + b == b;
    } else {
      assert (a + b)[1..] == a[1..] + b;
      FlattenAppend(a[1..], b);
      Associative(a[0], Flatten(a[1..]), Flatten(b));
    }
  }

  function Join(parts: seq<string>, sep: char): string {
    if parts == [] then [] else if |parts| == 1 then parts[0] else parts[0] + [sep] + Join(parts[1..], sep)
  }

  /** Every part followed by one separator. */
  function Terminate(parts: seq<string>, sep: char): string {
    if parts == [] then [] else parts[0] + [sep] + Terminate(parts[1..], sep)
  }

  ghost predicate Free(parts: seq<string>, sep: char) {
    forall i :: 0 <= i < |parts| ==> sep !in parts[i]
  }

  lemma IndexOfFirst(piece: string, rest: string, sep: char)
    requires sep !in piece
    ensures IndexOf(piece + [sep] + rest, sep) == |piece|
  {
    var text := piece + [sep] + rest;
    assert text[|piece|] == sep;
    assert forall k :: 0 <= k < |piece| ==> text[k] == piece[k];
  }

  /** A piece with its separator comes off the front. */
  lemma SplitFirst(piece: string, rest: string, sep: char)
    requires sep !in piece
    ensures Split(piece + [sep] + rest, sep) == [piece] + Split(rest, sep)
  {
    var text := piece + [sep] + rest;
    IndexOfFirst(piece, rest, sep);
    assert text[..|piece|] == piece && text[|piece| + 1..] == rest;
  }

  lemma SplitWhole(piece: string, sep: char)
    requires sep !in piece
    ensures Split(piece, sep) == [piece]
  {
  }

  /** Moving the first unfinished piece of `s` over to the finished ones. */
  lemma SplitNext(all: seq<string>, done: seq<string>, s: string, sep: char)
    requires all == done + Split(s, sep) && IndexOf(s, sep) < |s|
    ensures var i := IndexOf(s, sep);
            all == done + [s[..i]] + Split(s[i + 1..], sep)
  {
  }

  /** Cutting after a finished piece: what reading `b` later adds to the pieces of `a`. */
  lemma {:induction false} SplitAppend(a: string, b: string, sep: char)
    ensures Split(a + b, sep) == Init(Split(a, sep)) + Split(Last(Split(a, sep)) + b, sep)
    decreases |a|
  {
    var i := IndexOf(a, sep);
    if i < |a| {
      var rest := a[i + 1..];
      assert a == a[..i] + [sep] + rest;
      assert a + b == a[..i] + [sep] + (rest + b);
      SplitFirst(a[..i], rest + b, sep);
      SplitAppend(rest, b, sep);
      assert Init(Split(a, sep)) == [a[..i]] + Init(Split(rest, sep));
    }
  }

  lemma {:induction false} SplitFree(s: string, sep: char)
    ensures Free(Split(s, sep), sep)
    decreases |s|
  {
    var i := IndexOf(s, sep);
    if i < |s| {
      SplitFree(s[i + 1..], sep);
    }
  }

  lemma {:induction false} JoinSplit(s: string, sep: char)
    ensures Join(Split(s, sep), sep) == s
    decreases |s|
  {
    var i := IndexOf(s, sep);
    if i < |s| {
      var rest := Split(s[i + 1..], sep);
      JoinSplit(s[i + 1..], sep);
      assert Split(s, sep)[1..] == rest;
      assert s == s[..i] + [sep] + s[i + 1..];
    }
  }

  lemma {:induction false} SplitTerminate(parts: seq<string>, tail: string, sep: char)
    requires Free(parts, sep)
    ensures Split(Terminate(parts, sep) + tail, sep) == parts + Split(tail, sep)
  {
    if parts == [] {
      assert Terminate(parts, sep) + tail == tail;
    } else {
      var first, rest := parts[0], parts[1..];
      Associative(first + [sep], Terminate(rest, sep), tail);
      SplitFirst(first, Terminate(rest, sep) + tail, sep);
      SplitTerminate(rest, tail, sep);
      Associative([first], rest, Split(tail, sep));
      assert [first] + rest == parts;
    }
  }

  lemma {:induction false} TerminateAppend(a: seq<string>, b: seq<string>, sep: char)
    ensures Terminate(a + b, sep) == Terminate(a, sep) + Terminate(b, sep)
  {
    if a == [] {
      assert a + b == b;
    } else {
      assert (a + b)[1..] == a[1..] + b;
      TerminateAppend(a[1..], b, sep);
      Associative(a[0] + [sep], Terminate(a[1..], sep), Terminate(b, sep));
    }
  }

  lemma TerminateSnoc(parts: seq<string>, last: string, sep: char)
    ensures Terminate(parts + [last], sep) == Terminate(parts, sep) + last + [sep]
  {
    TerminateAppend(parts, [last], sep);
    assert Terminate([last], sep) == last + [sep];
  }

  lemma {:induction false} SplitJoin(parts: seq<string>, sep: char)
    requires |parts| >= 1 && Free(parts, sep)
    ensures Split(Join(parts, sep), sep) == parts
  {
    if |parts| == 1 {
      SplitWhole(parts[0], sep);
    } else {
      SplitFirst(parts[0], Join(parts[1..], sep), sep);
      SplitJoin(parts[1..], sep);
    }
  }
}
