/** Browsing one Redis data type: the scan specification and the cursor loop. */
module RedisScan {
  import opened Wrappers
  import opened Text
  import opened Encoding
  import opened Core
  import opened Batching
  import opened RedisCommand

  // ----- The scan specification -----

  datatype ScanSpec = ScanSpec(table: string, pattern: string, count: nat)

  datatype SpecError =
    | BadCommandLine(error: CommandError)
    | MissingTable
    | UnknownTable(name: string)
    | MissingPattern
    | MissingCount
    | BadCount(text: string)
    | UnknownClause(name: string)

  const DEFAULT_SCAN_COUNT: nat := 500

  const PSEUDO_TABLES: seq<string> := ["string", "hash", "list", "set", "zset", "stream"]

  datatype Case = Case(lower: string -> string, upper: string -> string)

  /** The clauses read in order; a repeated clause replaces the earlier one. */
  function Clauses(rest: seq<string>, spec: ScanSpec, letters: Case): Result<ScanSpec, SpecError>
    decreases |rest|
  {
    if rest == [] then Ok(spec)
    else
      var name := letters.upper(rest[0]);
      if name == "MATCH" then
        if |rest| == 1 then Err(MissingPattern) else Clauses(rest[2..], spec.(pattern := rest[1]), letters)
      else if name == "COUNT" then
        if |rest| == 1 then Err(MissingCount)
        else
          match ParseU64(rest[1])
          case None => Err(BadCount(rest[1]))
          case Some(n) => Clauses(rest[2..], spec.(count := n), letters)
      else Err(UnknownClause(name))
  }

  function SpecOf(query: string, letters: Case): Result<ScanSpec, SpecError> {
    match Tokens(query)
    case Err(e) => Err(BadCommandLine(e))
    case Ok(tokens) =>
      if tokens == [] then Err(MissingTable)
      else
        var table := letters.lower(tokens[0]);
        if table !in PSEUDO_TABLES then Err(UnknownTable(table))
        else Clauses(tokens[1..], ScanSpec(table, "*", DEFAULT_SCAN_COUNT), letters)
  }

  method ParseScanSpec(query: string, letters: Case) returns (r: Result<ScanSpec, SpecError>)
    ensures r == SpecOf(query, letters)
  {
    hide Tokens, ParseU64;
    var tokenized := Tokenize(query);
    match tokenized {
      case Err(e) => return Err(BadCommandLine(e));
      case Ok(tokens) =>
        if tokens == [] {
          return Err(MissingTable);
        }
        var table := letters.lower(tokens[0]);
        if table !in PSEUDO_TABLES {
          return Err(UnknownTable(table));
        }
        r := ParseClauses(tokens[1..], table, letters);
    }
  }

  method ParseClauses(rest: seq<string>, table: string, letters: Case) returns (r: Result<ScanSpec, SpecError>)
    ensures r == Clauses(rest, ScanSpec(table, "*", DEFAULT_SCAN_COUNT), letters)
  {
    hide ParseU64;
    var pattern := "*";
    var count := DEFAULT_SCAN_COUNT;
    var index := 0;
    while index < |rest|
      invariant 0 <= index <= |rest|
      invariant Clauses(rest[index..], ScanSpec(table, pattern, count), letters)
                == Clauses(rest, ScanSpec(table, "*", DEFAULT_SCAN_COUNT), letters)
    {
      assert index + 1 < |rest| ==> rest[index..][1] == rest[index + 1] && rest[index..][2..] == rest[index + 2..];
      var name := letters.upper(rest[index]);
      if name == "MATCH" {
        if index + 1 == |rest| {
          return Err(MissingPattern);
        }
        pattern := rest[index + 1];
      } else if name == "COUNT" {
        if index + 1 == |rest| {
          return Err(MissingCount);
        }
        match ParseU64(rest[index + 1]) {
          case None => return Err(BadCount(rest[index + 1]));
          case Some(n) => count := n;
        }
      } else {
        return Err(UnknownClause(name));
      }
      index := index + 2;
    }
    return Ok(ScanSpec(table, pattern, count));
  }

  datatype Clause = Match(pattern: string) | Count(n: nat)

  function ClauseTokens(clauses: seq<Clause>): seq<string> {
    if clauses == [] then []
    else
      (match clauses[0]
       case Match(pattern) => ["MATCH", pattern]
       case Count(n) => ["COUNT", Decimal(n)]) + ClauseTokens(clauses[1..])
  }

  /** The last pattern given, or else the one in force. */
  function LastPattern(clauses: seq<Clause>, pattern: string): string {
    if clauses == [] then pattern
    else if Last(clauses).Match? then Last(clauses).pattern
    else LastPattern(Init(clauses), pattern)
  }

  function LastCount(clauses: seq<Clause>, count: nat): nat {
    if clauses == [] then count
    else if Last(clauses).Count? then Last(clauses).n
    else LastCount(Init(clauses), count)
  }

  ghost predicate GoodClauses(clauses: seq<Clause>, letters: Case) {
    && letters.upper("MATCH") == "MATCH" && letters.upper("COUNT") == "COUNT"
    && forall i :: 0 <= i < |clauses| && clauses[i].Count? ==> clauses[i].n <= U64_MAX
  }

  function Applied(c: Clause, spec: ScanSpec): ScanSpec {
    if c.Match? then spec.(pattern := c.pattern) else spec.(count := c.n)
  }

  lemma OneClause(c: Clause, rest: seq<string>, spec: ScanSpec, letters: Case)
    requires GoodClauses([c], letters)
    ensures Clauses(ClauseTokens([c]) + rest, spec, letters) == Clauses(rest, Applied(c, spec), letters)
  {
    assert [c][1..] == [] && [c][0] == c;
    var tokens := ClauseTokens([c]);
    var pair := if c.Match? then ["MATCH", c.pattern] else ["COUNT", Decimal(c.n)];
    assert tokens == pair + ClauseTokens([c][1..]) == pair + [] == pair;
    assert (tokens + rest)[0] == tokens[0] && (tokens + rest)[1] == tokens[1] && (tokens + rest)[2..] == rest;
    if c.Count? {
      ParseDecimal(c.n);
    }
  }

  lemma {:induction false} LastOfRest(c: Clause, rest: seq<Clause>, spec: ScanSpec)
    ensures LastPattern([c] + rest, spec.pattern) == LastPattern(rest, Applied(c, spec).pattern)
    ensures LastCount([c] + rest, spec.count) == LastCount(rest, Applied(c, spec).count)
    decreases |rest|
  {
    if rest == [] {
      assert [c] + rest == [c] && Init([c]) == [];
    } else {
      assert Init([c] + rest) == [c] + Init(rest) && Last([c] + rest) == Last(rest);
      LastOfRest(c, Init(rest), spec);
    }
  }

  /** Clauses in any order and number: of each kind the last one counts, and what follows them is read next. */
  lemma {:induction false} ClausesRead(clauses: seq<Clause>, rest: seq<string>, spec: ScanSpec, letters: Case)
    requires GoodClauses(clauses, letters)
    ensures Clauses(ClauseTokens(clauses) + rest, spec, letters) ==
            Clauses(rest, spec.(pattern := LastPattern(clauses, spec.pattern), count := LastCount(clauses, spec.count)), letters)
    decreases |clauses|
  {
    if clauses == [] {
      assert ClauseTokens(clauses) + rest == rest;
    } else {
      hide Clauses;
      var c, later := clauses[0], clauses[1..];
      assert [c] + later == clauses && GoodClauses([c], letters) && GoodClauses(later, letters);
      assert [c][1..] == [] && ClauseTokens([c]) + ClauseTokens(later) == ClauseTokens(clauses);
      Associative(ClauseTokens([c]), ClauseTokens(later), rest);
      OneClause(c, ClauseTokens(later) + rest, spec, letters);
      ClausesRead(later, rest, Applied(c, spec), letters);
      LastOfRest(c, later, spec);
    }
  }

  lemma TableFirst(table: string, rest: seq<string>, letters: Case)
    requires table in PSEUDO_TABLES && letters.lower(table) == table
    ensures SpecOf(Printed([table] + rest), letters) == Clauses(rest, ScanSpec(table, "*", 500), letters)
  {
    hide Tokens, Printed, Clauses;
    TokensOfPrinted([table] + rest);
    assert ([table] + rest)[1..] == rest;
  }

  /** Every list of clauses after a table is read: of each kind the last counts, and without one the default holds. */
  lemma SpecRoundTrip(table: string, clauses: seq<Clause>, letters: Case)
    requires table in PSEUDO_TABLES && letters.lower(table) == table && GoodClauses(clauses, letters)
    ensures SpecOf(Printed([table] + ClauseTokens(clauses)), letters) ==
            Ok(ScanSpec(table, LastPattern(clauses, "*"), LastCount(clauses, 500)))
  {
    hide SpecOf, Printed;
    TableFirst(table, ClauseTokens(clauses), letters);
    ClausesRead(clauses, [], ScanSpec(table, "*", 500), letters);
    assert ClauseTokens(clauses) + [] == ClauseTokens(clauses);
  }

  /** What ends a list of clauses badly, and the error it gives, whatever good clauses stand before it. */
  lemma SpecErrors(table: string, clauses: seq<Clause>, word: string, letters: Case)
    requires table in PSEUDO_TABLES && letters.lower(table) == table && GoodClauses(clauses, letters)
    ensures SpecOf(Printed([table] + (ClauseTokens(clauses) + ["MATCH"])), letters) == Err(MissingPattern)
    ensures SpecOf(Printed([table] + (ClauseTokens(clauses) + ["COUNT"])), letters) == Err(MissingCount)
    ensures ParseU64(word).None? ==>
              SpecOf(Printed([table] + (ClauseTokens(clauses) + ["COUNT", word])), letters) == Err(BadCount(word))
    ensures letters.upper(word) != "MATCH" && letters.upper(word) != "COUNT" ==>
              SpecOf(Printed([table] + (ClauseTokens(clauses) + [word])), letters) == Err(UnknownClause(letters.upper(word)))
  {
    hide SpecOf, Printed, ParseU64;
    var spec := ScanSpec(table, "*", 500);
    TableFirst(table, ClauseTokens(clauses) + ["MATCH"], letters);
    ClausesRead(clauses, ["MATCH"], spec, letters);
    TableFirst(table, ClauseTokens(clauses) + ["COUNT"], letters);
    ClausesRead(clauses, ["COUNT"], spec, letters);
    TableFirst(table, ClauseTokens(clauses) + ["COUNT", word], letters);
    ClausesRead(clauses, ["COUNT", word], spec, letters);
    TableFirst(table, ClauseTokens(clauses) + [word], letters);
    ClausesRead(clauses, [word], spec, letters);
  }

  // ----- The cursor loop -----

  type Cursor = c: int | 0 <= c <= U64_MAX

  /**
   * A keyspace as SCAN shows it: page `i` answers cursor `cursors[i]` and names the cursor of the next
   * page, or 0 at the end. A page is None when that call fails. Pages may be empty.
   */
  datatype Keyspace<Key> = Keyspace(cursors: seq<Cursor>, pages: seq<Option<seq<Key>>>) {
    ghost predicate Valid() {
      && |cursors| == |pages| >= 1 && cursors[0] == 0
      && forall i, j :: 0 <= i < j < |cursors| ==> cursors[i] != cursors[j]
    }

    function Next(i: nat): Cursor {
      if i + 1 < |cursors| then cursors[i + 1] else 0
    }

    /** The server's answer: the next cursor and this page. An unknown cursor ends the scan. */
    function Scan(cursor: Cursor): (Cursor, Option<seq<Key>>)
      requires |cursors| == |pages|
    {
      var i := PageOf(cursors, cursor);
      if i < |pages| then (Next(i), pages[i]) else (0, Some([]))
    }
  }

  function PageOf(cursors: seq<Cursor>, cursor: Cursor): (i: nat)
    ensures i <= |cursors|
    ensures i < |cursors| ==> cursors[i] == cursor
    ensures forall j :: 0 <= j < i ==> cursors[j] != cursor
  {
    if cursors == [] || cursors[0] == cursor then 0 else 1 + PageOf(cursors[1..], cursor)
  }

  /** The rows of some keys in order, or None when those of one key cannot be read. */
  function Expanded<Key, R>(rowsOf: Key -> Option<seq<R>>, keys: seq<Key>): Option<seq<R>> {
    if keys == [] then Some([])
    else
      match (Expanded(rowsOf, Init(keys)), rowsOf(Last(keys)))
      case (Some(before), Some(rows)) => Some(before + rows)
      case _ => None
  }

  function PageRows<Key, R>(rowsOf: Key -> Option<seq<R>>, page: Option<seq<Key>>): Option<seq<R>> {
    if page.None? then None else Expanded(rowsOf, page.value)
  }

  /** The rows of the pages before the first one that fails, and whether there is such a page. */
  function Readable<Key, R>(rowsOf: Key -> Option<seq<R>>, pages: seq<Option<seq<Key>>>): (seq<R>, bool) {
    if pages == [] then ([], false)
    else
      match PageRows(rowsOf, pages[0])
      case None => ([], true)
      case Some(rows) => (rows + Readable(rowsOf, pages[1..]).0, Readable(rowsOf, pages[1..]).1)
  }

  /** The rows of each key, for keys that can all be read. */
  function EachKey<Key, R>(rowsOf: Key -> Option<seq<R>>, keys: seq<Key>): (rows: seq<seq<R>>)
    requires forall i :: 0 <= i < |keys| ==> rowsOf(keys[i]).Some?
    ensures |rows| == |keys| && forall i :: 0 <= i < |keys| ==> rowsOf(keys[i]) == Some(rows[i])
  {
    seq(|keys|, i requires 0 <= i < |keys| => rowsOf(keys[i]).value)
  }

  /** Keys give their rows one after the other, in order, or nothing if one of them cannot be read. */
  lemma {:induction false} ExpandedExactly<Key(!new), R(!new)>(rowsOf: Key -> Option<seq<R>>, keys: seq<Key>)
    ensures Expanded(rowsOf, keys).Some? <==> forall i :: 0 <= i < |keys| ==> rowsOf(keys[i]).Some?
    ensures Expanded(rowsOf, keys).Some? ==> Expanded(rowsOf, keys).value == Flatten(EachKey(rowsOf, keys))
    decreases |keys|
  {
    if keys != [] {
      ExpandedExactly(rowsOf, Init(keys));
      assert keys == Init(keys) + [Last(keys)];
      if Expanded(rowsOf, keys).Some? {
        assert forall i :: 0 <= i < |keys| ==> keys[i] == if i < |keys| - 1 then Init(keys)[i] else Last(keys);
        var rows := EachKey(rowsOf, keys);
        assert rows == EachKey(rowsOf, Init(keys)) + [Last(rows)];
        FlattenAppend(EachKey(rowsOf, Init(keys)), [Last(rows)]);
        assert Flatten([Last(rows)]) == Last(rows) + [];
      }
    }
  }

  /** The position of the first page that cannot be read, or the number of pages. */
  function FirstBroken<Key, R>(rowsOf: Key -> Option<seq<R>>, pages: seq<Option<seq<Key>>>): (k: nat)
    ensures k <= |pages| && forall i :: 0 <= i < k ==> PageRows(rowsOf, pages[i]).Some?
    ensures k < |pages| ==> PageRows(rowsOf, pages[k]).None?
  {
    if pages == [] || PageRows(rowsOf, pages[0]).None? then 0 else 1 + FirstBroken(rowsOf, pages[1..])
  }

  function EachPage<Key, R>(rowsOf: Key -> Option<seq<R>>, pages: seq<Option<seq<Key>>>): (rows: seq<seq<R>>)
    requires forall i :: 0 <= i < |pages| ==> PageRows(rowsOf, pages[i]).Some?
    ensures |rows| == |pages| && forall i :: 0 <= i < |pages| ==> PageRows(rowsOf, pages[i]) == Some(rows[i])
  {
    if pages == [] then [] else [PageRows(rowsOf, pages[0]).value] + EachPage(rowsOf, pages[1..])
  }

  /** What can be read is the rows of the pages before the first broken one, in order. */
  lemma {:induction false} ReadableExactly<Key, R>(rowsOf: Key -> Option<seq<R>>, pages: seq<Option<seq<Key>>>)
    ensures var k := FirstBroken(rowsOf, pages);
            Readable(rowsOf, pages) == (Flatten(EachPage(rowsOf, pages[..k])), k < |pages|)
    decreases |pages|
  {
    if pages != [] && PageRows(rowsOf, pages[0]).Some? {
      ReadableExactly(rowsOf, pages[1..]);
      var k := FirstBroken(rowsOf, pages[1..]);
      assert pages[..k + 1][1..] == pages[1..][..k] && pages[..k + 1][0] == pages[0];
    }
  }

  lemma {:induction false} ReadableAppend<Key, R>(rowsOf: Key -> Option<seq<R>>, a: seq<Option<seq<Key>>>,
                                                  b: seq<Option<seq<Key>>>)
    requires !Readable(rowsOf, a).1
    ensures Readable(rowsOf, a + b) == (Readable(rowsOf, a).0 + Readable(rowsOf, b).0, Readable(rowsOf, b).1)
  {
    if a == [] {
      assert a + b == b;
      assert [] + Readable(rowsOf, b).0 == Readable(rowsOf, b).0;
    } else {
      assert (a + b)[1..] == a[1..] + b;
      ReadableAppend(rowsOf, a[1..], b);
      Associative(PageRows(rowsOf, a[0]).value, Readable(rowsOf, a[1..]).0, Readable(rowsOf, b).0);
    }
  }

  lemma ExpandedPrefixFails<Key, R>(rowsOf: Key -> Option<seq<R>>, keys: seq<Key>, i: nat)
    requires i <= |keys| && Expanded(rowsOf, keys[..i]).None?
    ensures Expanded(rowsOf, keys).None?
    decreases |keys|
  {
    if i == |keys| {
      assert keys[..i] == keys;
    } else {
      assert Init(keys)[..i] == keys[..i];
      ExpandedPrefixFails(rowsOf, Init(keys), i);
    }
  }

  method ExpandKeys<Key, R>(rowsOf: Key -> Option<seq<R>>, keys: seq<Key>) returns (r: Option<seq<R>>)
    ensures r == Expanded(rowsOf, keys)
  {
    var batch: seq<R> := [];
    for i := 0 to |keys|
      invariant Expanded(rowsOf, keys[..i]) == Some(batch)
    {
      assert Init(keys[..i + 1]) == keys[..i] && Last(keys[..i + 1]) == keys[i];
      var rows := rowsOf(keys[i]);
      if rows.None? {
        ExpandedPrefixFails(rowsOf, keys, i + 1);
        return None;
      }
      batch := batch + rows.value;
    }
    assert keys[..|keys|] == keys;
    return Some(batch);
  }

  datatype Streamed<R> = Streamed(elements: seq<StreamElement<R>>, failed: bool)

  /** The header once and first, then non-empty batches. */
  ghost predicate WellShaped<R>(elements: seq<StreamElement<R>>, header: StreamElement<R>) {
    && elements != [] && elements[0] == header && header.Header?
    && forall i :: 1 <= i < |elements| ==> elements[i].Rows? && elements[i].rows != []
  }

  /** The stream has sent all rows of the first `k` pages, none of which failed. */
  ghost predicate SentPages<Key, R>(space: Keyspace<Key>, rowsOf: Key -> Option<seq<R>>, k: nat,
                                    elements: seq<StreamElement<R>>)
  {
    k <= |space.pages| && Readable(rowsOf, space.pages[..k]) == (RowsIn(elements), false)
  }

  /** What a whole scan is to deliver: the first rows up to the limit, and a failure only if it comes before it. */
  ghost predicate Delivered<Key, R>(space: Keyspace<Key>, rowsOf: Key -> Option<seq<R>>, s: Streamed<R>) {
    var (rows, broken) := Readable(rowsOf, space.pages);
    && RowsIn(s.elements) == rows[..Min(EMERGENCY_MAX, |rows|)]
    && (s.failed <==> broken && |rows| < EMERGENCY_MAX)
  }

  lemma ReadableOne<Key, R>(rowsOf: Key -> Option<seq<R>>, page: Option<seq<Key>>)
    ensures Readable(rowsOf, [page]) ==
            if PageRows(rowsOf, page).Some? then (PageRows(rowsOf, page).value, false) else ([], true)
  {
    assert [page][1..] == [];
    if PageRows(rowsOf, page).Some? {
      assert PageRows(rowsOf, page).value + [] == PageRows(rowsOf, page).value;
    }
  }

  /** Page `k` fails, with fewer rows before it than the limit. */
  lemma ScanFails<Key, R>(space: Keyspace<Key>, rowsOf: Key -> Option<seq<R>>, k: nat, elements: seq<StreamElement<R>>)
    requires SentPages(space, rowsOf, k, elements) && |RowsIn(elements)| < EMERGENCY_MAX
    requires k < |space.pages| && PageRows(rowsOf, space.pages[k]).None?
    ensures Delivered(space, rowsOf, Streamed(elements, true))
  {
    hide RowsIn, PageRows;
    assert space.pages == space.pages[..k] + space.pages[k..];
    ReadableAppend(rowsOf, space.pages[..k], space.pages[k..]);
    assert RowsIn(elements) + [] == RowsIn(elements);
  }

  /** Page `k` is read; the scan stops on reaching the limit or the last page and goes on otherwise. */
  lemma ScanGoesOn<Key, R>(space: Keyspace<Key>, rowsOf: Key -> Option<seq<R>>, k: nat, elements: seq<StreamElement<R>>,
                           batch: seq<R>)
    requires SentPages(space, rowsOf, k, elements) && |RowsIn(elements)| < EMERGENCY_MAX
    requires k < |space.pages| && PageRows(rowsOf, space.pages[k]) == Some(batch)
    ensures var total := |RowsIn(elements)|;
            var sent := elements + Partial(batch[..Min(|batch|, EMERGENCY_MAX - total)]);
            && |RowsIn(sent)| == Min(EMERGENCY_MAX, total + |batch|)
            && (|RowsIn(sent)| >= EMERGENCY_MAX || k + 1 == |space.pages| ==> Delivered(space, rowsOf, Streamed(sent, false)))
            && (|RowsIn(sent)| < EMERGENCY_MAX ==> SentPages(space, rowsOf, k + 1, sent))
  {
    hide RowsIn, PageRows, Readable, Partial;
    var (pages, total) := (space.pages, |RowsIn(elements)|);
    var kept := batch[..Min(|batch|, EMERGENCY_MAX - total)];
    RowsBatch(elements, kept);
    assert pages[..k + 1] == pages[..k] + [pages[k]];
    ReadableAppend(rowsOf, pages[..k], [pages[k]]);
    ReadableOne(rowsOf, pages[k]);
    assert pages == pages[..k + 1] + pages[k + 1..];
    ReadableAppend(rowsOf, pages[..k + 1], pages[k + 1..]);
    assert total + |batch| <= EMERGENCY_MAX ==> kept == batch;
    var rows := Readable(rowsOf, pages).0;
    assert rows == RowsIn(elements) + batch + Readable(rowsOf, pages[k + 1..]).0;
    if k + 1 == |pages| {
      ReadableNothing(rowsOf, pages[k + 1..]);
    }
  }

  lemma ReadableNothing<Key, R>(rowsOf: Key -> Option<seq<R>>, pages: seq<Option<seq<Key>>>)
    requires |pages| == 0
    ensures Readable(rowsOf, pages) == ([], false)
  {
  }

  lemma ScanStarts<Key, R>(space: Keyspace<Key>, rowsOf: Key -> Option<seq<R>>, header: StreamElement<R>)
    requires header.Header?
    ensures RowsIn([header]) == [] && SentPages(space, rowsOf, 0, [header])
  {
    assert [header][1..] == [];
    ReadableNothing(rowsOf, space.pages[..0]);
  }

  /**
   * Streams a scan. For every way the server pages its keys, empty pages included, the header comes
   * first and the rows are the first min(EMERGENCY_MAX, n) of those readable, in order.
   */
  method StreamRows<Key, R>(space: Keyspace<Key>, rowsOf: Key -> Option<seq<R>>, columns: seq<string>, types: seq<string>)
    returns (s: Streamed<R>)
    requires space.Valid()
    ensures WellShaped(s.elements, Header(columns, types))
    ensures Delivered(space, rowsOf, s)
  {
    var header: StreamElement<R> := Header(columns, types);
    var elements := [header];
    ScanStarts(space, rowsOf, header);
    var cursor: Cursor := 0;
    var total := 0;
    ghost var k := 0;
    hide Readable, RowsIn, SentPages, Delivered, Expanded;
    while true
      invariant k < |space.pages| && cursor == space.cursors[k]
      invariant WellShaped(elements, header)
      invariant total == |RowsIn(elements)| < EMERGENCY_MAX && SentPages(space, rowsOf, k, elements)
      decreases |space.pages| - k
    {
      if total >= EMERGENCY_MAX {
        break;
      }
      assert PageOf(space.cursors, cursor) == k;
      var (nextCursor, keys) := space.Scan(cursor);
      if keys.None? {
        ScanFails(space, rowsOf, k, elements);
        return Streamed(elements, true);
      }
      var expanded := ExpandKeys(rowsOf, keys.value);
      if expanded.None? {
        ScanFails(space, rowsOf, k, elements);
        return Streamed(elements, true);
      }
      var batch := expanded.value;
      ScanGoesOn(space, rowsOf, k, elements, batch);
      if total + |batch| > EMERGENCY_MAX {
        batch := batch[..EMERGENCY_MAX - total];
      }
      assert batch == expanded.value[..Min(|expanded.value|, EMERGENCY_MAX - total)];
      total := total + |batch|;
      assert elements + [] == elements;
      if batch != [] {
        elements := elements + [Rows(batch)];
      }
      if total >= EMERGENCY_MAX || nextCursor == 0 {
        return Streamed(elements, false);
      }
      cursor := nextCursor;
      k := k + 1;
    }
    return Streamed(elements, false);
  }
}
