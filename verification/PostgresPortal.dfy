/** The two Postgres read loops over a portal, which fetch in batches and stop at a row cap. */
module PostgresPortal {
  import opened Wrappers
  import opened Text
  import opened Core
  import opened Batching

  const PORTAL_BATCH_SIZE: nat := 1000

  /**
   * A portal on the server: the rows it will give, and how many it has given. `sizes` records the
   * fetch sizes asked for; the protocol reads size zero as "everything that is left".
   */
  class Portal<Raw> {
    const rows: seq<Raw>
    var position: nat
    var sizes: seq<nat>

    constructor (rows: seq<Raw>)
      ensures Valid() && this.rows == rows && position == 0 && sizes == []
    {
      this.rows := rows;
      position := 0;
      sizes := [];
    }

    predicate Valid()
      reads this
    {
      position <= |rows|
    }

    method Fetch(size: nat) returns (batch: seq<Raw>)
      requires Valid()
      modifies this
      ensures Valid() && sizes == old(sizes) + [size]
      ensures position == if size == 0 then |rows| else Min(old(position) + size, |rows|)
      ensures batch == rows[old(position)..position]
    {
      var start := position;
      position := if size == 0 then |rows| else Min(position + size, |rows|);
      sizes := sizes + [size];
      batch := rows[start..position];
    }
  }

  datatype PortalError = ConversionFailed

  /** The rows converted, or None when some row has a cell that cannot be. */
  function Converted<Raw, R>(convert: Raw -> Option<R>, raws: seq<Raw>): (r: Option<seq<R>>)
    ensures r.Some? ==> |r.value| == |raws|
  {
    if raws == [] then Some([])
    else
      match (convert(raws[0]), Converted(convert, raws[1..]))
      case (Some(row), Some(rest)) => Some([row] + rest)
      case _ => None
  }

  lemma {:induction false} ConvertedAppend<Raw, R>(convert: Raw -> Option<R>, a: seq<Raw>, b: seq<Raw>)
    ensures Converted(convert, a + b) ==
            if Converted(convert, a).Some? && Converted(convert, b).Some?
            then Some(Converted(convert, a).value + Converted(convert, b).value) else None
  {
    if a == [] {
      assert a + b == b;
      assert Converted(convert, b).Some? ==> [] + Converted(convert, b).value == Converted(convert, b).value;
    } else {
      assert (a + b)[0] == a[0] && (a + b)[1..] == a[1..] + b;
      ConvertedAppend(convert, a[1..], b);
      if Converted(convert, a).Some? && Converted(convert, b).Some? {
        Associative([convert(a[0]).value], Converted(convert, a[1..]).value, Converted(convert, b).value);
      }
    }
  }

  lemma ConvertedOne<Raw, R>(convert: Raw -> Option<R>, raw: Raw)
    ensures Converted(convert, [raw]) == if convert(raw).Some? then Some([convert(raw).value]) else None
  {
    assert [raw][1..] == [];
    if convert(raw).Some? {
      assert [convert(raw).value] + [] == [convert(raw).value];
    }
  }

  /** Converting is all or nothing: it fails exactly if some row does. */
  lemma {:induction false} ConvertedExactly<Raw(!new), R(!new)>(convert: Raw -> Option<R>, raws: seq<Raw>)
    ensures Converted(convert, raws).Some? <==> forall i :: 0 <= i < |raws| ==> convert(raws[i]).Some?
    ensures Converted(convert, raws).Some? ==>
              forall i :: 0 <= i < |raws| ==> convert(raws[i]) == Some(Converted(convert, raws).value[i])
  {
    if raws != [] {
      ConvertedExactly(convert, raws[1..]);
    }
  }

  method ConvertBatch<Raw, R>(convert: Raw -> Option<R>, batch: seq<Raw>) returns (r: Option<seq<R>>)
    ensures r == Converted(convert, batch)
  {
    var out: seq<R> := [];
    for i := 0 to |batch|
      invariant Converted(convert, batch[..i]) == Some(out)
    {
      assert batch[..i + 1] == batch[..i] + [batch[i]];
      ConvertedOne(convert, batch[i]);
      ConvertedAppend(convert, batch[..i], [batch[i]]);
      var row := convert(batch[i]);
      if row.None? {
        assert batch[..i + 1] + batch[i + 1..] == batch;
        ConvertedAppend(convert, batch[..i + 1], batch[i + 1..]);
        return None;
      }
      out := out + [row.value];
    }
    assert batch[..|batch|] == batch;
    return Some(out);
  }

  lemma PrefixFails<Raw, R>(convert: Raw -> Option<R>, raws: seq<Raw>, i: nat, j: nat)
    requires i <= j <= |raws| && Converted(convert, raws[..i]) == None
    ensures Converted(convert, raws[..j]) == None
  {
    assert raws[..j] == raws[..i] + raws[i..j];
    ConvertedAppend(convert, raws[..i], raws[i..j]);
  }

  datatype Described = Described(names: seq<string>, types: seq<string>)

  datatype QueryResult<R> = QueryResult(columns: Described, rows: seq<R>, rowsAffected: nat, isTruncated: bool)

  function EffectiveCap(rowCap: Option<nat>): (cap: nat)
    ensures cap <= 5_000_000 && (rowCap.Some? ==> cap <= rowCap.value)
    ensures cap == 5_000_000 || rowCap == Some(cap)
  {
    Min(if rowCap.Some? then rowCap.value else EMERGENCY_MAX, EMERGENCY_MAX)
  }

  /** The number of fetches a read of `n` rows under `cap` takes. */
  function FetchCount(n: nat, cap: nat): (fetches: nat)
    ensures fetches <= Min(n, cap) / 1000 + 1
  {
    if n < cap then n / PORTAL_BATCH_SIZE + 1 else (cap + PORTAL_BATCH_SIZE - 1) / PORTAL_BATCH_SIZE
  }

  lemma CountAtCap(n: nat, cap: nat, fetches: nat)
    requires n >= cap && PORTAL_BATCH_SIZE * fetches >= cap
    requires fetches > 0 ==> PORTAL_BATCH_SIZE * (fetches - 1) < cap
    ensures FetchCount(n, cap) == fetches
  {
  }

  lemma CountBelowCap(n: nat, cap: nat, fetches: nat)
    requires n < cap && fetches > 0 && PORTAL_BATCH_SIZE * (fetches - 1) <= n < PORTAL_BATCH_SIZE * fetches
    ensures FetchCount(n, cap) == fetches
  {
  }

  ghost predicate NoZeroFetch(sizes: seq<nat>) {
    forall i :: 0 <= i < |sizes| ==> 1 <= sizes[i] <= 1000
  }

  lemma OneMoreFetch(sizes: seq<nat>, size: nat)
    requires NoZeroFetch(sizes) && 1 <= size <= PORTAL_BATCH_SIZE
    ensures NoZeroFetch(sizes + [size])
  {
  }

  /**
   * Reads a fresh portal up to the cap: exactly the first min(cap, n) rows, in a known number of
   * fetches none of which is of size zero, truncated exactly if there were at least as many rows as
   * the cap. When one of these rows cannot be converted the call fails and does not commit.
   */
  method ExecuteUserQuery<Raw, R>(portal: Portal<Raw>, described: Described, convert: Raw -> Option<R>, rowCap: Option<nat>)
    returns (r: Result<QueryResult<R>, PortalError>, committed: bool)
    requires portal.Valid() && portal.position == 0 && portal.sizes == []
    modifies portal
    ensures NoZeroFetch(portal.sizes)
    ensures committed <==> r.Ok?
    ensures var cap, n := EffectiveCap(rowCap), |portal.rows|;
            var rows := Converted(convert, portal.rows[..Min(cap, n)]);
            if rows.Some? then
              && r == Ok(QueryResult(if cap == 0 then Described([], []) else described, rows.value, Min(cap, n), n >= cap))
              && |portal.sizes| == FetchCount(n, cap)
              && portal.position == Min(cap, n)
            else
              r == Err(ConversionFailed)
  {
    assert Converted(convert, []) == Some([]);
    assert NoZeroFetch([]);
    hide Converted, FetchCount, NoZeroFetch;
    var cap := EffectiveCap(rowCap);
    var columns := Described([], []);
    var rows: seq<R> := [];
    var isTruncated := false;
    ghost var fetches := 0;
    while true
      invariant portal.Valid() && portal.position == |rows| <= cap
      invariant Converted(convert, portal.rows[..|rows|]) == Some(rows)
      invariant NoZeroFetch(portal.sizes) && |portal.sizes| == fetches
      invariant |rows| == Min(PORTAL_BATCH_SIZE * fetches, cap)
      invariant fetches > 0 ==> PORTAL_BATCH_SIZE * (fetches - 1) < cap
      invariant columns == if fetches == 0 then Described([], []) else described
      decreases cap - |rows|
    {
      if |rows| >= cap {
        CountAtCap(|portal.rows|, cap, fetches);
        isTruncated := true;
        break;
      }
      var fetchSize := Min(cap - |rows|, PORTAL_BATCH_SIZE);
      OneMoreFetch(portal.sizes, fetchSize);
      var batch := portal.Fetch(fetchSize);
      fetches := fetches + 1;
      if columns.names == [] {
        columns := described;
      }
      var start := |rows|;
      assert portal.rows[..portal.position] == portal.rows[..start] + batch;
      ConvertedAppend(convert, portal.rows[..start], batch);
      var converted := ConvertBatch(convert, batch);
      if converted.None? {
        PrefixFails(convert, portal.rows, portal.position, Min(cap, |portal.rows|));
        return Err(ConversionFailed), false;
      }
      rows := rows + converted.value;
      if |batch| < fetchSize {
        CountBelowCap(|portal.rows|, cap, fetches);
        break;
      }
    }
    return Ok(QueryResult(columns, rows, |rows|, isTruncated)), true;
  }

  /** `elements` are the header and the first `k` batches, and the batch after them has a bad row. */
  ghost predicate StreamedUpTo<Raw, R>(raws: seq<Raw>, convert: Raw -> Option<R>, header: StreamElement<R>, k: nat,
                                       elements: seq<StreamElement<R>>)
  {
    && PORTAL_BATCH_SIZE * k <= |raws|
    && Converted(convert, raws[..Min(PORTAL_BATCH_SIZE * k + PORTAL_BATCH_SIZE, |raws|)]).None?
    && Converted(convert, raws[..PORTAL_BATCH_SIZE * k]).Some?
    && elements == [header] + FullBatches(PORTAL_BATCH_SIZE, Converted(convert, raws[..PORTAL_BATCH_SIZE * k]).value)
  }

  lemma EmptyBatches<R>(header: StreamElement<R>)
    ensures [header] + FullBatches<R>(PORTAL_BATCH_SIZE, []) == [header]
  {
  }

  lemma WholeBatches<R>(k: nat, rows: seq<R>)
    requires |rows| == PORTAL_BATCH_SIZE * k
    ensures Batches(PORTAL_BATCH_SIZE, rows) == FullBatches(PORTAL_BATCH_SIZE, rows)
  {
    BatchAppended(PORTAL_BATCH_SIZE, k, rows, []);
    assert rows + [] == rows;
    assert FullBatches(PORTAL_BATCH_SIZE, rows) + [] == FullBatches(PORTAL_BATCH_SIZE, rows);
  }

  datatype Streamed<R> = Streamed(elements: seq<StreamElement<R>>, error: Option<PortalError>)

  /**
   * What a stream of `raws` is, after `fetches` fetches: the header once and first, then the first
   * min(EMERGENCY_MAX, n) rows in non-empty batches, all but the last full. When one of these rows
   * cannot be converted it is the header and the full batches before that row, and an error.
   */
  ghost predicate Delivered<Raw, R>(raws: seq<Raw>, convert: Raw -> Option<R>, header: StreamElement<R>,
                                    s: Streamed<R>, fetches: nat)
  {
    var rows := Converted(convert, raws[..Min(EMERGENCY_MAX, |raws|)]);
    if rows.Some? then
      && s == Streamed([header] + Batches(PORTAL_BATCH_SIZE, rows.value), None)
      && fetches == FetchCount(|raws|, EMERGENCY_MAX)
    else
      s.error == Some(ConversionFailed) && exists k: nat :: StreamedUpTo(raws, convert, header, k, s.elements)
  }

  lemma DeliveredPart<Raw, R>(raws: seq<Raw>, convert: Raw -> Option<R>, header: StreamElement<R>, k: nat,
                              s: Streamed<R>, fetches: nat)
    requires PORTAL_BATCH_SIZE * k < EMERGENCY_MAX
    requires StreamedUpTo(raws, convert, header, k, s.elements) && s.error == Some(ConversionFailed)
    ensures Delivered(raws, convert, header, s, fetches)
  {
    PrefixFails(convert, raws, Min(PORTAL_BATCH_SIZE * k + PORTAL_BATCH_SIZE, |raws|), Min(EMERGENCY_MAX, |raws|));
  }

  /** Where the stream stands before its `k + 1`-st fetch. */
  ghost predicate Streaming<Raw, R>(raws: seq<Raw>, convert: Raw -> Option<R>, header: StreamElement<R>, k: nat,
                                    total: nat, elements: seq<StreamElement<R>>)
  {
    && total == PORTAL_BATCH_SIZE * k && total <= |raws| && total <= EMERGENCY_MAX
    && Converted(convert, raws[..total]).Some?
    && elements == if k == 0 then [] else [header] + FullBatches(PORTAL_BATCH_SIZE, Converted(convert, raws[..total]).value)
  }

  function WithHeader<R>(header: StreamElement<R>, k: nat, elements: seq<StreamElement<R>>): seq<StreamElement<R>> {
    if k == 0 then [header] else elements
  }

  lemma StreamEnds<Raw, R>(raws: seq<Raw>, convert: Raw -> Option<R>, header: StreamElement<R>, k: nat, total: nat,
                           elements: seq<StreamElement<R>>)
    requires Streaming(raws, convert, header, k, total, elements) && total >= EMERGENCY_MAX
    ensures Delivered(raws, convert, header, Streamed(elements, None), k)
  {
    WholeBatches(k, Converted(convert, raws[..total]).value);
  }

  lemma StreamFails<Raw, R>(raws: seq<Raw>, convert: Raw -> Option<R>, header: StreamElement<R>, k: nat, total: nat,
                            elements: seq<StreamElement<R>>, batch: seq<Raw>, fetches: nat)
    requires Streaming(raws, convert, header, k, total, elements) && total < EMERGENCY_MAX
    requires batch == raws[total..Min(total + PORTAL_BATCH_SIZE, |raws|)] && Converted(convert, batch).None?
    ensures Delivered(raws, convert, header, Streamed(WithHeader(header, k, elements), Some(ConversionFailed)), fetches)
  {
    EmptyBatches(header);
    ConvertedAppend(convert, raws[..total], batch);
    assert raws[..total] + batch == raws[..Min(total + PORTAL_BATCH_SIZE, |raws|)];
    assert Converted(convert, raws[..0]) == Some([]);
    DeliveredPart(raws, convert, header, k, Streamed(WithHeader(header, k, elements), Some(ConversionFailed)), fetches);
  }

  lemma StreamGoesOn<Raw, R>(raws: seq<Raw>, convert: Raw -> Option<R>, header: StreamElement<R>, k: nat, total: nat,
                             elements: seq<StreamElement<R>>, batch: seq<Raw>)
    requires Streaming(raws, convert, header, k, total, elements) && total < EMERGENCY_MAX
    requires batch == raws[total..Min(total + PORTAL_BATCH_SIZE, |raws|)] && Converted(convert, batch).Some?
    ensures var sent := WithHeader(header, k, elements) + Partial(Converted(convert, batch).value);
            if |batch| == PORTAL_BATCH_SIZE then
              Streaming(raws, convert, header, k + 1, total + PORTAL_BATCH_SIZE, sent)
            else
              Delivered(raws, convert, header, Streamed(sent, None), k + 1)
  {
    hide FullBatches, Batches, Converted;
    var rows, more := Converted(convert, raws[..total]), Converted(convert, batch);
    ConvertedEmpty(raws, convert);
    EmptyBatches(header);
    ConvertedAppend(convert, raws[..total], batch);
    assert raws[..total] + batch == raws[..Min(total + PORTAL_BATCH_SIZE, |raws|)];
    BatchAppended(PORTAL_BATCH_SIZE, k, rows.value, more.value);
    Associative([header], FullBatches(PORTAL_BATCH_SIZE, rows.value), Partial(more.value));
  }

  lemma ConvertedEmpty<Raw, R>(raws: seq<Raw>, convert: Raw -> Option<R>)
    ensures Converted(convert, raws[..0]) == Some([]) && Converted(convert, []) == Some([])
  {
  }

  /** Streams a fresh portal, without ever asking for a fetch of size zero. */
  method StreamRows<Raw, R>(portal: Portal<Raw>, described: Described, convert: Raw -> Option<R>)
    returns (s: Streamed<R>, committed: bool)
    requires portal.Valid() && portal.position == 0 && portal.sizes == []
    modifies portal
    ensures NoZeroFetch(portal.sizes)
    ensures committed <==> s.error.None?
    ensures Delivered(portal.rows, convert, Header(described.names, described.types), s, |portal.sizes|)
  {
    ConvertedEmpty(portal.rows, convert);
    var header := Header(described.names, described.types);
    var elements: seq<StreamElement<R>> := [];
    var headerSent := false;
    var total := 0;
    ghost var fetches := 0;
    assert Streaming(portal.rows, convert, header, fetches, total, elements);
    assert NoZeroFetch([]);
    hide Converted, FullBatches, Batches, Delivered, Streaming, NoZeroFetch;
    while true
      invariant headerSent || elements == []
      invariant portal.Valid() && portal.position == total <= EMERGENCY_MAX && total == PORTAL_BATCH_SIZE * fetches
      invariant NoZeroFetch(portal.sizes) && |portal.sizes| == fetches && (headerSent <==> fetches > 0)
      invariant Streaming(portal.rows, convert, header, fetches, total, elements)
      decreases EMERGENCY_MAX - total
    {
      if total >= EMERGENCY_MAX {
        StreamEnds(portal.rows, convert, header, fetches, total, elements);
        break;
      }
      var fetchSize := Min(EMERGENCY_MAX - total, PORTAL_BATCH_SIZE);
      OneMoreFetch(portal.sizes, fetchSize);
      var batch := portal.Fetch(fetchSize);
      ghost var before := elements;
      if !headerSent {
        elements := elements + [header];
        headerSent := true;
      }
      assert elements == WithHeader(header, fetches, before);
      var converted := ConvertBatch(convert, batch);
      if converted.None? {
        StreamFails(portal.rows, convert, header, fetches, total, before, batch, |portal.sizes|);
        return Streamed(elements, Some(ConversionFailed)), false;
      }
      StreamGoesOn(portal.rows, convert, header, fetches, total, before, batch);
      if |batch| > 0 {
        total := total + |batch|;
        elements := elements + [Rows(converted.value)];
      }
      fetches := fetches + 1;
      if |batch| < fetchSize {
        break;
      }
    }
    return Streamed(elements, None), true;
  }
}
