/** Rows cut into batches of a fixed size, as the row streams yield them. */
module Batching {
  import opened Text
  import opened Core

  function FullBatches<R>(size: nat, rows: seq<R>): seq<StreamElement<R>>
    requires size > 0
  {
    if |rows| < size then [] else [Rows(rows[..size])] + FullBatches(size, rows[size..])
  }

  function Remainder<R>(size: nat, rows: seq<R>): (r: seq<R>)
    requires size > 0
    ensures |r| < size
  {
    if |rows| < size then rows else Remainder(size, rows[size..])
  }

  function Partial<R>(batch: seq<R>): seq<StreamElement<R>> {
    if batch == [] then [] else [Rows(batch)]
  }

  function Batches<R>(size: nat, rows: seq<R>): seq<StreamElement<R>>
    requires size > 0
  {
    FullBatches(size, rows) + Partial(Remainder(size, rows))
  }

  lemma {:induction false} OneMoreRow<R>(size: nat, rows: seq<R>, row: R)
    requires size > 0
    ensures var batch := Remainder(size, rows) + [row];
            if |batch| == size then
              && FullBatches(size, rows + [row]) == FullBatches(size, rows) + [Rows(batch)]
              && Remainder(size, rows + [row]) == []
            else
              FullBatches(size, rows + [row]) == FullBatches(size, rows) && Remainder(size, rows + [row]) == batch
    decreases |rows|
  {
    if |rows| >= size {
      assert (rows + [row])[size..] == rows[size..] + [row];
      assert (rows + [row])[..size] == rows[..size];
      OneMoreRow(size, rows[size..], row);
    } else if |rows| + 1 == size {
      assert (rows + [row])[..size] == rows + [row];
    }
  }

  lemma TailBatch<R>(size: nat, rows: seq<R>, row: R)
    requires size > 0
    ensures FullBatches(size, rows) + [Rows(Remainder(size, rows) + [row])] == Batches(size, rows + [row])
  {
    OneMoreRow(size, rows, row);
  }

  function RowsIn<R>(elements: seq<StreamElement<R>>): seq<R> {
    if elements == [] then []
    else (if elements[0].Rows? then elements[0].rows else []) + RowsIn(elements[1..])
  }

  /** Batches are non-empty and all but the last are full, and together they are the rows, in order. */
  lemma {:induction false} BatchShape<R>(size: nat, rows: seq<R>)
    requires size > 0
    ensures var bs := Batches(size, rows);
            && (forall i :: 0 <= i < |bs| ==> bs[i].Rows? && 1 <= |bs[i].rows| <= size)
            && (forall i :: 0 <= i < |bs| - 1 ==> |bs[i].rows| == size)
            && RowsIn(bs) == rows
    decreases |rows|
  {
    if |rows| < size {
      if rows != [] {
        assert [Rows(rows)][1..] == [];
      }
    } else {
      BatchShape(size, rows[size..]);
      var rest := Batches(size, rows[size..]);
      assert Batches(size, rows) == [Rows(rows[..size])] + rest;
      assert rows[..size] + rows[size..] == rows;
    }
  }

  lemma {:induction false} RowsInAppend<R>(a: seq<StreamElement<R>>, b: seq<StreamElement<R>>)
    ensures RowsIn(a + b) == RowsIn(a) + RowsIn(b)
  {
    if a == [] {
      assert a + b == b;
    } else {
      assert (a + b)[1..] == a[1..] + b;
      RowsInAppend(a[1..], b);
      Associative(if a[0].Rows? then a[0].rows else [], RowsIn(a[1..]), RowsIn(b));
    }
  }

  lemma RowsBatch<R>(elements: seq<StreamElement<R>>, batch: seq<R>)
    ensures RowsIn(elements + Partial(batch)) == RowsIn(elements) + batch
  {
    RowsInAppend(elements, Partial(batch));
    assert [Rows(batch)][1..] == [];
  }

  lemma {:induction false} FullSizes<R>(size: nat, rows: seq<R>, i: nat)
    requires size > 0 && i < |FullBatches(size, rows)|
    ensures var batch := FullBatches(size, rows)[i]; batch.Rows? && |batch.rows| == size
    decreases |rows|
  {
    if i > 0 {
      FullSizes(size, rows[size..], i - 1);
    }
  }

  /** Full batches are full, and leave out fewer rows than one batch holds. */
  lemma FullShape<R>(size: nat, rows: seq<R>)
    requires size > 0
    ensures var bs := FullBatches(size, rows);
            && (forall i :: 0 <= i < |bs| ==> bs[i].Rows? && |bs[i].rows| == size)
            && RowsIn(bs) + Remainder(size, rows) == rows
  {
    hide FullBatches, RowsIn, Remainder;
    BatchShape(size, rows);
    RowsBatch(FullBatches(size, rows), Remainder(size, rows));
    forall i | 0 <= i < |FullBatches(size, rows)|
      ensures var batch := FullBatches(size, rows)[i]; batch.Rows? && |batch.rows| == size
    {
      FullSizes(size, rows, i);
    }
  }

  /** What a full batch, or a last short one, adds after `k` full batches. */
  lemma {:induction false} BatchAppended<R>(size: nat, k: nat, rows: seq<R>, batch: seq<R>)
    requires size > 0 && |rows| == k * size && |batch| <= size
    ensures |batch| == size ==> FullBatches(size, rows + batch) == FullBatches(size, rows) + [Rows(batch)]
    ensures Batches(size, rows + batch) == FullBatches(size, rows) + Partial(batch)
    decreases k
  {
    if k == 0 {
      assert rows + batch == batch;
      if |batch| == size {
        assert batch[..size] == batch && batch[size..] == [];
        assert FullBatches(size, batch) == [Rows(batch)] && Remainder(size, batch) == [];
        assert Batches(size, batch) == [Rows(batch)];
      }
    } else {
      assert k * size == size + (k - 1) * size && (k - 1) * size >= 0;
      assert (rows + batch)[..size] == rows[..size] && (rows + batch)[size..] == rows[size..] + batch;
      BatchAppended(size, k - 1, rows[size..], batch);
      Associative([Rows(rows[..size])], FullBatches(size, rows[size..]), Partial(batch));
      Associative([Rows(rows[..size])], FullBatches(size, rows[size..] + batch), Partial(Remainder(size, rows[size..] + batch)));
    }
  }
}
