/**
 * Strided reading: a feeder opened over `N` rows with offset `first` and
 * stride `step` reads, on its k-th `read_vars` (counting from 0), the row
 * `(first + k * step) mod N`.  Consumers that share a stride and have
 * distinct offsets below it read disjoint residue classes of the rows.
 */
module Stride {
  import opened Wrappers
  import opened Cursor
  import opened Feeders

  /** Every row is a non-empty dict, so a stored row is never mistaken for "no row yet". */
  predicate AllTruthy(rows: seq<Row>)
  {
    forall i :: 0 <= i < |rows| ==> rows[i] != map[]
  }

  /** The position, before wrapping, of a consumer's k-th read: `k` strides past `first`. */
  function ReadIndex(first: nat, step: nat, k: nat): (i: nat)
  {
    if k == 0 then first else ReadIndex(first, step, k - 1) + step
  }

  /** The k-th read position is `first + k * step`. */
  lemma {:induction false} ReadIndexValue(first: nat, step: nat, k: nat)
    ensures ReadIndex(first, step, k) == first + k * step
  {
    if k > 0 {
      ReadIndexValue(first, step, k - 1);
      assert k * step == (k - 1) * step + step;
    }
  }

  /** The feeder's `csv` and reader after `open` followed by `k` calls of `read_vars`. */
  function ReadsFromOpen(rows: seq<Row>, first: int, step: int, k: nat): (o: ReadOutcome)
  {
    if k == 0 then ReadOutcome(Returned, None, Some(Reader(0, true)))
    else
      var prev := ReadsFromOpen(rows, first, step, k - 1);
      ReadVarsOn(rows, prev.csv, prev.reader, Some(first), Some(step))
  }

  /** The state after a read that stored the row at (unwrapped) position `m`. */
  function StoredAt(rows: seq<Row>, m: nat): (o: ReadOutcome)
    requires |rows| > 0
  {
    ReadOutcome(Returned, Some(rows[m % |rows|]), Some(Reader(m + 1, true)))
  }

  /** The k-th read after `open` over a cycle of non-empty rows stores row `(first + k * step) mod N`. */
  lemma {:induction false} KthRead(rows: seq<Row>, first: nat, step: nat, k: nat)
    requires |rows| > 0 && AllTruthy(rows) && first < MaxSize && 1 <= step <= MaxSize
    ensures ReadsFromOpen(rows, first, step, k + 1) == StoredAt(rows, ReadIndex(first, step, k))
  {
    if k == 0 {
      FirstRead(rows, first, step);
    } else {
      KthRead(rows, first, step, k - 1);
      ReadAfter(rows, first, step, k);
    }
  }

  /** The same in closed form: the k-th read stores row `(first + k * step) mod N`. */
  lemma KthReadRow(rows: seq<Row>, first: nat, step: nat, k: nat)
    requires |rows| > 0 && AllTruthy(rows) && first < MaxSize && 1 <= step <= MaxSize
    ensures ReadsFromOpen(rows, first, step, k + 1) == StoredAt(rows, first + k * step)
  {
    KthRead(rows, first, step, k);
    ReadIndexValue(first, step, k);
  }

  /** A read after the (k-1)-th stored read takes the row one stride further on. */
  lemma ReadAfter(rows: seq<Row>, first: nat, step: nat, k: nat)
    requires |rows| > 0 && AllTruthy(rows) && first < MaxSize && 1 <= step <= MaxSize && k >= 1
    requires ReadsFromOpen(rows, first, step, k) == StoredAt(rows, ReadIndex(first, step, k - 1))
    ensures ReadsFromOpen(rows, first, step, k + 1) == StoredAt(rows, ReadIndex(first, step, k))
  {
    var m := ReadIndex(first, step, k - 1);
    LaterRead(rows, m, first, step);
    assert ReadIndex(first, step, k) == m + step;
  }

  /** The first read after `open` skips `first` rows and stores the next one. */
  lemma FirstRead(rows: seq<Row>, first: nat, step: int)
    requires |rows| > 0 && first < MaxSize
    ensures ReadsFromOpen(rows, first, step, 1) == StoredAt(rows, first)
  {
    assert ReadsFromOpen(rows, first, step, 0) == ReadOutcome(Returned, None, Some(Reader(0, true)));
  }

  /** A read after a stored row at position `m` takes the row `step` positions on. */
  lemma LaterRead(rows: seq<Row>, m: nat, first: int, step: nat)
    requires |rows| > 0 && AllTruthy(rows) && 1 <= step <= MaxSize
    ensures ReadVarsOn(rows, StoredAt(rows, m).csv, StoredAt(rows, m).reader, Some(first), Some(step)) ==
      StoredAt(rows, m + step)
  {
    assert Truthy(Some(rows[m % |rows|]));
  }

  /** Consumers sharing a stride `n` with offsets below `n` never meet at the same position, and every position belongs to one of them. */
  lemma ResidueClassesPartition(n: nat)
    requires n > 0
    ensures forall f1: nat, k1: nat, f2: nat, k2: nat ::
      f1 < n && f2 < n && ReadIndex(f1, n, k1) == ReadIndex(f2, n, k2) ==> f1 == f2 && k1 == k2
    ensures forall i: nat :: ReadIndex(i % n, n, i / n) == i
  {
    forall f1: nat, k1: nat, f2: nat, k2: nat | f1 < n && f2 < n && ReadIndex(f1, n, k1) == ReadIndex(f2, n, k2)
      ensures f1 == f2 && k1 == k2
    {
      SameResidue(n, f1, k1, f2, k2);
    }
    forall i: nat
      ensures ReadIndex(i % n, n, i / n) == i
    {
      ReadIndexValue(i % n, n, i / n);
    }
  }

  lemma SameResidue(n: nat, f1: nat, k1: nat, f2: nat, k2: nat)
    requires n > 0 && f1 < n && f2 < n && ReadIndex(f1, n, k1) == ReadIndex(f2, n, k2)
    ensures f1 == f2 && k1 == k2
  {
    ReadIndexValue(f1, n, k1);
    ReadIndexValue(f2, n, k2);
  }

  /** Stated apart: the modulus fact inline makes the caller's proof run out of resources. */
  lemma BelowModulus(i: nat, m: nat)
    requires i < m
    ensures i % m == i
  {
  }

  /**
   * Two consumers with stride `n` and distinct offsets `f1`, `f2` below `n`
   * store different rows on any reads taken before either wraps around.
   */
  lemma {:induction false} ConsumersReadDistinctRows(rows: seq<Row>, n: nat, f1: nat, f2: nat, k1: nat, k2: nat)
    requires |rows| > 0 && AllTruthy(rows) && 1 <= n <= MaxSize && f1 < n && f2 < n && f1 != f2
    requires ReadIndex(f1, n, k1) < |rows| && ReadIndex(f2, n, k2) < |rows|
    ensures ReadsFromOpen(rows, f1, n, k1 + 1).csv == Some(rows[ReadIndex(f1, n, k1)])
    ensures ReadsFromOpen(rows, f2, n, k2 + 1).csv == Some(rows[ReadIndex(f2, n, k2)])
    ensures ReadIndex(f1, n, k1) != ReadIndex(f2, n, k2)
  {
    var i1, i2 := ReadIndex(f1, n, k1), ReadIndex(f2, n, k2);
    KthRead(rows, f1, n, k1);
    BelowModulus(i1, |rows|);
    KthRead(rows, f2, n, k2);
    BelowModulus(i2, |rows|);
    if i1 == i2 {
      SameResidue(n, f1, k1, f2, k2);
    }
  }

  /**
   * Four rows read by two consumers with stride 2: consumer 0 stores rows
   * 0 and 2, consumer 1 rows 1 and 3, and a third read wraps to the start
   * of its residue class instead of stopping.
   */
  lemma {:induction false} FourRowsTwoConsumers(rows: seq<Row>)
    requires |rows| == 4 && AllTruthy(rows)
    ensures ReadsFromOpen(rows, 0, 2, 1).csv == Some(rows[0])
    ensures ReadsFromOpen(rows, 0, 2, 2).csv == Some(rows[2])
    ensures ReadsFromOpen(rows, 0, 2, 3) == ReadOutcome(Returned, Some(rows[0]), Some(Reader(5, true)))
    ensures ReadsFromOpen(rows, 1, 2, 1).csv == Some(rows[1])
    ensures ReadsFromOpen(rows, 1, 2, 2).csv == Some(rows[3])
    ensures ReadsFromOpen(rows, 1, 2, 3) == ReadOutcome(Returned, Some(rows[1]), Some(Reader(6, true)))
  {
    FourRowsOneConsumer(rows, 0);
    FourRowsOneConsumer(rows, 1);
  }

  /** Over four rows with stride 2, the consumer with offset `f` reads rows `f` and `f + 2`, then wraps to `f`. */
  lemma FourRowsOneConsumer(rows: seq<Row>, f: nat)
    requires |rows| == 4 && AllTruthy(rows) && f < 2
    ensures ReadsFromOpen(rows, f, 2, 1).csv == Some(rows[f])
    ensures ReadsFromOpen(rows, f, 2, 2).csv == Some(rows[f + 2])
    ensures ReadsFromOpen(rows, f, 2, 3) == ReadOutcome(Returned, Some(rows[f]), Some(Reader(f + 5, true)))
  {
    assert f < MaxSize && 2 <= MaxSize;
    KthRead(rows, f, 2, 0);
    KthRead(rows, f, 2, 1);
    KthRead(rows, f, 2, 2);
  }

  /**
   * The strided-read experiment: twenty reads with offset 0 and stride 2
   * over `cycle(DictReader(...))`, each row recorded as it is read.  Over an
   * empty file the first read raises StopIteration.
   */
  method CsvStrideExperiment(rows: seq<Row>) returns (seen: seq<Row>, signal: Signal)
    ensures |rows| == 0 ==> seen == [] && signal == StopIteration
    ensures |rows| > 0 && AllTruthy(rows) ==>
      signal == Returned && |seen| == 20 && forall i :: 0 <= i < 20 ==> seen[i] == rows[(2 * i) % |rows|]
  {
    var d: Option<Row> := None;
    var first, step := 0, 2;
    var reader := Reader(0, true);
    seen := [];
    var i := 0;
    while i < 20
      invariant 0 <= i <= 20 && |seen| == i
      invariant |rows| > 0 && AllTruthy(rows) ==> reader == Reader(if i == 0 then 0 else 2 * i - 1, true)
      invariant |rows| > 0 && AllTruthy(rows) ==> forall j :: 0 <= j < i ==> seen[j] == rows[(2 * j) % |rows|]
      invariant i == 0 ==> d == None
      invariant i > 0 ==> d == Some(seen[i - 1])
      invariant |rows| == 0 ==> i == 0
    {
      var p;
      if !Truthy(d) {
        p := ISliceNext(rows, reader, first);
      } else {
        p := ISliceNext(rows, reader, step - 1);
      }
      if p.item.None? {
        return seen, StopIteration;
      }
      d, reader := p.item, p.after;
      seen := seen + [p.item.value];
      i := i + 1;
    }
    signal := Returned;
  }
}
