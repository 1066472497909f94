/**
 * The iterators a CSV feeder reads its rows from.
 *
 * The CSV file itself is abstracted to the sequence of rows that
 * `DictReader` would produce from it.  A reader is a cursor over those rows:
 * either `cycle(DictReader(...))`, which repeats the rows for ever once it
 * has seen them all, or a plain `DictReader`, which runs out after the last
 * row.
 */
module Cursor {
  import opened Wrappers

  /** One data row: column name to cell text. */
  type Row = map<string, string>

  /** `pos` counts the items already taken from the iterator. */
  datatype Reader = Reader(pos: nat, cyclic: bool)

  /** Whether `next` on the reader raises StopIteration. */
  predicate Exhausted(rows: seq<Row>, r: Reader)
  {
    if r.cyclic then |rows| == 0 else r.pos >= |rows|
  }

  /** What one pull from a reader gives: the item (None for StopIteration) and the reader afterwards. */
  datatype Pulled = Pulled(item: Option<Row>, after: Reader)

  /** `next(reader)`. */
  function Next(rows: seq<Row>, r: Reader): (p: Pulled)
    ensures p.item.None? <==> Exhausted(rows, r)
    ensures p.item.None? ==> p.after == r
    ensures p.item.Some? ==> p.item.value in rows && p.after == Reader(r.pos + 1, r.cyclic)
    ensures p.item.Some? && !r.cyclic ==> p.item.value == rows[r.pos]
  {
    if Exhausted(rows, r) then Pulled(None, r)
    else if r.cyclic then Pulled(Some(rows[r.pos % |rows|]), Reader(r.pos + 1, true))
    else Pulled(Some(rows[r.pos]), Reader(r.pos + 1, false))
  }

  /**
   * `next(islice(reader, skip, skip + 1))`: discard `skip` items, then take
   * one.  Every item pulled is consumed, including those pulled before the
   * reader ran out.
   */
  function ISliceNext(rows: seq<Row>, r: Reader, skip: nat): (p: Pulled)
    ensures r.cyclic && |rows| > 0 ==>
      p == Pulled(Some(rows[(r.pos + skip) % |rows|]), Reader(r.pos + skip + 1, true))
    ensures r.cyclic && |rows| == 0 ==> p == Pulled(None, r)
    ensures !r.cyclic && r.pos + skip < |rows| ==>
      p == Pulled(Some(rows[r.pos + skip]), Reader(r.pos + skip + 1, false))
    ensures !r.cyclic && r.pos + skip >= |rows| ==>
      p.item == None && p.after == Reader(if r.pos < |rows| then |rows| else r.pos, false)
    decreases skip
  {
    var q := Next(rows, r);
    if q.item.None? || skip == 0 then q else ISliceNext(rows, q.after, skip - 1)
  }

  /** A cyclic reader over non-empty rows yields, at every position, what the first pass yields at that position modulo the row count. */
  lemma CycleRepeatsFirstPass(rows: seq<Row>, pos: nat)
    requires |rows| > 0
    ensures Next(rows, Reader(pos, true)).item == Next(rows, Reader(pos % |rows|, false)).item
  {
  }
}
