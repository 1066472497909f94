/**
 * Data feeders: the class-wide feeder registry and the CSV feeder's cursor
 * machine (open, reopen, close, step, read_vars, get_vars, get) together
 * with its per-thread cache.
 *
 * The CSV file is the sequence `rows` of its data rows; the file handle is
 * reduced to whether it is absent, open or closed.  Python exceptions are
 * the `Signal` an operation ends with.
 */
module Feeders {
  import opened Wrappers
  import opened Cursor

  /** How an operation ends: it returns, or it raises one of these. */
  datatype Signal =
    | Returned
    | NormalShutdown   // the run's normal-stop signal, not an error
    | StopIteration
    | TypeError
    | ValueError
    | OSError          // an operating-system call failed (a negative seek on a binary file)
    | RecursionError

  /** The `fds` field: never opened (None), an open file, or a file object that has been closed. */
  datatype Fds = NoFile | OpenFile | ClosedFile

  /** Python truthiness of the `csv` field: None and the empty dict are falsy. */
  predicate Truthy(row: Option<Row>)
  {
    row.Some? && row.value != map[]
  }

  // ---------------------------------------------------------------------
  // The feeder registry

  /** The class-level list `Feeder.instances`, made an explicit object. */
  class Registry {
    var instances: seq<Feeder>
    /** The instances whose `step` was called, in call order. */
    ghost var stepLog: seq<Feeder>

    ghost predicate Valid()
      reads this
    {
      forall i, j :: 0 <= i < j < |instances| ==> instances[i] != instances[j]
    }

    constructor ()
      ensures Valid() && instances == [] && stepLog == []
    {
      instances := [];
      stepLog := [];
    }

    /** `step_all_feeders`: call `step` once on every registered feeder, in registration order. */
    method StepAllFeeders()
      requires Valid()
      modifies this, instances
      ensures Valid() && instances == old(instances)
      ensures stepLog == old(stepLog) + instances
      ensures forall f :: f in instances ==> f.stepCount == old(f.stepCount) + 1
    {
      var i := 0;
      while i < |instances|
        invariant 0 <= i <= |instances| && instances == old(instances)
        invariant stepLog == old(stepLog) + instances[..i]
        invariant forall j :: 0 <= j < i ==> instances[j].stepCount == old(instances[j].stepCount) + 1
        invariant forall j :: i <= j < |instances| ==> instances[j].stepCount == old(instances[j].stepCount)
      {
        instances[i].Step();
        stepLog := stepLog + [instances[i]];
        i := i + 1;
      }
    }
  }

  /** The abstract base feeder. */
  class Feeder {
    const varsDict: map<string, string>
    /** How many times `step` has been called on this feeder. */
    ghost var stepCount: nat

    /** `Feeder(vars_dict, register=True)`: registering appends exactly this feeder to the registry. */
    constructor (varsDict: map<string, string>, registry: Registry, register: bool := true)
      requires registry.Valid()
      modifies registry
      ensures registry.Valid() && registry.stepLog == old(registry.stepLog)
      ensures registry.instances == old(registry.instances) + (if register then [this] else [])
      ensures this.varsDict == varsDict && stepCount == 0
    {
      this.varsDict := varsDict;
      stepCount := 0;
      new;
      if register {
        registry.instances := registry.instances + [this];
      }
    }

    /** The abstract `step`; the base class does nothing but is called. */
    method Step()
      modifies this
      ensures stepCount == old(stepCount) + 1
    {
      stepCount := stepCount + 1;
    }
  }

  // ---------------------------------------------------------------------
  // Specifications of the CSV feeder's operations

  /** `sys.maxsize` on a 64-bit build: the largest islice index, and the largest file offset. */
  const MaxSize: int := 0x7fff_ffff_ffff_ffff

  /** What `read_vars` leaves behind: how it ended, the `csv` field and the reader. */
  datatype ReadOutcome = ReadOutcome(signal: Signal, csv: Option<Row>, reader: Option<Reader>)

  /**
   * `read_vars`: with a falsy `csv` it takes the row `first` items ahead;
   * otherwise it skips `step - 1` items and takes the next.  A missing
   * offset or reader is a TypeError; an islice start or stop outside
   * `0 .. sys.maxsize` is a ValueError; a reader that runs out is a plain
   * StopIteration that leaves `csv` alone.
   */
  function ReadVarsOn(rows: seq<Row>, csv: Option<Row>, reader: Option<Reader>,
                      first: Option<int>, stride: Option<int>): (o: ReadOutcome)
    ensures o.signal in {Returned, StopIteration, TypeError, ValueError}
    ensures o.signal == Returned ==> o.csv.Some? && o.csv.value in rows
    ensures o.signal != Returned ==> o.csv == csv
    ensures o.signal == TypeError || o.signal == ValueError ==> o.reader == reader
    ensures (if Truthy(csv) then stride else first).None? ==> o.signal == TypeError
    ensures reader.None? ==> o.signal in {TypeError, ValueError}
    ensures !Truthy(csv) && first.Some? ==> (o.signal == ValueError <==> first.value < 0 || first.value >= MaxSize)
    ensures Truthy(csv) && stride.Some? ==> (o.signal == ValueError <==> stride.value < 1 || stride.value > MaxSize)
    ensures reader.Some? && reader.value.cyclic && |rows| > 0 && !Truthy(csv) && first.Some? &&
            0 <= first.value < MaxSize ==>
      o == ReadOutcome(Returned, Some(rows[(reader.value.pos + first.value) % |rows|]),
                       Some(Reader(reader.value.pos + first.value + 1, true)))
    ensures reader.Some? && reader.value.cyclic && |rows| > 0 && Truthy(csv) && stride.Some? &&
            1 <= stride.value <= MaxSize ==>
      o == ReadOutcome(Returned, Some(rows[(reader.value.pos + stride.value - 1) % |rows|]),
                       Some(Reader(reader.value.pos + stride.value, true)))
  {
    var skip := if Truthy(csv) then stride else first;
    var offset := if Truthy(csv) then -1 else 0;
    if skip.None? then ReadOutcome(TypeError, csv, reader)
    // islice's start is skip + offset and its stop one more
    else if skip.value + offset < 0 || skip.value + offset + 1 > MaxSize then ReadOutcome(ValueError, csv, reader)
    else if reader.None? then ReadOutcome(TypeError, csv, reader)
    else
      var p := ISliceNext(rows, reader.value, skip.value + offset);
      if p.item.None? then ReadOutcome(StopIteration, csv, Some(p.after))
      else ReadOutcome(Returned, p.item, Some(p.after))
  }

  /** What `step` leaves behind: how it ended and the reader. */
  datatype StepResult = StepResult(signal: Signal, reader: Option<Reader>)

  /**
   * `step`, with its retry calling the step method again as intended: pull
   * one row and drop it; on a reader that has run out, raise the normal-stop
   * signal unless looping, else rewind with `reopen` and pull again.
   */
  function StepOn(rows: seq<Row>, loop: bool, reader: Option<Reader>, fds: Fds): (r: StepResult)
    ensures r.signal == NormalShutdown <==> reader.Some? && !loop && Exhausted(rows, reader.value)
    ensures reader.Some? && !Exhausted(rows, reader.value) ==>
      r == StepResult(Returned, Some(Reader(reader.value.pos + 1, reader.value.cyclic)))
    ensures reader.Some? && Exhausted(rows, reader.value) && loop && fds.OpenFile? && |rows| > 0 ==>
      r == StepResult(Returned, Some(Reader(1, false)))
    ensures r.signal == RecursionError <==>
      reader.Some? && Exhausted(rows, reader.value) && loop && (fds.NoFile? || (fds.OpenFile? && |rows| == 0))
    ensures r.signal in {Returned, NormalShutdown, TypeError, ValueError, RecursionError}
  {
    if reader.None? then StepResult(TypeError, reader)
    else
      var p := Next(rows, reader.value);
      if p.item.Some? then StepResult(Returned, Some(p.after))
      else if !loop then StepResult(NormalShutdown, reader)
      else match fds
        // reopen does nothing, so every retry meets the same end
        case NoFile => StepResult(RecursionError, reader)
        // reopen seeks a closed file
        case ClosedFile => StepResult(ValueError, reader)
        case OpenFile =>
          var again := Next(rows, Reader(0, false));
          if again.item.Some? then StepResult(Returned, Some(again.after))
          else StepResult(RecursionError, Some(Reader(0, false)))
  }

  /**
   * The body of `step` as written, entered as `CSVFeeder.step(f)`: the retry
   * `self.step()` looks up the instance attribute `step`, which the
   * constructor sets to None (and `per_thread` to an integer), so calling it
   * raises TypeError after the rewind.
   */
  function StepAsWritten(rows: seq<Row>, loop: bool, reader: Option<Reader>, fds: Fds): (r: StepResult)
    ensures r.signal != RecursionError
    ensures reader.Some? && Exhausted(rows, reader.value) && loop ==> r.signal in {TypeError, ValueError}
  {
    if reader.None? then StepResult(TypeError, reader)
    else
      var p := Next(rows, reader.value);
      if p.item.Some? then StepResult(Returned, Some(p.after))
      else if !loop then StepResult(NormalShutdown, reader)
      else match fds
        case NoFile => StepResult(TypeError, reader)
        case ClosedFile => StepResult(ValueError, reader)
        case OpenFile => StepResult(TypeError, Some(Reader(0, false)))
  }

  /** The two readings of `step` differ exactly where the retry is reached. */
  lemma StepRetryDiffers(rows: seq<Row>, loop: bool, reader: Option<Reader>, fds: Fds)
    ensures StepAsWritten(rows, loop, reader, fds) != StepOn(rows, loop, reader, fds) <==>
      reader.Some? && Exhausted(rows, reader.value) && loop && !fds.ClosedFile?
  {
  }

  /**
   * The call `f.step()` as written: the instance attribute `step` (the
   * stride, None or an integer) hides the method, so the call raises
   * TypeError before any row is pulled and leaves the reader as it was.
   * `stride` is the attribute the call finds; it is a parameter only to
   * show that the outcome does not depend on its value.
   */
  function StepByInstanceCall(stride: Option<int>, reader: Option<Reader>): (r: StepResult)
  {
    StepResult(TypeError, reader)
  }

  /** The instance call agrees with the intended `step` only where both fail for want of a reader. */
  lemma StepByInstanceCallDiffers(rows: seq<Row>, loop: bool, stride: Option<int>, reader: Option<Reader>, fds: Fds)
    ensures StepByInstanceCall(stride, reader).signal == TypeError
    ensures StepByInstanceCall(stride, reader).reader == reader
    ensures StepByInstanceCall(stride, reader) == StepOn(rows, loop, reader, fds) <==> reader.None?
  {
  }

  /** A looping feeder whose plain reader has passed its only row: the source raises TypeError where a rewind was meant. */
  lemma StepRetryCounterexample()
    ensures StepAsWritten([map["id" := "1"]], true, Some(Reader(1, false)), OpenFile).signal == TypeError
    ensures StepOn([map["id" := "1"]], true, Some(Reader(1, false)), OpenFile) == StepResult(Returned, Some(Reader(1, false)))
  {
  }

  /** Python's floored quotient `n // size`. */
  function PyDiv(n: int, size: int): (q: int)
    requires size != 0
  {
    if size < 0 && n % size != 0 then n / size - 1 else n / size
  }

  /** `n % size` with Python's floored remainder, which takes the sign of the divisor. */
  function PyMod(n: int, size: int): (pos: int)
    requires size != 0
    ensures size > 0 ==> 0 <= pos < size
    ensures size < 0 ==> size < pos <= 0
    ensures n == PyDiv(n, size) * size + pos
  {
    var m := n % size;
    if size < 0 && m != 0 then
      assert (n / size - 1) * size == (n / size) * size - size;
      m + size
    else m
  }

  // ---------------------------------------------------------------------
  // The CSV feeder

  class CSVFeeder {
    /** The data rows of the file the feeder was created for. */
    const rows: seq<Row>
    const loop: bool
    /** Set by the constructor and never assigned again. */
    const size: Option<int>
    var first: Option<int>
    /** The Python attribute `step` (the stride between reads). */
    var stride: Option<int>
    var fds: Fds
    var reader: Option<Reader>
    var csv: Option<Row>

    /** A reader exists only over an open file. */
    ghost predicate Valid()
      reads this
    {
      reader.Some? ==> fds.OpenFile?
    }

    constructor (rows: seq<Row>, loop: bool := true, autoOpen: bool := true)
      ensures Valid() && this.rows == rows && this.loop == loop && size == None
      ensures first == None && stride == None && csv == None
      ensures autoOpen ==> fds == OpenFile && reader == Some(Reader(0, true))
      ensures !autoOpen ==> fds == NoFile && reader == None
    {
      this.rows := rows;
      this.loop := loop;
      size := None;
      first, stride := None, None;
      fds, reader, csv := NoFile, None, None;
      new;
      if autoOpen {
        Open();
      }
    }

    /** `open`: a fresh file handle read through a cycle, and no current row. */
    method Open()
      modifies this
      ensures Valid() && fds == OpenFile && reader == Some(Reader(0, true)) && csv == None
      ensures first == old(first) && stride == old(stride)
    {
      fds := OpenFile;
      reader := Some(Reader(0, true));
      csv := None;
    }

    /** `reopen`: over an open file, a plain reader from the first row; nothing without a file; ValueError on a closed one. */
    method Reopen() returns (signal: Signal)
      requires Valid()
      modifies this
      ensures Valid() && fds == old(fds) && csv == old(csv) && first == old(first) && stride == old(stride)
      ensures old(fds).OpenFile? ==> signal == Returned && reader == Some(Reader(0, false))
      ensures old(fds).NoFile? ==> signal == Returned && reader == old(reader)
      ensures old(fds).ClosedFile? ==> signal == ValueError && reader == old(reader)
    {
      match fds
      case NoFile => signal := Returned;
      case ClosedFile => signal := ValueError;
      case OpenFile =>
        reader := Some(Reader(0, false));
        signal := Returned;
    }

    /** `close`: closes a file if there is one; the reader is gone either way. */
    method Close()
      requires Valid()
      modifies this
      ensures Valid() && reader == None
      ensures fds == (if old(fds).NoFile? then NoFile else ClosedFile)
      ensures csv == old(csv) && first == old(first) && stride == old(stride)
    {
      if fds != NoFile {
        fds := ClosedFile;
      }
      reader := None;
    }

    /** `step`, with the retry reaching the step method (see StepAsWritten for what the source does). */
    method Step() returns (signal: Signal)
      requires Valid()
      modifies this
      ensures Valid() && StepResult(signal, reader) == StepOn(rows, loop, old(reader), old(fds))
      ensures fds == old(fds) && csv == old(csv) && first == old(first) && stride == old(stride)
      decreases if reader.Some? && Exhausted(rows, reader.value) then 1 else 0
    {
      if reader.None? {
        return TypeError;
      }
      var p := Next(rows, reader.value);
      if p.item.Some? {
        reader := Some(p.after);
        return Returned;
      }
      if !loop {
        return NormalShutdown;
      }
      var _ := Reopen();
      if |rows| == 0 {
        return RecursionError;
      }
      signal := Step();
    }

    /** `read_vars`: the first read takes the row `first` ahead, each later one the row `step` ahead. */
    method ReadVars() returns (signal: Signal)
      requires Valid()
      modifies this
      ensures Valid() && ReadOutcome(signal, csv, reader) == ReadVarsOn(rows, old(csv), old(reader), first, stride)
      ensures fds == old(fds) && first == old(first) && stride == old(stride)
    {
      var skip: Option<int>, start: int;
      if !Truthy(csv) {
        skip := first;
        start := if first.Some? then first.value else 0;
      } else {
        skip := stride;
        start := if stride.Some? then stride.value - 1 else 0;
      }
      if skip.None? {
        return TypeError;
      }
      if start < 0 || start + 1 > MaxSize {
        return ValueError;
      }
      if reader.None? {
        return TypeError;
      }
      var p := ISliceNext(rows, reader.value, start);
      reader := Some(p.after);
      if p.item.None? {
        return StopIteration;
      }
      csv := p.item;
      signal := Returned;
    }

    /** `get_vars`: the row the last successful read stored. */
    method GetVars() returns (row: Option<Row>)
      ensures row == csv
    {
      row := csv;
    }

    /**
     * `get(n)`: opens the file if there is none, then raises StopIteration
     * unless `size` is a non-zero number; otherwise seeks to `n % size` and
     * reads a line from there, of which only the seek offset is modelled.
     * Seeking a closed file raises ValueError, and so does an offset that
     * does not fit a signed 64-bit file offset; a negative seek on the
     * binary handle fails in the operating system (OSError).
     */
    method Get(n: int) returns (signal: Signal, offset: Option<int>)
      requires Valid()
      modifies this
      ensures Valid() && first == old(first) && stride == old(stride)
      ensures old(fds).NoFile? ==> fds == OpenFile && reader == Some(Reader(0, true)) && csv == None
      ensures !old(fds).NoFile? ==> fds == old(fds) && reader == old(reader) && csv == old(csv)
      ensures size.None? || size == Some(0) ==> signal == StopIteration && offset == None
      ensures signal == Returned <==>
        size.Some? && size.value != 0 && !old(fds).ClosedFile? && 0 <= PyMod(n, size.value) <= MaxSize
      ensures size.Some? && size.value != 0 && old(fds).ClosedFile? ==> signal == ValueError && offset == None
      ensures size.Some? && size.value != 0 && !old(fds).ClosedFile? &&
              (PyMod(n, size.value) > MaxSize || PyMod(n, size.value) < -MaxSize - 1) ==>
        signal == ValueError && offset == None
      ensures size.Some? && size.value != 0 && !old(fds).ClosedFile? && -MaxSize - 1 <= PyMod(n, size.value) < 0 ==>
        signal == OSError && offset == None
      ensures signal == Returned ==> offset == Some(PyMod(n, size.value)) && 0 <= offset.value
      ensures signal == Returned && size.value > 0 ==> offset.value < size.value
    {
      if fds.NoFile? {
        Open();
      }
      if size.None? || size.value == 0 {
        return StopIteration, None;
      }
      if fds.ClosedFile? {
        return ValueError, None;
      }
      var pos := PyMod(n, size.value);
      if pos > MaxSize || pos < -MaxSize - 1 {
        return ValueError, None;
      }
      if pos < 0 {
        return OSError, None;
      }
      signal, offset := Returned, Some(pos);
    }
  }

  // ---------------------------------------------------------------------
  // Per-thread feeder

  /** One thread's storage slot for its feeder. */
  class FeederStorage {
    var instance: CSVFeeder?

    constructor ()
      ensures instance == null
    {
      instance := null;
    }
  }

  /**
   * `per_thread`: the first call in a thread creates an opened, looping
   * feeder whose stride and offset are the thread's `(count, index)` pair
   * and caches it; later calls return the cached feeder.
   */
  method PerThread(storage: FeederStorage, rows: seq<Row>, indexes: (int, int)) returns (feeder: CSVFeeder)
    modifies storage
    ensures storage.instance == feeder
    ensures old(storage.instance) != null ==> feeder == old(storage.instance)
    ensures old(storage.instance) == null ==>
      fresh(feeder) && feeder.Valid() && feeder.rows == rows && feeder.loop &&
      feeder.stride == Some(indexes.0) && feeder.first == Some(indexes.1) &&
      feeder.fds == OpenFile && feeder.reader == Some(Reader(0, true)) && feeder.csv == None &&
      feeder.size == None
  {
    if storage.instance != null {
      return storage.instance;
    }
    feeder := new CSVFeeder(rows);
    feeder.stride, feeder.first := Some(indexes.0), Some(indexes.1);
    storage.instance := feeder;
  }

  /** Two lookups in the same thread give the same feeder. */
  method PerThreadTwice(storage: FeederStorage, rows: seq<Row>, indexes: (int, int))
    returns (a: CSVFeeder, b: CSVFeeder)
    modifies storage
    ensures a == b && storage.instance == a
  {
    a := PerThread(storage, rows, indexes);
    b := PerThread(storage, rows, indexes);
  }
}
