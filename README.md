# Apiritif data feeders and date-pattern translation in Dafny

Apiritif is a Python test-automation layer for load generation. Its feeders hand
one row of a CSV file to each read, so that concurrent virtual users work
through test data. This project models two parts of it.

* **Feeders** (`apiritif/feeders.py`). The model covers the class-wide feeder
  registry (`Feeder.instances` and `step_all_feeders`) and the CSV feeder's
  cursor machine: `open`, `reopen`, `close`, `step`, `read_vars`, `get_vars`
  and `get`. It also covers the per-thread feeder cache (`per_thread`).
  * The CSV file is the sequence of rows `DictReader` would yield.
  * A reader is a cursor: `cycle(DictReader(...))`, which repeats the rows
    for ever, or a plain `DictReader`, which runs out after the last row.
  * `next(islice(reader, s, s + 1))` consumes `s` items and then takes one.
  * Python's exceptions are the `Signal` an operation ends with.
  * The state-changing operations are methods of the classes `Registry`,
    `Feeder`, `CSVFeeder` and `FeederStorage`. Each method is proved against
    a specification function (`StepOn`, `ReadVarsOn`) or states its new
    state outright.
* **Date patterns** (`apiritif/utilities.py`). `SimpleDateFormat` turns a
  Java-style pattern such as `yyyy-MM-dd` into a `strftime` format such as
  `%Y-%m-%d`. The model covers the `_replacer` chain and the regex
  substitution of `format_datetime`, up to but not including the
  `strftime` call. The regular expression `(y+|Y+|M+|…)` is modelled as a
  tokenizer into maximal single-letter runs and other characters.

Modules: `Wrappers` (`Option`), `Cursor` (readers), `Feeders` (registry,
CSV feeder, per-thread cache), `Stride` (what a sequence of `read_vars`
calls reads), `DateFormat` (pattern translation).

Quirks of the code that the model keeps:

* `CSVFeeder` does not derive from `Feeder`. A CSV feeder is therefore never
  in `Feeder.instances`, and `step_all_feeders` never steps it.
* After `open`, `read_vars` reads from `cycle(...)`, which over a non-empty
  file never runs out. Reads past the last row wrap around to the first.
  Only an empty file makes `read_vars` raise StopIteration.
* A non-looping `step` whose reader has run out raises the normal-stop
  signal on that call and on every later call, since nothing resets the
  reader.
* `get` always raises StopIteration. `size` is set to None and never
  assigned again, so the test `not self.size` always holds. The branches
  after that test are still modelled.
* The constructor sets the instance attribute `step` to None, and
  `per_thread` sets it to an integer. Either value hides the method of the
  same name, so `f.step()` raises TypeError (see Findings).
* Every run of `E`, however long, becomes the short day name `%a`. The
  length test in the source measures the literal `"E"` rather than the
  match. The model keeps that behaviour (`DateFormat.DayNameRun`).

## Model

| member | source | states |
|---|---|---|
| Feeders.Registry.constructor | apiritif/feeders.py:32 | the registry starts empty |
| Feeders.Feeder.constructor | apiritif/feeders.py:34-37 | with `register` the new feeder is appended to the registry exactly once, after all earlier ones; without it the registry is unchanged |
| Feeders.Feeder.Step | apiritif/feeders.py:43-45 | the abstract `step` is a call that changes nothing observable; the model counts the call |
| Feeders.Registry.StepAllFeeders | apiritif/feeders.py:47-50 | `step` is called exactly once on every registered feeder, in registration order; the registry itself is unchanged |
| Feeders.CSVFeeder.constructor | apiritif/feeders.py:54-64 | offsets, size and row start unset; with `auto_open` the file is opened with a cyclic reader at the start, otherwise there is no file and no reader |
| Feeders.CSVFeeder.Open | apiritif/feeders.py:66-69 | `open` installs an open file, a cyclic reader at the first row and no current row, and keeps the offsets |
| Feeders.CSVFeeder.Get | apiritif/feeders.py:71-78 | opens the file when there is none; StopIteration while `size` is None or 0; otherwise ValueError when seeking a closed file or to an offset outside the signed 64-bit range, OSError when seeking the binary handle to a negative offset, and else returns at the floored `n % size` |
| Feeders.PyMod | apiritif/feeders.py:76 | Python's `%`: the remainder takes the divisor's sign, lies strictly within it, and `n == (n // size) * size + n % size` |
| Feeders.CSVFeeder.Reopen | apiritif/feeders.py:80-83 | an open file gets a plain reader from the first row; without a file nothing changes; on a closed file the seek raises ValueError |
| Feeders.CSVFeeder.Close | apiritif/feeders.py:85-88 | the reader is dropped; a file that was there is now closed, not absent |
| Feeders.StepOn | apiritif/feeders.py:90-97 | intended `step`: a reader with rows left advances one; the normal-stop signal iff not looping and the reader has run out; a looping, run-out reader over an open non-empty file restarts on a plain reader and has taken one row; endless retry (RecursionError) iff looping with no file or an empty one |
| Feeders.CSVFeeder.Step | apiritif/feeders.py:90-97 | the method leaves exactly the signal and reader `StepOn` gives, and keeps the file, row and offsets |
| Feeders.StepAsWritten | apiritif/feeders.py:90-97 | the body of `step` as written, entered as `CSVFeeder.step(f)`, with the method hidden by the attribute set at line 56: never recurses, and a looping, run-out reader always ends in TypeError or ValueError |
| Feeders.StepByInstanceCallDiffers | apiritif/feeders.py:56 | the call `f.step()` (`Feeders.StepByInstanceCall`) finds the attribute None or an integer instead of the method: it raises TypeError with the reader untouched, and agrees with the intended `step` exactly when there is no reader |
| Feeders.StepRetryDiffers | apiritif/feeders.py:94-97 | the written and the intended `step` differ exactly when a looping reader has run out over an absent or open file |
| Feeders.StepRetryCounterexample | apiritif/feeders.py:94-97 | over one row, a looping feeder past that row raises TypeError where a rewind and a fresh row were meant |
| Feeders.ReadVarsOn | apiritif/feeders.py:103-107 | `read_vars`: a successful read stores one of the file's rows; a failed one leaves `csv` alone; a missing offset raises TypeError, and a missing reader (as after `close`) raises TypeError unless the offset check already raised ValueError; ValueError exactly when islice's start or stop falls outside `0 .. sys.maxsize` (`first` negative or at least `sys.maxsize`; `step` below 1 or above `sys.maxsize`), leaving the reader alone; over a cycle the first read takes the row `first` ahead and each later one the row `step` ahead, modulo the row count |
| Feeders.CSVFeeder.ReadVars | apiritif/feeders.py:103-107 | the method leaves exactly the signal, row and reader `ReadVarsOn` gives, and keeps the file and offsets |
| Feeders.CSVFeeder.GetVars | apiritif/feeders.py:109-110 | returns the stored row |
| Feeders.FeederStorage.constructor | apiritif/feeders.py:28 | a thread's storage slot starts without a feeder, so the lookup at line 120 finds None |
| Feeders.PerThread | apiritif/feeders.py:118-126 | the first call in a thread creates, opens and caches a looping feeder with stride and offset from the thread's index pair and `size` unset, so its `get` raises StopIteration; later calls return the cached one |
| Feeders.PerThreadTwice | apiritif/feeders.py:119-126 | two lookups in one thread yield the same feeder |
| Cursor.Next | apiritif/feeders.py:92 | `next(reader)` raises StopIteration exactly when the reader has run out (an empty cycle, or a plain reader past its last row) and then leaves it alone; otherwise it yields one of the file's rows, the row at the cursor for a plain reader, and advances by one |
| Cursor.ISliceNext | apiritif/feeders.py:104-107 | `next(islice(r, s, s + 1))` takes the item `s` places on and consumes everything up to it; a plain reader that runs out first is left at its end; an empty cycle yields nothing |
| Cursor.CycleRepeatsFirstPass | apiritif/feeders.py:68 | a cycle over non-empty rows yields at every position what the first pass yields at that position modulo the row count |
| Stride.ReadIndexValue | apiritif/feeders.py:103-107 | the k-th read position of a consumer, `first` for the first read and `step` further for each later one, is `first + k * step` |
| Stride.KthRead | apiritif/feeders.py:103-107 | after `open` and k + 1 reads over non-empty rows, with `first` below and `step` at most `sys.maxsize`, the read succeeds, the stored row is the one at the k-th read position (`ReadIndex`) modulo N, and the reader has taken one item past that position |
| Stride.KthReadRow | apiritif/feeders.py:103-107 | the same in closed form: the stored row is row `(first + k * step) mod N` and the reader has taken `first + k * step + 1` items |
| Stride.ReadAfter | apiritif/feeders.py:107 | a read after the (k-1)-th stored row stores the row one stride further on |
| Stride.FirstRead | apiritif/feeders.py:104-105 | the first read after `open` stores row `first mod N` |
| Stride.LaterRead | apiritif/feeders.py:106-107 | a read after a stored row at position m stores the row at m + step |
| Stride.ResidueClassesPartition | apiritif/feeders.py:123 | consumers sharing stride n with offsets below n never read the same position, and every position belongs to one of them |
| Stride.SameResidue | apiritif/feeders.py:103-107 | equal read positions with offsets below the stride mean equal offsets and equal read counts |
| Stride.ConsumersReadDistinctRows | apiritif/feeders.py:103-107 | before wrapping, two consumers with distinct offsets below their shared stride store distinct rows |
| Stride.FourRowsTwoConsumers | apiritif/feeders.py:103-107 | over four rows with stride 2, consumer 0 reads rows 0 and 2 and consumer 1 rows 1 and 3; a third read wraps round instead of stopping |
| Stride.FourRowsOneConsumer | apiritif/feeders.py:103-107 | over four rows with stride 2, the consumer with offset f reads rows f and f + 2 and then wraps back to row f |
| Stride.CsvStrideExperiment | tests/test_loadgen.py:18-30 | twenty reads with offset 0 and stride 2 see rows 0, 2, 4, … modulo N; over an empty file the first read raises StopIteration |
| DateFormat.Repeat | apiritif/utilities.py:80 | a run of n copies of one letter, as `letter+` matches it |
| DateFormat.Replacer | apiritif/utilities.py:40-76 | a run has a replacement iff it starts with one of the fifteen pattern letters; every replacement except for S is a two-character `%` directive |
| DateFormat.YearRun | apiritif/utilities.py:43-47 | y and Y runs give `%y` below four letters and `%Y` from four on |
| DateFormat.FixedRun | apiritif/utilities.py:48-76 | M, d, h, H, m, s, D, w, a, z, Z runs give one fixed directive whatever their length |
| DateFormat.DayNameRun | apiritif/utilities.py:62-66 | every run of E gives `%a` |
| DateFormat.FractionRun | apiritif/utilities.py:60-61 | runs of S are copied unchanged |
| DateFormat.FirstToken | apiritif/utilities.py:80 | the alternation's match at the start of a pattern: a run of the first character, of length at least one, exactly when that character is a pattern letter; otherwise that character kept as is |
| DateFormat.Tokenize | apiritif/utilities.py:80-81 | the pieces `re.sub` sees: none only for the empty pattern, and never more than the pattern's characters; its properties are stated by TokenizeRoundTrip and TokenizeWellFormed |
| DateFormat.RunLengthMaximal | apiritif/utilities.py:80 | the run measured at the front is all one letter and cannot be extended |
| DateFormat.TokenizeRoundTrip | apiritif/utilities.py:79-81 | cutting a pattern into runs and other characters loses nothing: the pieces spell the pattern back |
| DateFormat.TokenizeWellFormed | apiritif/utilities.py:79-81 | the pieces are non-empty runs of pattern letters and non-letters, and no run is followed by a run of its own letter |
| DateFormat.SpellFirstToken | apiritif/utilities.py:80-81 | the first piece spells exactly the characters it covers |
| DateFormat.EveryRunReplaced | apiritif/utilities.py:40-81 | every run the substitution meets has a replacement from the chain |
| DateFormat.Translate | apiritif/utilities.py:81 | the `re.sub` result: empty exactly when the pattern is empty; its properties are stated by TranslateLetterFree, TranslateRun and TranslateConcat |
| DateFormat.SubstituteAllEmpty | apiritif/utilities.py:81 | every well-formed piece is replaced by some text, so only an empty list of pieces substitutes to nothing |
| DateFormat.SimpleDateFormat.StrftimeFormat | apiritif/utilities.py:78-81 | the format `format_datetime` hands to `strftime`: empty exactly when the pattern is |
| DateFormat.StrftimeFormatLetterFree | apiritif/utilities.py:78-81 | a pattern without pattern letters is handed to `strftime` unchanged (through TranslateLetterFree) |
| DateFormat.TranslateLetterFree | apiritif/utilities.py:81 | a pattern without pattern letters is left unchanged |
| DateFormat.TranslateRun | apiritif/utilities.py:81 | a whole run is replaced as one unit by its `_replacer` value |
| DateFormat.TokenizeConcat | apiritif/utilities.py:80-81 | where the left part does not end in a run the right part continues, the pieces of the whole are those of the left then those of the right |
| DateFormat.SubstituteAllConcat | apiritif/utilities.py:81 | substitution distributes over concatenated piece lists |
| DateFormat.TranslateConcat | apiritif/utilities.py:79-81 | patterns that meet outside a run translate piece by piece |
| DateFormat.AdjacentRuns | apiritif/utilities.py:79-81 | adjacent runs of different letters are replaced independently |
| DateFormat.TranslateLiteral | apiritif/utilities.py:81 | a leading non-letter is kept and the rest translated |
| DateFormat.TranslateRunThen | apiritif/utilities.py:81 | a leading run not continued by the rest is replaced and the rest translated |
| DateFormat.ShortYearThenMonth | apiritif/utilities.py:79-81 | two y letters followed by two M letters translate to `%y%m` |
| DateFormat.YearThenMonth | apiritif/utilities.py:79-81 | `yyMM` translates to `%y%m` |

## Left out

- Real file I/O and CSV parsing: the file is the sequence of rows `DictReader` yields, and a file handle is only absent, open or closed.
- Feeders.CSVFeeder.Get: the line `next(self.fds)` reads from the seek position is not modelled; only the offset is returned. The OSError of a negative seek is modelled as one signal, without its errno. An offset outside the signed 64-bit range is reported as the ValueError that Python 3's buffered binary reader raises; a Python 2 file object raises OverflowError there instead.
- `sys.maxsize` (`Feeders.MaxSize`) is fixed at its 64-bit value, 2^63 - 1. On a 32-bit build the islice bounds in `Feeders.ReadVarsOn` would be 2^31 - 1.
- Feeders.CSVFeeder.Step: models `step` as evidently intended, with the method reachable and the retry re-running it. The code as written is `Feeders.StepByInstanceCall` for the call `f.step()` and `Feeders.StepAsWritten` for the body entered as `CSVFeeder.step(f)` (see Findings). Endless recursion is reported as RecursionError rather than run.
- `threading.local` and `thread_indexes` are parameters: the thread's storage slot is a `FeederStorage` object, and the `(count, index)` pair is passed in.
- The `print` in `per_thread` and `test_csv` produces no state and is left out.
- `Feeder.open` is an abstract no-op and has no member. `CSVFeeder.get_local_feeder` is an unimplemented stub returning None and is left out.
- `Feeder.instances` is a class attribute; the model makes it an explicit `Registry` object passed to the constructor. Feeders registered while `step_all_feeders` runs are not modelled: the base `step` registers nothing.
- The exception class of the normal-stop signal (defined in `apiritif/utils.py`, which is not part of this model) is reduced to a `Signal` value.
- `datetime.strftime` and `datetime.now`: `format_datetime` is modelled up to the format string it passes on, and `format_date` only wraps it.
- DateFormat.Substitute: a run whose letter the chain does not cover would make `re.sub` see a None replacement. No such run can occur (`DateFormat.EveryRunReplaced`), and the model treats it as empty text.
- The random-string and other helpers in `apiritif/utilities.py` are outside the date-format core.

## Findings

| source | as written | input that shows it | evidently intended | confidence | as-written member | corrected member |
|---|---|---|---|---|---|---|
| apiritif/feeders.py:90-97 | at line 56 the constructor assigns the instance attribute `step = None` (and `per_thread` an integer), which hides the `step` method; entered as `CSVFeeder.step(f)`, the body's retry `self.step()` calls None or an int and raises TypeError | a looping feeder over one row whose plain reader, after a `reopen`, is past that row | rewind the file and pull the next row again | not executed | Feeders.StepRetryCounterexample | Feeders.CSVFeeder.Step |
| apiritif/feeders.py:56 | the same instance attribute hides the method for every outside call, so `f.step()` raises TypeError before pulling any row | any feeder with a reader, for instance one just opened over a non-empty file | pull and drop one row, as `step` is written to | not executed | Feeders.StepByInstanceCallDiffers | Feeders.CSVFeeder.Step |
