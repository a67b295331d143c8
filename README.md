# chunk_by_line, modelled in Dafny

`lines-ext` adds `chunk_by_line(delim)` to a stream of lines read from a
reader. Each item of that stream is either a line, with its terminator
already stripped, or an I/O error. The method groups the lines into chunks.
A chunk is the text between two lines equal to the delimiter, each line
followed by `'\n'`. The library builds the stream from `futures`
combinators:

- it chains one synthetic delimiter line after the input, so that the last
  partial chunk is flushed;
- it scans the input with a `String` accumulator, which the scanner clears
  on a delimiter line and extends on any other line;
- `try_filter_map` drops the scanner's "no chunk yet" results;
- `try_filter` drops empty chunks.

Errors are passed through unchanged, and the accumulator keeps its text
across them.

The project has five modules:

- `Streams` (`streams.dfy`): the `futures` combinators the chunker uses,
  over finite streams. A stream is the sequence of the items it yields.
  `Scan` stops at the first `None`. `TryFilterMap` and `TryFilter` pass
  errors through.
- `ChunkLib` (`chunk_lib.dfy`): src/lib.rs. It holds the `scanner` closure
  (`Scanner`), the two filter closures, and the composed stream as a value
  (`ChunkByLineStream`). `Yields` is the same stream written item by item,
  and `ScanState` is the scan state after a run of items. It also holds the
  class `ChunkByLine`, the object a consumer pulls from:
  - its fields are the upstream not yet pulled and the scan state;
  - the ghost fields are the chained upstream, the items pulled so far
    (`seen`) and what the object will still yield (`pending`);
  - `Valid()` ties them together: pulled plus left is the chained upstream,
    the scan state is what the scanner leaves after the items pulled, and
    `pending` is what the upstream left yields from that state;
  - `ScanLine` updates the scan state in place, `Pull` takes one upstream
    item, and `Next` pulls until a chunk, an error or exhaustion.

  The constructor sets `pending` to `ChunkByLineStream`. Every `Next`
  yields its head, and it reads no upstream item past the one that produced
  what it yields.
- `ChunkSpec` (`chunk_spec.dfy`): reference definitions that do not use the
  combinators.
  - `Chunks` / `FlushFrom` is the chunker as a state machine that flushes
    a non-empty accumulator at the end of the input.
  - `Spans` splits lines into maximal delimiter-free spans. `Unsplit` puts
    the delimiter back. `Joined` is the chunk text of a span.
  - `Unclosed` is the lines after the last delimiter: the partial chunk.
- `ChunkProps` (`chunk_props.dfy`): the lemmas tying the library's stream
  to the references. It also holds the crate test's fixture, other worked
  inputs, and `Collect`, a consumer that drains a `ChunkByLine`.
- `ChunkMain` (`chunk_main.dfy`): the copy in src/main.rs, with its own
  closures (`filter_empty` there tests `x.len() > 0`). It is proved to
  yield the library's stream for every input.

The error type is a type parameter `E`, which the model only passes on.
Lines are `string`s, compared by exact equality.

The code chains a synthetic delimiter. A description that flushes
explicitly at exhaustion would behave the same, and
`ChunkProps.SyntheticDelimiterIsFlush` proves the two equal. The property
"the chunks, joined by the delimiter, give back the input" holds only at the
level of spans (`ChunkSpec.SpansRoundTrip`). The chunks themselves lose the
empty spans (consecutive or leading delimiters), and
`ChunkProps.ChunksAreJoinedSpans` states exactly which spans remain.

## Model

| member | source | states |
|---|---|---|
| `Streams.Scan` | src/lib.rs:52 | `scan` yields at most one item per upstream item |
| `Streams.ScanYieldsEveryItem` | src/lib.rs:64-78 | a scan function that never answers `None` makes `scan` yield exactly one item per upstream item |
| `Streams.TryFilterMap` | src/lib.rs:54 | `try_filter_map` yields at most one item per input item |
| `Streams.TryFilter` | src/lib.rs:56 | `try_filter` yields only items of its input (nothing is added), every error and every `Ok` item satisfying the predicate is kept, every kept `Ok` item satisfies it, and the errors are kept in order |
| `Streams.TryFilterAppend` | src/lib.rs:56 | `try_filter` treats every item on its own: filtering a concatenation is concatenating the filtered parts |
| `ChunkLib.Scanner` | src/lib.rs:63-80 | the scanner never answers `None`. A delimiter line yields `Some(Ok(Some(state)))` and clears the state. Any other line appends the line and one `'\n'` and yields `Some(Ok(None))`. An error yields `Some(Err(e))` and leaves the state unchanged |
| `ChunkLib.FilterNoneDropsOnlyNone` | src/lib.rs:54 | `try_filter_map` with the library's closure drops only the "no chunk yet" results: the errors pass in order, and a chunk is yielded exactly when the scanner produced it |
| `ChunkLib.FilterEmptyDropsOnlyEmpty` | src/lib.rs:56 | `try_filter` with the library's closure yields exactly the errors and the non-empty chunks of its input, with the errors in order, so only empty chunks are dropped |
| `ChunkLib.ChunkByLineStream` | src/lib.rs:47-59 | the composed stream never yields an empty chunk |
| `ChunkLib.DriveStep` | src/lib.rs:48-56 | the composed stream, from any upstream and scan state, yields what the first upstream item produces and then continues from the scanner's new state. An error yields itself. A delimiter yields the accumulated text if it is non-empty. Any other line yields nothing |
| `ChunkLib.DriveIsYields` | src/lib.rs:48-56 | the chained scan and the two filters yield, from any upstream and scan state, what the item-by-item definition `Yields` says |
| `ChunkLib.YieldsSnoc` | src/lib.rs:48-56 | the stream is incremental: one more upstream item adds exactly what that item yields in the scan state the earlier items left |
| `ChunkLib.YieldsAppend` | src/lib.rs:48-56 | a split upstream yields what its first part yields followed by what its second part yields from the state the first part left |
| `ChunkLib.ScanStateSnoc` | src/lib.rs:63-80 | the scan state after one more item is the scanner's step on the state before it |
| `ChunkLib.ScanStateAppend` | src/lib.rs:63-80 | the scan state after a split run of items is the state after the second part, started from the state the first part left |
| `ChunkLib.ScanKeepsUnclosed` | src/lib.rs:66-75 | when the state is the text of the lines since the last delimiter, the scanner keeps it so for one more item. A delimiter clears it, a line extends it, and an error leaves it |
| `ChunkLib.AccumulatorIsUnclosed` | src/lib.rs:64-78 | after any items the scan state is the text of the successfully read lines since the last delimiter, which is the text of their last span |
| `ChunkLib.QuietBefore` | src/lib.rs:82-88 | when the last item of a run emits exactly what the run yields, the items before it yield nothing |
| `ChunkLib.PulledBeforeYieldNothing` | src/lib.rs:82-88 | when a pull yields one item, and the last upstream item it read emits that item, the items it read before that one yield nothing |
| `ChunkLib.ChunkByLine.constructor` | src/lib.rs:47-59 | the chained upstream is the lines followed by one synthetic delimiter, nothing is pulled, the scan state starts empty, and what the object will yield is exactly the composed stream |
| `ChunkLib.ChunkByLine.ScanLine` | src/lib.rs:63-80 | the scanner applied in place: the new state and the answer are the scanner's, case by case |
| `ChunkLib.ChunkByLine.Pull` | src/lib.rs:48-52 | one upstream item moves from the upstream to the pulled items, the state is the scanner's step on it, and what was pending is what this item emits followed by what is now pending |
| `ChunkLib.ChunkByLine.Next` | src/lib.rs:82-88 | a pull keeps `Valid()`, yields the head of what is pending and leaves the rest pending. It only moves forward. The last item it read is the one that emits what it yields, and the items it read before that yield nothing. `None` comes only once the upstream is exhausted and nothing is pending. A yielded chunk is never empty |
| `ChunkSpec.Joined` | src/lib.rs:72-73 | the text of a span has at least one character per line and is empty exactly when the span has no lines |
| `ChunkSpec.FlushFrom` | src/lib.rs:47-80 | the reference chunker never emits an empty chunk and emits exactly the input's errors, in order |
| `ChunkSpec.SpansFrom` | src/lib.rs:67-74 | splitting at delimiter lines gives at least one span, and no span contains the delimiter |
| `ChunkSpec.SpansRoundTrip` | src/lib.rs:67-74 | putting the delimiter back between the spans gives the original lines |
| `ChunkSpec.Unclosed` | src/lib.rs:67-74 | the lines after the last delimiter are a suffix without the delimiter, preceded by a delimiter unless they are all the lines |
| `ChunkSpec.UnclosedSnoc` | src/lib.rs:67-74 | a delimiter line empties the lines after the last delimiter, and any other line is appended to them |
| `ChunkSpec.UnclosedIsLastSpan` | src/lib.rs:67-74 | the lines after the last delimiter are the last span of the split |
| `ChunkSpec.SpansUnique` | src/lib.rs:67-74 | any split into delimiter-free spans that joins back to the lines is `Spans`, so the spans are maximal |
| `ChunkSpec.FlushFromChunksAreSpans` | src/lib.rs:64-80 | the reference chunker's chunks are the texts of the non-empty spans of the successfully read lines, in order. Errors neither end nor split a span |
| `ChunkProps.ScanNeverEnds` | src/lib.rs:64-78 | the scan processes every input item and the synthetic delimiter, and never stops early |
| `ChunkProps.FlushFromStep` | src/lib.rs:66-77 | the reference chunker takes the same step on each item as the stream's scanner and filters |
| `ChunkProps.DriveIsFlush` | src/lib.rs:50-56 | from any accumulated text, chaining the delimiter, scanning and filtering gives the reference chunker's output |
| `ChunkProps.SyntheticDelimiterIsFlush` | src/lib.rs:50-52 | appending a synthetic delimiter and dropping empty chunks equals flushing a non-empty accumulator on exhaustion |
| `ChunkProps.FailuresPassThrough` | src/lib.rs:65-78 | the stream yields exactly the upstream's errors, in order |
| `ChunkProps.ChunksAreJoinedSpans` | src/lib.rs:48-56 | the chunks, in order, are the texts of the non-empty maximal delimiter-separated spans, one chunk per non-empty span |
| `ChunkProps.FailureKeepsPartialChunk` | src/lib.rs:76-77 | an error anywhere leaves the chunks as they would be without it, so no partial chunk is lost or split |
| `ChunkProps.FixtureChunks` | src/lib.rs:114-134 | the reference chunker on the test input with delimiter `~~~` gives exactly `multi\n\nline\nchunk\n` and `another\nchunk\n` |
| `ChunkProps.Fixture` | src/lib.rs:114-134 | the stream built for the test input with delimiter `~~~` yields exactly `multi\n\nline\nchunk\n` and `another\nchunk\n` |
| `ChunkProps.BoundaryChunks` | src/lib.rs:50-56 | the reference chunker on the inputs of `Boundaries` gives the chunks listed there |
| `ChunkProps.Boundaries` | src/lib.rs:50-56 | the following inputs give the following outputs: a trailing span without a closing delimiter is flushed; a closing delimiter adds no empty chunk; repeated and leading delimiters add none; no lines give no chunks |
| `ChunkProps.FailureInsideChunkChunks` | src/lib.rs:65-78 | the reference chunker on `a`, an error, `b`, `~~~`, `c` gives the error, then `a\nb\n`, then `c\n` |
| `ChunkProps.FailureInsideChunk` | src/lib.rs:65-78 | an error inside a chunk is yielded where it occurs, and the whole chunk around it follows |
| `ChunkProps.ExactComparisonChunks` | src/lib.rs:67 | the reference chunker on `a`, `~~~ `, ` ~~~`, `b` with delimiter `~~~` gives the single chunk `a\n~~~ \n ~~~\nb\n` |
| `ChunkProps.ExactComparison` | src/lib.rs:67 | lines that differ from the delimiter only by surrounding blanks are chunk text, not delimiters |
| `ChunkProps.Collect` | src/lib.rs:126-130 | pulling from a fresh `ChunkByLine` until exhaustion gives every chunk and error of the reference chunker, in order |
| `ChunkMain.ChunkByLineStream` | src/main.rs:76-84 | main.rs's stream never yields a chunk of length 0 |
| `ChunkMain.Scanner` | src/main.rs:52-71 | main.rs's scanner: a delimiter captures and clears the state; any other line appends one `'\n'` and yields `None`; an error is yielded and leaves the state alone. It agrees with src/lib.rs's scanner |
| `ChunkMain.FilterNoneDropsOnlyNone` | src/main.rs:73 | `try_filter_map` with main.rs's `filter_none` gives what it gives with the library's closure: only "no chunk yet" results are dropped, errors pass in order, and a chunk is yielded exactly when the scanner produced it |
| `ChunkMain.FilterEmpty` | src/main.rs:74 | main.rs's `filter_empty`, `x.len() > 0`, keeps a chunk exactly when it is non-empty |
| `ChunkMain.SameAsLibrary` | src/main.rs:49-87 | the stream of main.rs equals the stream of lib.rs for every input and delimiter |
| `ChunkMain.Fixture` | src/main.rs:128-147 | main.rs's test input yields exactly `multi\n\nline\nchunk\n` and `another\nchunk\n` |

## Left out

- Polling, `Pin`, wakers and `size_hint`: the stream is a finite sequence of
  items, and `poll_next` is the pull method `Next`. A pending upstream, which
  would make a pull wait, is not modelled.
- The `ChunkByLineExt` trait and its `chunk_by_line` method only call
  `ChunkByLine::new`; the class constructor models that call.
- The combinator type aliases (`ChunkByLineStream`, `FnScanner`,
  `FnFilterNone`, `FnFilterEmpty`) have no behaviour of their own.
- Reading lines from a `BufRead`/`Cursor` and stripping line terminators is
  I/O. The model's input is the sequence of items the reader yields.
- The content of `std::io::Error`: errors are an opaque type parameter.
- `try_collect` in the tests stops at the first error. That is consumer
  behaviour. `Collect` drains the stream and keeps every item.
- `main` prints a greeting and is not modelled.
- src/main.rs's stream is not given a class of its own.
  `ChunkMain.SameAsLibrary` proves it yields the library's stream, so a
  `ChunkLib.ChunkByLine` pulled step by step yields it too.
- `String` storage is not modelled. `push_str`, `push` and `clear` become
  reassignments of a `string` field, and capacity and reallocation are not
  modelled.
