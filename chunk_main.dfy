/**
 * The earlier copy of `chunk_by_line` in src/main.rs, specialised to the
 * `Lines` of a reader. Its closures are written out again here as main.rs
 * writes them (`filter_empty` tests `x.len() > 0` where src/lib.rs tests
 * `!x.is_empty()`), and the stream it builds is proved to be the library's.
 */
module ChunkMain {
  import opened Streams
  import ChunkLib
  import ChunkProps

  /**
   * The inline `scanner` closure of `ChunkByLine::new`: a delimiter line
   * captures the state and clears it, any other line is appended with one
   * `'\n'` and yields `None`, an error passes through. It is the library's
   * scanner.
   */
  function Scanner<E>(delimiter: string, state: string, line: Result<string, E>): (r: (string, Option<Result<Option<string>, E>>))
    ensures line.Err? ==> r == (state, Some(Err(line.error)))
    ensures line == Ok(delimiter) ==> r == ("", Some(Ok(Some(state))))
    ensures line.Ok? && line.value != delimiter ==> r == (state + line.value + "\n", Some(Ok(None)))
    ensures r == ChunkLib.Scanner(delimiter, state, line)
  {
    match line
    case Err(e) => (state, Some(Err(e)))
    case Ok(l) =>
      if l == delimiter then ("", Some(Ok(Some(state))))
      else (state + l + "\n", Some(Ok(None)))
  }

  function ScanFn<E>(delimiter: string): (string, Result<string, E>) -> (string, Option<Result<Option<string>, E>>)
  {
    (state, line) => Scanner(delimiter, state, line)
  }

  /** `filter_none`: every scan result is passed on as `Ok`. */
  function FilterNone<E>(): (f: Option<string> -> Result<Option<string>, E>)
    ensures forall x :: f(x) == Ok(x)
  {
    x => Ok(x)
  }

  /** `filter_empty`: `x.len() > 0`, which keeps exactly the non-empty chunks. */
  function FilterEmpty(): (f: string -> bool)
    ensures forall x :: f(x) <==> x != ""
  {
    x => |x| > 0
  }

  /**
   * main.rs's `filter_none` has the library's effect: the errors of the scan
   * results pass through in order, and a chunk is yielded exactly when the
   * scanner produced it.
   */
  lemma FilterNoneDropsOnlyNone<E>(ys: seq<Result<Option<string>, E>>)
    ensures TryFilterMap(ys, FilterNone()) == TryFilterMap(ys, ChunkLib.FilterNone())
    ensures Errs(TryFilterMap(ys, FilterNone())) == Errs(ys)
    ensures forall c :: Ok(c) in TryFilterMap(ys, FilterNone()) <==> Ok(Some(c)) in ys
  {
    TryFilterMapCongruent(ys, FilterNone<E>(), ChunkLib.FilterNone<E>());
    ChunkLib.FilterNoneDropsOnlyNone(ys);
  }

  /** The stream built by main.rs's `ChunkByLine::new`. No chunk it yields is empty. */
  function ChunkByLineStream<E>(lines: seq<Result<string, E>>, delimiter: string): (r: seq<Result<string, E>>)
    ensures forall i :: 0 <= i < |r| && r[i].Ok? ==> |r[i].value| > 0
  {
    TryFilter(TryFilterMap(Scan(lines + [Ok(delimiter)], "", ScanFn(delimiter)), FilterNone()), FilterEmpty())
  }

  /** The two copies of `chunk_by_line` yield the same stream for every input. */
  lemma SameAsLibrary<E>(lines: seq<Result<string, E>>, delimiter: string)
    ensures ChunkByLineStream(lines, delimiter) == ChunkLib.ChunkByLineStream(lines, delimiter)
  {
    var input := lines + [Ok(delimiter)];
    forall s, a
      ensures ScanFn<E>(delimiter)(s, a) == ChunkLib.ScanFn<E>(delimiter)(s, a)
    {
      assert Scanner(delimiter, s, a) == ChunkLib.Scanner(delimiter, s, a);
    }
    ScanCongruent(input, "", ScanFn<E>(delimiter), ChunkLib.ScanFn<E>(delimiter));
    var scanned := Scan(input, "", ChunkLib.ScanFn<E>(delimiter));
    TryFilterMapCongruent(scanned, FilterNone<E>(), ChunkLib.FilterNone<E>());
    var mapped := TryFilterMap(scanned, ChunkLib.FilterNone<E>());
    TryFilterCongruent(mapped, FilterEmpty(), ChunkLib.FilterEmpty());
  }

  /** The fixture of main.rs's test. */
  lemma Fixture<E>(lines: seq<Result<string, E>>)
    requires lines == [Ok("~~~"), Ok("multi"), Ok(""), Ok("line"), Ok("chunk"), Ok("~~~"), Ok("another"), Ok("chunk")]
    ensures ChunkByLineStream(lines, "~~~") == [Ok("multi\n\nline\nchunk\n"), Ok("another\nchunk\n")]
  {
    SameAsLibrary(lines, "~~~");
    ChunkProps.Fixture(lines);
  }
}
