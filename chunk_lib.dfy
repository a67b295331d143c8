/**
 * `chunk_by_line` of src/lib.rs: the upstream lines are chained with one
 * synthetic delimiter line, scanned with a `String` accumulator, stripped of
 * the scanner's "no chunk yet" results and of empty chunks.
 *
 * The stream is modelled twice: `ChunkByLineStream` is the combinator
 * composition as a value, and the class `ChunkByLine` is the object a consumer
 * pulls from, whose scan state is updated in place line by line.
 */
module ChunkLib {
  import opened Streams
  import opened ChunkSpec

  /**
   * The `scanner` closure: from the scan state and one upstream item, the new
   * scan state and what the scan yields. A line equal to the delimiter yields
   * the accumulated text and clears it, any other line is appended with one
   * `'\n'` and yields "no chunk yet", an error is yielded and leaves the
   * state alone. It never answers `None`, which would end the scan.
   */
  function Scanner<E>(delim: string, state: string, line: Result<string, E>): (r: (string, Option<Result<Option<string>, E>>))
    ensures r.1.Some?
    ensures line.Err? ==> r == (state, Some(Err(line.error)))
    ensures line == Ok(delim) ==> r == ("", Some(Ok(Some(state))))
    ensures line.Ok? && line.value != delim ==> r == (state + line.value + "\n", Some(Ok(None)))
  {
    match line
    case Err(e) => (state, Some(Err(e)))
    case Ok(l) =>
      if l == delim then ("", Some(Ok(Some(state))))
      else (state + l + "\n", Some(Ok(None)))
  }

  /** The scanner as the value handed to `scan`. */
  function ScanFn<E>(delim: string): (string, Result<string, E>) -> (string, Option<Result<Option<string>, E>>)
  {
    (state, line) => Scanner(delim, state, line)
  }

  /** The closure given to `try_filter_map`: every scan result is passed on as `Ok`. */
  function FilterNone<E>(): (f: Option<string> -> Result<Option<string>, E>)
    ensures forall x :: f(x) == Ok(x)
  {
    x => Ok(x)
  }

  /** The closure given to `try_filter`: `!x.is_empty()`. */
  function FilterEmpty(): (f: string -> bool)
    ensures forall x :: f(x) <==> x != ""
  {
    x => x != ""
  }

  /**
   * What `try_filter_map` does with `FilterNone` on the scan results: the
   * errors pass through in order, and a chunk is yielded exactly when the
   * scanner produced it, so only the "no chunk yet" results are dropped.
   */
  lemma {:induction false} FilterNoneDropsOnlyNone<E>(ys: seq<Result<Option<string>, E>>)
    ensures Errs(TryFilterMap(ys, FilterNone())) == Errs(ys)
    ensures forall c :: Ok(c) in TryFilterMap(ys, FilterNone()) <==> Ok(Some(c)) in ys
  {
    if ys != [] {
      FilterNoneDropsOnlyNone(ys[1..]);
      var head := TryFilterMap([ys[0]], FilterNone<E>());
      var rest := TryFilterMap(ys[1..], FilterNone<E>());
      TryFilterMapCons(ys[0], ys[1..], FilterNone<E>());
      assert [ys[0]] + ys[1..] == ys;
      ErrsAppend(head, rest);
      ErrsAppend([ys[0]], ys[1..]);
      forall c
        ensures Ok(c) in head + rest <==> Ok(Some(c)) in [ys[0]] + ys[1..]
      {
      }
    }
  }

  /**
   * What `try_filter` does with `FilterEmpty` on the chunks: it yields
   * exactly the errors and the non-empty chunks of its input, so only empty
   * chunks are dropped.
   */
  lemma FilterEmptyDropsOnlyEmpty<E>(xs: seq<Result<string, E>>)
    ensures forall y :: y in TryFilter(xs, FilterEmpty()) <==> y in xs && y != Ok("")
    ensures Errs(TryFilter(xs, FilterEmpty())) == Errs(xs)
  {
    var r := TryFilter(xs, FilterEmpty());
    forall y
      ensures y in r <==> y in xs && y != Ok("")
    {
      if y in r {
        var i :| 0 <= i < |r| && r[i] == y;
      }
      if y in xs && y != Ok("") {
        var i :| 0 <= i < |xs| && xs[i] == y;
      }
    }
  }

  /**
   * What the composed stream still yields, given what is left of the chained
   * upstream (`input`) and the current scan state.
   */
  function Drive<E>(input: seq<Result<string, E>>, state: string, delim: string): seq<Result<string, E>>
  {
    TryFilter(TryFilterMap(Scan(input, state, ScanFn(delim)), FilterNone()), FilterEmpty())
  }

  /**
   * The stream built by `ChunkByLine::new`: the lines, then the delimiter
   * once more so that the last partial chunk is flushed, scanned from an
   * empty state and filtered. No chunk it yields is empty.
   */
  function ChunkByLineStream<E>(lines: seq<Result<string, E>>, delim: string): (r: seq<Result<string, E>>)
    ensures forall i :: 0 <= i < |r| && r[i].Ok? ==> r[i].value != ""
  {
    Drive(lines + [Ok(delim)], "", delim)
  }

  /** What the composed stream yields for one upstream item seen in scan state `state`. */
  function Emitted<E>(delim: string, state: string, line: Result<string, E>): (r: seq<Result<string, E>>)
  {
    match line
    case Err(e) => [Err(e)]
    case Ok(l) => if l == delim && state != "" then [Ok(state)] else []
  }

  /**
   * One step of the composed stream: it yields what the first upstream item
   * produces, then continues from the rest of the upstream and the state the
   * scanner left.
   */
  lemma DriveStep<E>(input: seq<Result<string, E>>, state: string, delim: string)
    requires input != []
    ensures Drive(input, state, delim)
         == Emitted(delim, state, input[0]) + Drive(input[1..], Scanner(delim, state, input[0]).0, delim)
  {
    var next := Scanner(delim, state, input[0]).0;
    var out := Scanner(delim, state, input[0]).1.value;
    var scanned := Scan(input[1..], next, ScanFn(delim));
    assert Scan(input, state, ScanFn(delim)) == [out] + scanned;
    TryFilterMapCons(out, scanned, FilterNone());
    var head := TryFilterMap([out], FilterNone<E>());
    TryFilterAppend(head, TryFilterMap(scanned, FilterNone()), FilterEmpty());
    assert TryFilter(head, FilterEmpty()) == Emitted(delim, state, input[0]);
    var rest := Drive(input[1..], next, delim);
    assert [] + rest == rest;
  }

  /**
   * What the composed stream yields from `input` in scan state `state`,
   * item by item: each upstream item yields what `Emitted` says in the
   * state the items before it left.
   */
  function Yields<E>(input: seq<Result<string, E>>, state: string, delim: string): seq<Result<string, E>>
  {
    if input == [] then []
    else Emitted(delim, state, input[0]) + Yields(input[1..], Scanner(delim, state, input[0]).0, delim)
  }

  /** The combinator pipeline yields item by item what `Yields` says. */
  lemma {:induction false} DriveIsYields<E>(input: seq<Result<string, E>>, state: string, delim: string)
    ensures Drive(input, state, delim) == Yields(input, state, delim)
  {
    if input != [] {
      DriveStep(input, state, delim);
      DriveIsYields(input[1..], Scanner(delim, state, input[0]).0, delim);
    }
  }

  /** The scan state after the scanner has seen `items`, starting from `state`. */
  function ScanState<E>(items: seq<Result<string, E>>, state: string, delim: string): string
  {
    if items == [] then state
    else ScanState(items[1..], Scanner(delim, state, items[0]).0, delim)
  }

  lemma {:induction false} ScanStateSnoc<E>(items: seq<Result<string, E>>, x: Result<string, E>, state: string, delim: string)
    ensures ScanState(items + [x], state, delim) == Scanner(delim, ScanState(items, state, delim), x).0
  {
    if items == [] {
      assert items + [x] == [x];
    } else {
      assert (items + [x])[0] == items[0];
      assert (items + [x])[1..] == items[1..] + [x];
      ScanStateSnoc(items[1..], x, Scanner(delim, state, items[0]).0, delim);
    }
  }

  /**
   * The stream is incremental: one more upstream item adds exactly what
   * that item yields in the scan state the earlier items left.
   */
  lemma {:induction false} YieldsSnoc<E>(items: seq<Result<string, E>>, x: Result<string, E>, state: string, delim: string)
    ensures Yields(items + [x], state, delim) == Yields(items, state, delim) + Emitted(delim, ScanState(items, state, delim), x)
  {
    if items == [] {
      assert items + [x] == [x];
      assert [x][1..] == [];
    } else {
      var next := Scanner(delim, state, items[0]).0;
      assert (items + [x])[0] == items[0];
      assert (items + [x])[1..] == items[1..] + [x];
      YieldsSnoc(items[1..], x, next, delim);
      var head := Emitted(delim, state, items[0]);
      var tail := Emitted(delim, ScanState(items[1..], next, delim), x);
      var mid := Yields(items[1..], next, delim);
      assert head + (mid + tail) == (head + mid) + tail;
    }
  }

  /**
   * The scan state is the text of the lines read since the last delimiter:
   * the scanner keeps that true for one more upstream item.
   */
  lemma ScanKeepsUnclosed<E>(items: seq<Result<string, E>>, n: nat, delim: string)
    requires n < |items|
    ensures Scanner(delim, Joined(Unclosed(Oks(items[..n]), delim)), items[n]).0
         == Joined(Unclosed(Oks(items[..n + 1]), delim))
  {
    assert items[..n + 1] == items[..n] + [items[n]];
    OksAppend(items[..n], [items[n]]);
    var lines := Oks(items[..n]);
    match items[n]
    case Err(e) =>
      assert Oks(items[..n + 1]) == lines + [];
      assert lines + [] == lines;
    case Ok(l) =>
      assert Oks(items[..n + 1]) == lines + [l];
      UnclosedSnoc(lines, l, delim);
      JoinedSnoc(Unclosed(lines, delim), l);
  }

  /**
   * The scan state after the items pulled so far is the text of the lines
   * among them read since the last delimiter, which is the last span of those
   * lines: the partial chunk the stream is building.
   */
  lemma {:induction false} AccumulatorIsUnclosed<E>(items: seq<Result<string, E>>, delim: string)
    ensures ScanState(items, "", delim) == Joined(Unclosed(Oks(items), delim))
    ensures ScanState(items, "", delim) == Joined(Last(Spans(Oks(items), delim)))
    decreases |items|
  {
    UnclosedIsLastSpan(Oks(items), delim);
    if items == [] {
      assert Unclosed(Oks(items), delim) == [];
    } else {
      var n := |items| - 1;
      assert items[..n] + [items[n]] == items;
      assert items[..n + 1] == items;
      AccumulatorIsUnclosed(items[..n], delim);
      ScanStateSnoc(items[..n], items[n], "", delim);
      ScanKeepsUnclosed(items, n, delim);
    }
  }

  lemma {:induction false} ScanStateAppend<E>(items: seq<Result<string, E>>, more: seq<Result<string, E>>, state: string, delim: string)
    ensures ScanState(items + more, state, delim) == ScanState(more, ScanState(items, state, delim), delim)
  {
    if items == [] {
      assert items + more == more;
    } else {
      assert (items + more)[0] == items[0];
      assert (items + more)[1..] == items[1..] + more;
      ScanStateAppend(items[1..], more, Scanner(delim, state, items[0]).0, delim);
    }
  }

  /**
   * The stream yields the same from a split upstream as from the whole: the
   * second part yields in the scan state the first part left.
   */
  lemma {:induction false} YieldsAppend<E>(items: seq<Result<string, E>>, more: seq<Result<string, E>>, state: string, delim: string)
    ensures Yields(items + more, state, delim) == Yields(items, state, delim) + Yields(more, ScanState(items, state, delim), delim)
  {
    if items == [] {
      assert items + more == more;
    } else {
      var next := Scanner(delim, state, items[0]).0;
      assert (items + more)[0] == items[0];
      assert (items + more)[1..] == items[1..] + more;
      YieldsAppend(items[1..], more, next, delim);
      var head := Emitted(delim, state, items[0]);
      var mid := Yields(items[1..], next, delim);
      var tail := Yields(more, ScanState(items[1..], next, delim), delim);
      assert head + (mid + tail) == (head + mid) + tail;
    }
  }

  /**
   * When item `line` emits `item` and the upstream `skipped + [line] + rest`
   * yields just `item` before what `rest` yields, the items in `skipped`
   * yield nothing.
   */
  lemma QuietBefore<E>(skipped: seq<Result<string, E>>, line: Result<string, E>, rest: seq<Result<string, E>>,
                       state: string, item: Result<string, E>, delim: string)
    requires Yields((skipped + [line]) + rest, state, delim) == [item] + Yields(rest, ScanState(skipped + [line], state, delim), delim)
    requires Emitted(delim, ScanState(skipped, state, delim), line) == [item]
    ensures Yields(skipped, state, delim) == []
  {
    YieldsAppend(skipped + [line], rest, state, delim);
    YieldsSnoc(skipped, line, state, delim);
    assert |Yields((skipped + [line]) + rest, state, delim)| == |Yields(skipped, state, delim)| + 1 + |Yields(rest, ScanState(skipped + [line], state, delim), delim)|;
  }

  /**
   * A pull reads no item past the one that produced what it yields: when
   * the stream moves from `seen` to `seen'`, yields `item` and leaves the
   * rest pending, and the last item it read is the one that emits `item`,
   * then the items it read before that one yield nothing.
   */
  lemma PulledBeforeYieldNothing<E>(seen: seq<Result<string, E>>, upstream: seq<Result<string, E>>,
                                    seen': seq<Result<string, E>>, upstream': seq<Result<string, E>>,
                                    item: Result<string, E>, delim: string)
    requires seen + upstream == seen' + upstream' && seen <= seen' && |seen| < |seen'|
    requires Yields(upstream, ScanState(seen, "", delim), delim) == [item] + Yields(upstream', ScanState(seen', "", delim), delim)
    requires Emitted(delim, ScanState(seen'[..|seen'| - 1], "", delim), seen'[|seen'| - 1]) == [item]
    ensures Yields(seen'[|seen|..|seen'| - 1], ScanState(seen, "", delim), delim) == []
  {
    var skipped := seen'[|seen|..|seen'| - 1];
    var line := seen'[|seen'| - 1];
    var mid := skipped + [line];
    var state := ScanState(seen, "", delim);
    SplitLast(seen, seen');
    CancelPrefix(seen, upstream, mid, upstream');
    ScanStateAppend(seen, skipped, "", delim);
    ScanStateAppend(seen, mid, "", delim);
    assert Yields(mid + upstream', state, delim) == [item] + Yields(upstream', ScanState(mid, state, delim), delim);
    assert Emitted(delim, ScanState(skipped, state, delim), line) == [item];
    QuietBefore(skipped, line, upstream', state, item, delim);
  }

  /** Helpers on sequences for the pull step. */
  lemma SplitLast<T>(a: seq<T>, b: seq<T>)
    requires a <= b && |a| < |b|
    ensures b[..|b| - 1] == a + b[|a|..|b| - 1]
    ensures b == a + (b[|a|..|b| - 1] + [b[|b| - 1]])
  {
    assert b == b[..|b| - 1] + [b[|b| - 1]];
    assert b[..|b| - 1] == b[..|a|] + b[|a|..|b| - 1];
  }

  lemma CancelPrefix<T>(a: seq<T>, u: seq<T>, m: seq<T>, u': seq<T>)
    requires a + u == (a + m) + u'
    ensures u == m + u'
  {
    assert a + u == a + (m + u');
    assert u == (a + u)[|a|..];
    assert m + u' == (a + (m + u'))[|a|..];
  }

  /** Moving the head of `rest` onto the end of `done` keeps their concatenation. */
  lemma Shift<T>(done: seq<T>, rest: seq<T>)
    requires rest != []
    ensures (done + [rest[0]]) + rest[1..] == done + rest
    ensures rest == [rest[0]] + rest[1..]
  {
    assert rest == [rest[0]] + rest[1..];
  }

  /**
   * The `ChunkByLine` stream as the object a consumer pulls from: what is left
   * of the chained upstream and the scan state `String`, which the scanner
   * updates in place.
   */
  class ChunkByLine<E> {
    const delim: string
    /** The chained upstream: the lines, then the synthetic delimiter. */
    ghost const chained: seq<Result<string, E>>
    /** The upstream items pulled so far. */
    ghost var seen: seq<Result<string, E>>
    /** The upstream items not yet pulled, the synthetic delimiter last. */
    var upstream: seq<Result<string, E>>
    /** The scan state: the text of the lines pulled since the last delimiter (`AccumulatorIsUnclosed`). */
    var state: string
    /** The items this stream is still going to yield. */
    ghost var pending: seq<Result<string, E>>

    /**
     * The items pulled and those left make up the chained upstream, the scan
     * state is what the scanner leaves after the items pulled, and what is
     * pending is what the stream yields from the upstream left.
     */
    ghost predicate Valid()
      reads this
    {
      && seen + upstream == chained
      && state == ScanState(seen, "", delim)
      && pending == Yields(upstream, state, delim)
    }

    /** `ChunkByLine::new`: chains the synthetic delimiter and starts with an empty state. */
    constructor (lines: seq<Result<string, E>>, delim: string)
      ensures Valid()
      ensures this.delim == delim && state == ""
      ensures chained == lines + [Ok(delim)] && seen == [] && upstream == chained
      ensures pending == ChunkByLineStream(lines, delim)
    {
      this.delim := delim;
      chained := lines + [Ok(delim)];
      seen := [];
      upstream := lines + [Ok(delim)];
      state := "";
      pending := ChunkByLineStream(lines, delim);
      DriveIsYields(lines + [Ok(delim)], "", delim);
    }

    /** The `scanner` closure applied to the scan state in place. */
    method ScanLine(line: Result<string, E>) returns (out: Option<Result<Option<string>, E>>)
      modifies this`state
      ensures (state, out) == Scanner(delim, old(state), line)
      ensures line.Err? ==> out == Some(Err(line.error)) && state == old(state)
      ensures line == Ok(delim) ==> out == Some(Ok(Some(old(state)))) && state == ""
      ensures line.Ok? && line.value != delim ==> out == Some(Ok(None)) && state == old(state) + line.value + "\n"
    {
      match line {
        case Err(e) =>
          out := Some(Err(e));
        case Ok(l) =>
          if l == delim {
            var chunk := state;
            state := "";
            out := Some(Ok(Some(chunk)));
          } else {
            state := state + l;
            state := state + "\n";
            out := Some(Ok(None));
          }
      }
    }

    /**
     * Takes the first upstream item and runs the scanner on it: the item
     * moves from the upstream to what has been seen, and what is pending
     * from the old position is what this item emits followed by what is
     * pending from the new one.
     */
    method Pull() returns (line: Result<string, E>, scanned: Option<Result<Option<string>, E>>)
      requires upstream != [] && seen + upstream == chained && state == ScanState(seen, "", delim)
      modifies this`upstream, this`seen, this`state
      ensures line == old(upstream)[0] && upstream == old(upstream)[1..] && seen == old(seen) + [line]
      ensures seen + upstream == chained && state == ScanState(seen, "", delim)
      ensures (state, scanned) == Scanner(delim, old(state), line)
      ensures Yields(old(upstream), old(state), delim) == Emitted(delim, old(state), line) + Yields(upstream, state, delim)
    {
      line := upstream[0];
      Shift(seen, upstream);
      ScanStateSnoc(seen, line, "", delim);
      upstream := upstream[1..];
      seen := seen + [line];
      scanned := ScanLine(line);
    }

    /**
     * Pulls upstream items until a non-empty chunk or an error can be
     * yielded, or the upstream is exhausted (`None`). What it yields is the
     * head of what was pending and the rest stays pending. It reads no item
     * past the one that produced what it yields: the last item it pulled
     * emits the item, and the items it pulled before that one yield nothing.
     */
    method Next() returns (item: Option<Result<string, E>>)
      requires Valid()
      modifies this
      ensures Valid()
      ensures old(pending) == (if item.Some? then [item.value] else []) + pending
      ensures old(seen) <= seen
      ensures item.Some? ==> |old(seen)| < |seen| && Emitted(delim, ScanState(seen[..|seen| - 1], "", delim), seen[|seen| - 1]) == [item.value]
      ensures item.Some? ==> Yields(seen[|old(seen)|..|seen| - 1], old(state), delim) == []
      ensures item.None? ==> upstream == [] && pending == []
      ensures item.Some? && item.value.Ok? ==> item.value.value != ""
    {
      while upstream != []
        invariant seen + upstream == chained && state == ScanState(seen, "", delim)
        invariant old(seen) <= seen
        invariant Yields(upstream, state, delim) == old(pending)
        decreases |upstream|
      {
        ghost var before := seen;
        ghost var s0 := state;
        var line, scanned := Pull();
        assert seen[..|seen| - 1] == before;
        match scanned.value {
          case Err(e) =>
            item := Some(Err(e));
            pending := Yields(upstream, state, delim);
            PulledBeforeYieldNothing(old(seen), old(upstream), seen, upstream, item.value, delim);
            return;
          case Ok(None) =>
          case Ok(Some(chunk)) =>
            if chunk != "" {
              item := Some(Ok(chunk));
              pending := Yields(upstream, state, delim);
              PulledBeforeYieldNothing(old(seen), old(upstream), seen, upstream, item.value, delim);
              return;
            }
        }
      }
      item := None;
      pending := Yields(upstream, state, delim);
    }
  }
}
