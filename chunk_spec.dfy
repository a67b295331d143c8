/**
 * Reference definitions of what chunking by a delimiter line means,
 * written without the stream combinators:
 *  - `Chunks` is the chunker as a plain state machine that flushes a
 *    non-empty accumulator when the input is exhausted, instead of reading a
 *    synthetic trailing delimiter;
 *  - `Spans` splits a sequence of lines into its maximal delimiter-free
 *    spans, and `Joined` is the text of a span as a chunk.
 */
module ChunkSpec {
  import opened Streams

  /** The text of a span of lines as a chunk: every line followed by one `'\n'`. */
  function Joined(span: seq<string>): (r: string)
    ensures |r| >= |span|
    ensures r == "" <==> span == []
  {
    if span == [] then ""
    else Joined(span[..|span| - 1]) + span[|span| - 1] + "\n"
  }

  /**
   * The chunker of the lines still to come, `acc` being the text accumulated
   * since the last delimiter: an error is passed on at once and keeps `acc`;
   * a delimiter line emits `acc` unless it is empty and starts afresh; any
   * other line is appended to `acc` with a `'\n'`; at the end of the input a
   * non-empty `acc` is flushed as the last chunk.
   */
  function FlushFrom<E>(items: seq<Result<string, E>>, acc: string, delim: string): (r: seq<Result<string, E>>)
    ensures forall i :: 0 <= i < |r| && r[i].Ok? ==> r[i].value != ""
    ensures Errs(r) == Errs(items)
  {
    if items == [] then
      if acc == "" then [] else [Ok(acc)]
    else
      var rest := items[1..];
      match items[0]
      case Err(e) =>
        ErrsAppend([Err(e)], FlushFrom(rest, acc, delim));
        [Err(e)] + FlushFrom(rest, acc, delim)
      case Ok(l) =>
        if l == delim then
          var flushed: seq<Result<string, E>> := if acc == "" then [] else [Ok(acc)];
          ErrsAppend(flushed, FlushFrom(rest, "", delim));
          flushed + FlushFrom(rest, "", delim)
        else
          FlushFrom(rest, acc + l + "\n", delim)
  }

  /** The chunks and errors of `items`, starting with nothing accumulated. */
  function Chunks<E>(items: seq<Result<string, E>>, delim: string): seq<Result<string, E>>
  {
    FlushFrom(items, "", delim)
  }

  /**
   * Splits the lines still to come at every line equal to `delim`, `cur`
   * being the span in progress. No span holds the delimiter.
   */
  function SpansFrom(lines: seq<string>, cur: seq<string>, delim: string): (r: seq<seq<string>>)
    requires delim !in cur
    ensures |r| >= 1
    ensures forall i :: 0 <= i < |r| ==> delim !in r[i]
  {
    if lines == [] then [cur]
    else if lines[0] == delim then [cur] + SpansFrom(lines[1..], [], delim)
    else SpansFrom(lines[1..], cur + [lines[0]], delim)
  }

  /** The maximal delimiter-free spans of `lines`, in order. */
  function Spans(lines: seq<string>, delim: string): seq<seq<string>>
  {
    SpansFrom(lines, [], delim)
  }

  /** The index just after the last delimiter line of `lines`, 0 if there is none. */
  function LastDelimEnd(lines: seq<string>, delim: string): (k: nat)
    ensures k <= |lines|
    ensures k > 0 ==> lines[k - 1] == delim
    ensures delim !in lines[k..]
  {
    if lines == [] then 0
    else if lines[|lines| - 1] == delim then |lines|
    else LastDelimEnd(lines[..|lines| - 1], delim)
  }

  /**
   * The lines since the last delimiter line, which no delimiter has closed
   * yet: the longest delimiter-free suffix of `lines`.
   */
  function Unclosed(lines: seq<string>, delim: string): (r: seq<string>)
    ensures |r| <= |lines| && r == lines[|lines| - |r|..]
    ensures delim !in r
    ensures |r| < |lines| ==> lines[|lines| - |r| - 1] == delim
  {
    lines[LastDelimEnd(lines, delim)..]
  }

  function Last<T>(xs: seq<T>): T
    requires xs != []
  {
    xs[|xs| - 1]
  }

  /** Puts the delimiter back between consecutive spans. */
  function Unsplit(spans: seq<seq<string>>, delim: string): seq<string>
  {
    if spans == [] then []
    else if |spans| == 1 then spans[0]
    else spans[0] + [delim] + Unsplit(spans[1..], delim)
  }

  /** The spans that hold at least one line, in order. */
  function NonEmptySpans(spans: seq<seq<string>>): (r: seq<seq<string>>)
    ensures |r| <= |spans|
    ensures forall i :: 0 <= i < |r| ==> r[i] != [] && r[i] in spans
  {
    if spans == [] then []
    else (if spans[0] == [] then [] else [spans[0]]) + NonEmptySpans(spans[1..])
  }

  /** The chunk text of every span, in order. */
  function JoinAll(spans: seq<seq<string>>): (r: seq<string>)
    ensures |r| == |spans|
    ensures forall i :: 0 <= i < |r| ==> r[i] == Joined(spans[i])
  {
    if spans == [] then [] else [Joined(spans[0])] + JoinAll(spans[1..])
  }

  lemma {:induction false} SpansFromRoundTrip(lines: seq<string>, cur: seq<string>, delim: string)
    requires delim !in cur
    ensures Unsplit(SpansFrom(lines, cur, delim), delim) == cur + lines
  {
    if lines == [] {
      assert cur + lines == cur;
    } else if lines[0] == delim {
      var tail := SpansFrom(lines[1..], [], delim);
      SpansFromRoundTrip(lines[1..], [], delim);
      assert ([cur] + tail)[1..] == tail;
      assert [] + lines[1..] == lines[1..];
      assert cur + lines == cur + [delim] + lines[1..];
    } else {
      SpansFromRoundTrip(lines[1..], cur + [lines[0]], delim);
      assert cur + [lines[0]] + lines[1..] == cur + lines;
    }
  }

  /** Putting the delimiter back between the spans gives the lines again. */
  lemma SpansRoundTrip(lines: seq<string>, delim: string)
    ensures Unsplit(Spans(lines, delim), delim) == lines
  {
    SpansFromRoundTrip(lines, [], delim);
    assert [] + lines == lines;
  }

  /** A delimiter-free prefix of the lines only extends the span in progress. */
  lemma {:induction false} SpansFromSkip(span: seq<string>, tail: seq<string>, cur: seq<string>, delim: string)
    requires delim !in cur && delim !in span
    ensures SpansFrom(span + tail, cur, delim) == SpansFrom(tail, cur + span, delim)
  {
    if span == [] {
      assert span + tail == tail && cur + span == cur;
    } else {
      assert (span + tail)[0] == span[0];
      assert (span + tail)[1..] == span[1..] + tail;
      SpansFromSkip(span[1..], tail, cur + [span[0]], delim);
      assert cur + [span[0]] + span[1..] == cur + span;
    }
  }

  lemma {:induction false} SpansFromUnsplit(spans: seq<seq<string>>, cur: seq<string>, delim: string)
    requires |spans| >= 1 && delim !in cur
    requires forall i :: 0 <= i < |spans| ==> delim !in spans[i]
    ensures SpansFrom(Unsplit(spans, delim), cur, delim) == [cur + spans[0]] + spans[1..]
  {
    if |spans| == 1 {
      SpansFromSkip(spans[0], [], cur, delim);
      assert spans[0] + [] == spans[0];
      assert spans[1..] == [];
    } else {
      var tail := Unsplit(spans[1..], delim);
      assert Unsplit(spans, delim) == spans[0] + ([delim] + tail);
      SpansFromSkip(spans[0], [delim] + tail, cur, delim);
      assert ([delim] + tail)[1..] == tail;
      SpansFromUnsplit(spans[1..], [], delim);
      assert [] + spans[1..][0] == spans[1];
      assert [spans[1]] + spans[2..] == spans[1..];
    }
  }

  /**
   * `Spans` is the only way to cut the lines into delimiter-free spans that
   * the delimiter joins back into the lines: the spans are maximal.
   */
  lemma SpansUnique(spans: seq<seq<string>>, lines: seq<string>, delim: string)
    requires |spans| >= 1
    requires forall i :: 0 <= i < |spans| ==> delim !in spans[i]
    requires Unsplit(spans, delim) == lines
    ensures spans == Spans(lines, delim)
  {
    SpansFromUnsplit(spans, [], delim);
    assert [] + spans[0] == spans[0];
    assert [spans[0]] + spans[1..] == spans;
  }

  /**
   * The chunks the reference chunker emits, errors aside, are the texts of
   * the non-empty spans of the successfully read lines: errors neither end
   * nor split a span.
   */
  lemma {:induction false} FlushFromChunksAreSpans<E>(items: seq<Result<string, E>>, cur: seq<string>, delim: string)
    requires delim !in cur
    ensures Oks(FlushFrom(items, Joined(cur), delim))
         == JoinAll(NonEmptySpans(SpansFrom(Oks(items), cur, delim)))
  {
    var acc := Joined(cur);
    if items == [] {
      assert Oks(items) == [];
      if cur == [] {
        assert NonEmptySpans([cur]) == [] + NonEmptySpans([]);
      } else {
        assert NonEmptySpans([cur]) == [cur] + NonEmptySpans([]);
      }
    } else {
      var rest := items[1..];
      match items[0]
      case Err(e) =>
        FlushFromChunksAreSpans(rest, cur, delim);
        OksAppend([Err(e)], FlushFrom(rest, acc, delim));
        assert Oks(items) == Oks(rest);
      case Ok(l) =>
        assert Oks(items) == [l] + Oks(rest);
        assert ([l] + Oks(rest))[0] == l && ([l] + Oks(rest))[1..] == Oks(rest);
        if l == delim {
          FlushFromChunksAreSpans(rest, [], delim);
          var flushed: seq<Result<string, E>> := if acc == "" then [] else [Ok(acc)];
          OksAppend(flushed, FlushFrom(rest, "", delim));
          var tail := SpansFrom(Oks(rest), [], delim);
          assert SpansFrom(Oks(items), cur, delim) == [cur] + tail;
          assert ([cur] + tail)[1..] == tail;
          var kept := if cur == [] then [] else [cur];
          assert NonEmptySpans([cur] + tail) == kept + NonEmptySpans(tail);
          JoinAllAppend(kept, NonEmptySpans(tail));
        } else {
          FlushFromChunksAreSpans(rest, cur + [l], delim);
          assert (cur + [l])[..|cur + [l]| - 1] == cur;
          assert Joined(cur + [l]) == acc + l + "\n";
        }
    }
  }

  lemma JoinAllAppend(a: seq<seq<string>>, b: seq<seq<string>>)
    ensures JoinAll(a + b) == JoinAll(a) + JoinAll(b)
  {
  }

  /** A delimiter-free suffix that starts at the input or right after a delimiter is `Unclosed`. */
  lemma UnclosedUnique(lines: seq<string>, r: seq<string>, delim: string)
    requires |r| <= |lines| && r == lines[|lines| - |r|..]
    requires delim !in r
    requires |r| < |lines| ==> lines[|lines| - |r| - 1] == delim
    ensures r == Unclosed(lines, delim)
  {
  }

  /** A delimiter closes everything before it. */
  lemma UnclosedAfterDelim(before: seq<string>, lines: seq<string>, delim: string)
    requires lines != [] && lines[0] == delim
    ensures Unclosed(before + lines, delim) == Unclosed(lines[1..], delim)
  {
    var all, rest := before + lines, lines[1..];
    var u := Unclosed(rest, delim);
    assert all == before + [delim] + rest;
    assert all[|all| - |u|..] == rest[|rest| - |u|..];
    assert |u| == |rest| ==> all[|all| - |u| - 1] == delim;
    assert |u| < |rest| ==> all[|all| - |u| - 1] == rest[|rest| - |u| - 1];
    UnclosedUnique(all, u, delim);
  }

  /** One step of `SpansFrom` on the first line. */
  lemma SpansFromCons(lines: seq<string>, cur: seq<string>, delim: string)
    requires lines != [] && delim !in cur
    ensures lines[0] == delim ==> Last(SpansFrom(lines, cur, delim)) == Last(SpansFrom(lines[1..], [], delim))
    ensures lines[0] != delim ==> SpansFrom(lines, cur, delim) == SpansFrom(lines[1..], cur + [lines[0]], delim)
    ensures cur + lines == cur + [lines[0]] + lines[1..]
  {
    assert lines == [lines[0]] + lines[1..];
  }

  /** A delimiter line closes the lines before it; any other line extends them. */
  lemma UnclosedSnoc(lines: seq<string>, l: string, delim: string)
    ensures l == delim ==> Unclosed(lines + [l], delim) == []
    ensures l != delim ==> Unclosed(lines + [l], delim) == Unclosed(lines, delim) + [l]
  {
    var more := lines + [l];
    assert more[..|more| - 1] == lines;
    if l != delim {
      var k := LastDelimEnd(lines, delim);
      assert more[k..] == lines[k..] + [l];
    }
  }

  /** One more line adds its text and one `'\n'` to a span's text. */
  lemma JoinedSnoc(span: seq<string>, l: string)
    ensures Joined(span + [l]) == Joined(span) + l + "\n"
  {
    assert (span + [l])[..|span|] == span;
  }

  /** A span in progress without a delimiter is unclosed as a whole. */
  lemma UnclosedNil(cur: seq<string>, delim: string)
    requires delim !in cur
    ensures Unclosed(cur, delim) == cur
  {
    UnclosedUnique(cur, cur, delim);
  }

  /** With no lines left, the span in progress is the last span. */
  lemma SpansFromNil(cur: seq<string>, delim: string)
    requires delim !in cur
    ensures Last(SpansFrom([], cur, delim)) == cur
  {
  }

  /** The span in progress, `cur`, and the lines after it end in the last span. */
  lemma {:induction false} UnclosedLastSpanFrom(lines: seq<string>, cur: seq<string>, delim: string)
    requires delim !in cur
    ensures Last(SpansFrom(lines, cur, delim)) == Unclosed(cur + lines, delim)
  {
    if lines == [] {
      assert cur + lines == cur;
      SpansFromNil(cur, delim);
      UnclosedNil(cur, delim);
    } else if lines[0] == delim {
      SpansFromCons(lines, cur, delim);
      calc {
        Last(SpansFrom(lines, cur, delim));
        Last(SpansFrom(lines[1..], [], delim));
        { UnclosedLastSpanFrom(lines[1..], [], delim); }
        Unclosed([] + lines[1..], delim);
        { assert [] + lines[1..] == lines[1..]; }
        Unclosed(lines[1..], delim);
        { UnclosedAfterDelim(cur, lines, delim); }
        Unclosed(cur + lines, delim);
      }
    } else {
      SpansFromCons(lines, cur, delim);
      calc {
        Last(SpansFrom(lines, cur, delim));
        Last(SpansFrom(lines[1..], cur + [lines[0]], delim));
        { UnclosedLastSpanFrom(lines[1..], cur + [lines[0]], delim); }
        Unclosed(cur + [lines[0]] + lines[1..], delim);
        Unclosed(cur + lines, delim);
      }
    }
  }

  /** The lines since the last delimiter are the last of the maximal spans. */
  lemma UnclosedIsLastSpan(lines: seq<string>, delim: string)
    ensures Unclosed(lines, delim) == Last(Spans(lines, delim))
  {
    UnclosedLastSpanFrom(lines, [], delim);
    assert [] + lines == lines;
  }
}
