/**
 * What the `ChunkByLine` stream of src/lib.rs yields, stated against the
 * reference definitions of `ChunkSpec`.
 */
module ChunkProps {
  import opened Streams
  import opened ChunkSpec
  import opened ChunkLib

  /** The scanner never ends the scan: every upstream item, the synthetic delimiter included, is scanned. */
  lemma ScanNeverEnds<E>(lines: seq<Result<string, E>>, delim: string)
    ensures |Scan(lines + [Ok(delim)], "", ScanFn<E>(delim))| == |lines| + 1
  {
    ScanYieldsEveryItem(lines + [Ok(delim)], "", ScanFn<E>(delim));
  }

  /** The reference chunker takes its steps with the same scanner as the stream. */
  lemma FlushFromStep<E>(x: Result<string, E>, rest: seq<Result<string, E>>, acc: string, delim: string)
    ensures FlushFrom([x] + rest, acc, delim)
         == Emitted(delim, acc, x) + FlushFrom(rest, Scanner(delim, acc, x).0, delim)
  {
  }

  lemma {:induction false} DriveIsFlush<E>(items: seq<Result<string, E>>, acc: string, delim: string)
    ensures Drive(items + [Ok(delim)], acc, delim) == FlushFrom(items, acc, delim)
  {
    var input := items + [Ok(delim)];
    DriveStep(input, acc, delim);
    if items == [] {
      assert input[1..] == [];
      assert Emitted(delim, acc, input[0]) + [] == Emitted(delim, acc, input[0]);
    } else {
      var x, rest := items[0], items[1..];
      assert input[0] == x;
      assert input[1..] == rest + [Ok(delim)];
      DriveIsFlush(rest, Scanner(delim, acc, x).0, delim);
      FlushFromStep(x, rest, acc, delim);
      assert [x] + rest == items;
    }
  }

  /**
   * Chaining a synthetic delimiter and then dropping empty chunks is the
   * same as flushing a non-empty accumulator when the input is exhausted.
   */
  lemma SyntheticDelimiterIsFlush<E>(lines: seq<Result<string, E>>, delim: string)
    ensures ChunkByLineStream(lines, delim) == Chunks(lines, delim)
  {
    DriveIsFlush(lines, "", delim);
  }

  /** Every upstream error is yielded, in order, and nothing else is an error. */
  lemma FailuresPassThrough<E>(lines: seq<Result<string, E>>, delim: string)
    ensures Errs(ChunkByLineStream(lines, delim)) == Errs(lines)
  {
    SyntheticDelimiterIsFlush(lines, delim);
  }

  /**
   * The chunks, in order, are the texts of the non-empty maximal spans of
   * the lines read successfully, so there are as many chunks as non-empty
   * spans and each is its span's lines, each followed by `'\n'`.
   */
  lemma ChunksAreJoinedSpans<E>(lines: seq<Result<string, E>>, delim: string)
    ensures Oks(ChunkByLineStream(lines, delim)) == JoinAll(NonEmptySpans(Spans(Oks(lines), delim)))
    ensures |Oks(ChunkByLineStream(lines, delim))| == |NonEmptySpans(Spans(Oks(lines), delim))|
  {
    SyntheticDelimiterIsFlush(lines, delim);
    FlushFromChunksAreSpans(lines, [], delim);
  }

  /**
   * An error between two lines does not end or lose the chunk in progress:
   * the chunks are those of the same input without the error.
   */
  lemma FailureKeepsPartialChunk<E>(before: seq<Result<string, E>>, e: E, after: seq<Result<string, E>>, delim: string)
    ensures Oks(ChunkByLineStream(before + [Err(e)] + after, delim)) == Oks(ChunkByLineStream(before + after, delim))
  {
    ChunksAreJoinedSpans(before + [Err(e)] + after, delim);
    ChunksAreJoinedSpans(before + after, delim);
    OksWithoutErr(before, e, after);
  }

  /** The fixture from its second delimiter on: the first chunk is complete, the second is flushed at the end. */
  lemma FixtureTail<E>()
    ensures FlushFrom<E>([Ok("~~~"), Ok("another"), Ok("chunk")], "multi\n\nline\nchunk\n", "~~~")
         == [Ok("multi\n\nline\nchunk\n"), Ok("another\nchunk\n")]
  {
    assert FlushFrom<E>([], "another\nchunk\n", "~~~") == [Ok("another\nchunk\n")];
    assert "another\n" + "chunk" + "\n" == "another\nchunk\n";
    assert FlushFrom<E>([Ok("chunk")], "another\n", "~~~") == [Ok("another\nchunk\n")];
    assert "" + "another" + "\n" == "another\n";
    assert FlushFrom<E>([Ok("another"), Ok("chunk")], "", "~~~") == [Ok("another\nchunk\n")];
  }

  /** The fixture from its fifth line on, with `multi`, a blank line and `line` accumulated. */
  lemma FixtureMiddle<E>()
    ensures FlushFrom<E>([Ok("chunk"), Ok("~~~"), Ok("another"), Ok("chunk")], "multi\n\nline\n", "~~~")
         == [Ok("multi\n\nline\nchunk\n"), Ok("another\nchunk\n")]
  {
    FixtureTail<E>();
    assert "multi\n\nline\n" + "chunk" + "\n" == "multi\n\nline\nchunk\n";
  }

  /** The reference chunker on the fixture of the crate's test. */
  lemma FixtureChunks<E>()
    ensures Chunks<E>([Ok("~~~"), Ok("multi"), Ok(""), Ok("line"), Ok("chunk"), Ok("~~~"), Ok("another"), Ok("chunk")], "~~~")
         == [Ok("multi\n\nline\nchunk\n"), Ok("another\nchunk\n")]
  {
    FixtureMiddle<E>();
    assert "multi\n\n" + "line" + "\n" == "multi\n\nline\n";
    assert FlushFrom<E>([Ok("line"), Ok("chunk"), Ok("~~~"), Ok("another"), Ok("chunk")], "multi\n\n", "~~~") == [Ok("multi\n\nline\nchunk\n"), Ok("another\nchunk\n")];
    assert "multi\n" + "" + "\n" == "multi\n\n";
    assert FlushFrom<E>([Ok(""), Ok("line"), Ok("chunk"), Ok("~~~"), Ok("another"), Ok("chunk")], "multi\n", "~~~") == [Ok("multi\n\nline\nchunk\n"), Ok("another\nchunk\n")];
    assert "" + "multi" + "\n" == "multi\n";
    assert FlushFrom<E>([Ok("multi"), Ok(""), Ok("line"), Ok("chunk"), Ok("~~~"), Ok("another"), Ok("chunk")], "", "~~~") == [Ok("multi\n\nline\nchunk\n"), Ok("another\nchunk\n")];
  }

  /** The fixture of the crate's test: a leading delimiter, a blank line inside a chunk, no closing delimiter. */
  lemma Fixture<E>(lines: seq<Result<string, E>>)
    requires lines == [Ok("~~~"), Ok("multi"), Ok(""), Ok("line"), Ok("chunk"), Ok("~~~"), Ok("another"), Ok("chunk")]
    ensures ChunkByLineStream(lines, "~~~") == [Ok("multi\n\nline\nchunk\n"), Ok("another\nchunk\n")]
  {
    SyntheticDelimiterIsFlush(lines, "~~~");
    FixtureChunks<E>();
  }

  /** The reference chunker on the boundary inputs of `Boundaries`. */
  lemma BoundaryChunks<E>()
    ensures Chunks<E>([Ok("a"), Ok("b")], "~~~") == [Ok("a\nb\n")]
    ensures Chunks<E>([Ok("a"), Ok("~~~")], "~~~") == [Ok("a\n")]
    ensures Chunks<E>([Ok("~~~"), Ok("~~~"), Ok("a")], "~~~") == [Ok("a\n")]
  {
    assert FlushFrom<E>([], "a\nb\n", "~~~") == [Ok("a\nb\n")];
    assert "a\n" + "b" + "\n" == "a\nb\n";
    assert FlushFrom<E>([Ok("b")], "a\n", "~~~") == [Ok("a\nb\n")];
    assert "" + "a" + "\n" == "a\n";
    assert FlushFrom<E>([Ok("a"), Ok("b")], "", "~~~") == [Ok("a\nb\n")];
    assert FlushFrom<E>([], "", "~~~") == [];
    assert FlushFrom<E>([Ok("~~~")], "a\n", "~~~") == [Ok("a\n")];
    assert FlushFrom<E>([Ok("a"), Ok("~~~")], "", "~~~") == [Ok("a\n")];
    assert FlushFrom<E>([], "a\n", "~~~") == [Ok("a\n")];
    assert FlushFrom<E>([Ok("a")], "", "~~~") == [Ok("a\n")];
    assert FlushFrom<E>([Ok("~~~"), Ok("a")], "", "~~~") == [Ok("a\n")];
    assert FlushFrom<E>([Ok("~~~"), Ok("~~~"), Ok("a")], "", "~~~") == [Ok("a\n")];
  }

  /**
   * The boundaries: a trailing span without a closing delimiter is flushed,
   * a closing delimiter adds no empty chunk, repeated delimiters add none.
   */
  lemma Boundaries<E>()
    ensures ChunkByLineStream<E>([Ok("a"), Ok("b")], "~~~") == [Ok("a\nb\n")]
    ensures ChunkByLineStream<E>([Ok("a"), Ok("~~~")], "~~~") == [Ok("a\n")]
    ensures ChunkByLineStream<E>([Ok("~~~"), Ok("~~~"), Ok("a")], "~~~") == [Ok("a\n")]
    ensures ChunkByLineStream<E>([], "~~~") == []
  {
    BoundaryChunks<E>();
    SyntheticDelimiterIsFlush<E>([Ok("a"), Ok("b")], "~~~");
    SyntheticDelimiterIsFlush<E>([Ok("a"), Ok("~~~")], "~~~");
    SyntheticDelimiterIsFlush<E>([Ok("~~~"), Ok("~~~"), Ok("a")], "~~~");
    SyntheticDelimiterIsFlush<E>([], "~~~");
  }

  /** The reference chunker on the input of `FailureInsideChunk`. */
  lemma FailureInsideChunkChunks<E>(e: E)
    ensures Chunks<E>([Ok("a"), Err(e), Ok("b"), Ok("~~~"), Ok("c")], "~~~") == [Err(e), Ok("a\nb\n"), Ok("c\n")]
  {
    assert FlushFrom<E>([], "c\n", "~~~") == [Ok("c\n")];
    assert "" + "c" + "\n" == "c\n";
    assert FlushFrom<E>([Ok("c")], "", "~~~") == [Ok("c\n")];
    assert FlushFrom<E>([Ok("~~~"), Ok("c")], "a\nb\n", "~~~") == [Ok("a\nb\n"), Ok("c\n")];
    assert "a\n" + "b" + "\n" == "a\nb\n";
    assert FlushFrom<E>([Ok("b"), Ok("~~~"), Ok("c")], "a\n", "~~~") == [Ok("a\nb\n"), Ok("c\n")];
    assert FlushFrom<E>([Err(e), Ok("b"), Ok("~~~"), Ok("c")], "a\n", "~~~") == [Err(e), Ok("a\nb\n"), Ok("c\n")];
    assert "" + "a" + "\n" == "a\n";
    assert FlushFrom<E>([Ok("a"), Err(e), Ok("b"), Ok("~~~"), Ok("c")], "", "~~~") == [Err(e), Ok("a\nb\n"), Ok("c\n")];
  }

  /** An error is yielded where it occurs and the chunk around it is yielded whole after it. */
  lemma FailureInsideChunk<E>(e: E)
    ensures ChunkByLineStream<E>([Ok("a"), Err(e), Ok("b"), Ok("~~~"), Ok("c")], "~~~")
         == [Err(e), Ok("a\nb\n"), Ok("c\n")]
  {
    FailureInsideChunkChunks(e);
    SyntheticDelimiterIsFlush<E>([Ok("a"), Err(e), Ok("b"), Ok("~~~"), Ok("c")], "~~~");
  }

  /** The reference chunker on the input of `ExactComparison`. */
  lemma ExactComparisonChunks<E>()
    ensures Chunks<E>([Ok("a"), Ok("~~~ "), Ok(" ~~~"), Ok("b")], "~~~") == [Ok("a\n~~~ \n ~~~\nb\n")]
  {
    assert FlushFrom<E>([], "a\n~~~ \n ~~~\nb\n", "~~~") == [Ok("a\n~~~ \n ~~~\nb\n")];
    assert "a\n~~~ \n ~~~\n" + "b" + "\n" == "a\n~~~ \n ~~~\nb\n";
    assert FlushFrom<E>([Ok("b")], "a\n~~~ \n ~~~\n", "~~~") == [Ok("a\n~~~ \n ~~~\nb\n")];
    assert "a\n~~~ \n" + " ~~~" + "\n" == "a\n~~~ \n ~~~\n";
    assert FlushFrom<E>([Ok(" ~~~"), Ok("b")], "a\n~~~ \n", "~~~") == [Ok("a\n~~~ \n ~~~\nb\n")];
    assert "a\n" + "~~~ " + "\n" == "a\n~~~ \n";
    assert FlushFrom<E>([Ok("~~~ "), Ok(" ~~~"), Ok("b")], "a\n", "~~~") == [Ok("a\n~~~ \n ~~~\nb\n")];
    assert "" + "a" + "\n" == "a\n";
    assert FlushFrom<E>([Ok("a"), Ok("~~~ "), Ok(" ~~~"), Ok("b")], "", "~~~") == [Ok("a\n~~~ \n ~~~\nb\n")];
  }

  /** The delimiter is compared exactly: a line that differs by surrounding blanks is text. */
  lemma ExactComparison<E>()
    ensures ChunkByLineStream<E>([Ok("a"), Ok("~~~ "), Ok(" ~~~"), Ok("b")], "~~~") == [Ok("a\n~~~ \n ~~~\nb\n")]
  {
    ExactComparisonChunks<E>();
    SyntheticDelimiterIsFlush<E>([Ok("a"), Ok("~~~ "), Ok(" ~~~"), Ok("b")], "~~~");
  }

  /**
   * A consumer that pulls from a fresh `ChunkByLine` until it is exhausted
   * receives every chunk and error of the reference chunker, in order.
   */
  method Collect<E>(lines: seq<Result<string, E>>, delim: string) returns (items: seq<Result<string, E>>)
    ensures items == Chunks(lines, delim)
  {
    var stream := new ChunkByLine(lines, delim);
    ghost var all := stream.pending;
    SyntheticDelimiterIsFlush(lines, delim);
    items := [];
    while true
      invariant stream.Valid()
      invariant items + stream.pending == all
      decreases |stream.pending|
    {
      var next := stream.Next();
      if next.None? {
        break;
      }
      Shift(items, [next.value] + stream.pending);
      items := items + [next.value];
    }
    assert items + [] == items;
  }
}
