/**
 * The stream combinators of the `futures` crate that the chunker is composed
 * of, over finite streams: a stream is modelled as the sequence of the items
 * it yields before it ends. Polling, wakers and readiness are not modelled;
 * every future the chunker hands to a combinator is already `Ready`.
 */
module Streams {

  datatype Option<+T> = None | Some(value: T)

  /** Rust's `Result`, the item type of every stream of the chunker. */
  datatype Result<+T, +E> = Ok(value: T) | Err(error: E)

  /** The successful items of a stream of results, in order. */
  function Oks<T, E>(xs: seq<Result<T, E>>): (r: seq<T>)
    ensures |r| <= |xs|
  {
    if xs == [] then []
    else (if xs[0].Ok? then [xs[0].value] else []) + Oks(xs[1..])
  }

  /** The error payloads of a stream of results, in order. */
  function Errs<T, E>(xs: seq<Result<T, E>>): (r: seq<E>)
    ensures |r| <= |xs|
  {
    if xs == [] then []
    else (if xs[0].Err? then [xs[0].error] else []) + Errs(xs[1..])
  }

  lemma {:induction false} OksAppend<T, E>(xs: seq<Result<T, E>>, ys: seq<Result<T, E>>)
    ensures Oks(xs + ys) == Oks(xs) + Oks(ys)
  {
    if xs != [] {
      assert (xs + ys)[1..] == xs[1..] + ys;
      OksAppend(xs[1..], ys);
    } else {
      assert xs + ys == ys;
    }
  }

  /** Removing an error leaves the successful values as they were. */
  lemma OksWithoutErr<T, E>(before: seq<Result<T, E>>, e: E, after: seq<Result<T, E>>)
    ensures Oks(before + [Err(e)] + after) == Oks(before + after)
  {
    OksAppend(before + [Err(e)], after);
    OksAppend(before, [Err(e)]);
    OksAppend(before, after);
    assert Oks<T, E>([Err(e)]) == [] + Oks<T, E>([]);
  }

  lemma {:induction false} ErrsAppend<T, E>(xs: seq<Result<T, E>>, ys: seq<Result<T, E>>)
    ensures Errs(xs + ys) == Errs(xs) + Errs(ys)
  {
    if xs != [] {
      assert (xs + ys)[1..] == xs[1..] + ys;
      ErrsAppend(xs[1..], ys);
    } else {
      assert xs + ys == ys;
    }
  }

  /**
   * `StreamExt::scan`: feeds each item with the current state to `f`, which
   * returns the next state and either an item to yield or `None`, which ends
   * the stream there (the remaining upstream items are never pulled).
   */
  function Scan<S, A, B>(xs: seq<A>, state: S, f: (S, A) -> (S, Option<B>)): (r: seq<B>)
    ensures |r| <= |xs|
  {
    if xs == [] then []
    else
      var (next, out) := f(state, xs[0]);
      match out
      case None => []
      case Some(b) => [b] + Scan(xs[1..], next, f)
  }

  /** When `f` never ends the stream, `Scan` yields exactly one item per upstream item. */
  lemma {:induction false} ScanYieldsEveryItem<S, A, B>(xs: seq<A>, state: S, f: (S, A) -> (S, Option<B>))
    requires forall s, a :: f(s, a).1.Some?
    ensures |Scan(xs, state, f)| == |xs|
  {
    if xs != [] {
      ScanYieldsEveryItem(xs[1..], f(state, xs[0]).0, f);
    }
  }

  /**
   * `TryStreamExt::try_filter_map`: an `Ok(a)` item is given to `f`; its
   * `Ok(Some(b))` is yielded as `Ok(b)`, its `Ok(None)` is dropped and its
   * `Err(e)` is yielded as `Err(e)`. An `Err` item is yielded unchanged.
   */
  function TryFilterMap<A, B, E>(xs: seq<Result<A, E>>, f: A -> Result<Option<B>, E>): (r: seq<Result<B, E>>)
    ensures |r| <= |xs|
  {
    if xs == [] then []
    else
      var head: seq<Result<B, E>> :=
        match xs[0]
        case Err(e) => [Err(e)]
        case Ok(a) =>
          match f(a)
          case Err(e) => [Err(e)]
          case Ok(None) => []
          case Ok(Some(b)) => [Ok(b)];
      head + TryFilterMap(xs[1..], f)
  }

  /**
   * `TryStreamExt::try_filter`: an `Ok(x)` item is kept exactly when `p(x)`
   * holds; an `Err` item is always yielded. Nothing is added.
   */
  function TryFilter<T, E>(xs: seq<Result<T, E>>, p: T -> bool): (r: seq<Result<T, E>>)
    ensures |r| <= |xs|
    ensures forall i :: 0 <= i < |r| && r[i].Ok? ==> p(r[i].value)
    ensures forall i :: 0 <= i < |r| ==> r[i] in xs
    ensures forall i :: 0 <= i < |xs| && (xs[i].Err? || p(xs[i].value)) ==> xs[i] in r
    ensures Errs(r) == Errs(xs)
  {
    if xs == [] then []
    else
      var head := if xs[0].Err? || p(xs[0].value) then [xs[0]] else [];
      var rest := TryFilter(xs[1..], p);
      ErrsAppend(head, rest);
      head + rest
  }

  /** `try_filter_map` treats every item on its own. */
  lemma TryFilterMapCons<A, B, E>(x: Result<A, E>, xs: seq<Result<A, E>>, f: A -> Result<Option<B>, E>)
    ensures TryFilterMap([x] + xs, f) == TryFilterMap([x], f) + TryFilterMap(xs, f)
  {
    assert ([x] + xs)[1..] == xs;
    assert [x][1..] == [];
    var head := TryFilterMap([x], f);
    assert head + [] == head;
  }

  /** `try_filter` treats every item on its own. */
  lemma {:induction false} TryFilterAppend<T, E>(xs: seq<Result<T, E>>, ys: seq<Result<T, E>>, p: T -> bool)
    ensures TryFilter(xs + ys, p) == TryFilter(xs, p) + TryFilter(ys, p)
  {
    if xs == [] {
      assert xs + ys == ys;
    } else {
      assert (xs + ys)[0] == xs[0];
      assert (xs + ys)[1..] == xs[1..] + ys;
      TryFilterAppend(xs[1..], ys, p);
    }
  }

  /** `Scan` depends only on the values `f` takes, not on how `f` is written. */
  lemma {:induction false} ScanCongruent<S, A, B>(xs: seq<A>, state: S, f: (S, A) -> (S, Option<B>), g: (S, A) -> (S, Option<B>))
    requires forall s, a :: f(s, a) == g(s, a)
    ensures Scan(xs, state, f) == Scan(xs, state, g)
  {
    if xs != [] {
      ScanCongruent(xs[1..], f(state, xs[0]).0, f, g);
    }
  }

  lemma {:induction false} TryFilterMapCongruent<A, B, E>(xs: seq<Result<A, E>>, f: A -> Result<Option<B>, E>, g: A -> Result<Option<B>, E>)
    requires forall a :: f(a) == g(a)
    ensures TryFilterMap(xs, f) == TryFilterMap(xs, g)
  {
    if xs != [] {
      TryFilterMapCongruent(xs[1..], f, g);
    }
  }

  lemma {:induction false} TryFilterCongruent<T, E>(xs: seq<Result<T, E>>, p: T -> bool, q: T -> bool)
    requires forall x :: p(x) == q(x)
    ensures TryFilter(xs, p) == TryFilter(xs, q)
  {
    if xs != [] {
      TryFilterCongruent(xs[1..], p, q);
    }
  }
}
