/** Option, and folds over sequences with their concatenation laws. */
module Wrappers {
  datatype Option<+T> = None | Some(value: T)

  /** Success, and the errors -ENOENT, -EPROTO, -ENOSPC. */
  datatype Ret = Ok | NoEntry | Protocol | NoSpc

  function Fold<S, A>(f: (S, A) -> S, s: S, xs: seq<A>): S
    decreases xs
  {
    if xs == [] then s else Fold(f, f(s, xs[0]), xs[1..])
  }

  lemma {:induction false} FoldAppend<S, A>(f: (S, A) -> S, s: S, xs: seq<A>, ys: seq<A>)
    ensures Fold(f, s, xs + ys) == Fold(f, Fold(f, s, xs), ys)
    decreases xs
  {
    if xs == [] {
      assert xs + ys == ys;
    } else {
      FoldAppend(f, f(s, xs[0]), xs[1..], ys);
      assert (xs + ys)[1..] == xs[1..] + ys;
    }
  }

  lemma FoldOne<S, A>(f: (S, A) -> S, s: S, x: A)
    ensures Fold(f, s, [x]) == f(s, x)
  {
    assert Fold(f, s, [x]) == Fold(f, f(s, x), [x][1..]);
  }

  function FlatMap<A, B>(f: A -> seq<B>, xs: seq<A>): seq<B> {
    if xs == [] then [] else f(xs[0]) + FlatMap(f, xs[1..])
  }

  lemma {:induction false} FlatMapAppend<A, B>(f: A -> seq<B>, xs: seq<A>, ys: seq<A>)
    ensures FlatMap(f, xs + ys) == FlatMap(f, xs) + FlatMap(f, ys)
  {
    if xs == [] {
      assert xs + ys == ys;
    } else {
      FlatMapAppend(f, xs[1..], ys);
      AppendSlices(xs, ys, 1);
      RegroupAll(f(xs[0]), FlatMap(f, xs[1..]), FlatMap(f, ys));
    }
  }

  lemma AppendSlices<A>(a: seq<A>, b: seq<A>, n: nat)
    requires 1 <= n <= |a|
    ensures (a + b)[0] == a[0] && (a + b)[n..] == a[n..] + b && (a + b)[1..n] == a[1..n]
  {
  }

  lemma ConsAppend<A>(x: A, xs: seq<A>, ys: seq<A>)
    ensures ([x] + xs) + ys == [x] + (xs + ys)
  {
  }

  lemma RegroupAll<T>(a: seq<T>, b: seq<T>, c: seq<T>)
    ensures (a + b) + c == a + (b + c)
  {
  }

  lemma FlatMapOne<A, B>(f: A -> seq<B>, x: A)
    ensures FlatMap(f, [x]) == f(x)
  {
    assert FlatMap(f, [x]) == f(x) + FlatMap(f, [x][1..]);
  }

  lemma UpdateTwice<T>(s: seq<T>, i: nat, x: T, y: T)
    requires i < |s|
    ensures s[i := x][i := y] == s[i := y]
  {
  }

  lemma JoinSlices<T>(s: seq<T>, i: nat, j: nat)
    requires i <= j <= |s|
    ensures s[..i] + s[i..j] == s[..j]
  {
  }

  lemma DropDrop<T>(s: seq<T>, i: nat, j: nat)
    requires i + j <= |s|
    ensures s[i..][j..] == s[i + j..]
  {
  }

  lemma DropTake<T>(s: seq<T>, i: nat, j: nat, k: nat)
    requires j <= k && i + k <= |s|
    ensures s[i..][j..k] == s[i + j..i + k]
  {
  }

  lemma MiddleSlice<T>(a: seq<T>, b: seq<T>, c: seq<T>)
    ensures (a + b + c)[|a|..|a| + |b|] == b
  {
  }

  lemma SliceSlice<T>(s: seq<T>, i: nat, j: nat, k: nat, l: nat)
    requires i <= j <= |s| && k <= l && i + l <= j
    ensures s[i..j][k..l] == s[i + k..i + l]
  {
    forall x | 0 <= x < l - k ensures s[i..j][k..l][x] == s[i + k..i + l][x] {
      assert s[i..j][k + x] == s[i + k + x];
    }
  }

  /** A walk over a list that is being updated in place: position `i` is next. */
  lemma Walk<T>(s: seq<T>, was: seq<T>, i: nat, x: T)
    requires i < |s| == |was| && s[i..] == was[i..]
    ensures s[i] == was[i] && s[i := x][..i + 1] == s[..i] + [x] && s[i := x][i + 1..] == was[i + 1..]
    ensures s[..i + 1] == s[..i] + [s[i]] && s[i + 1..] == was[i + 1..]
  {
    assert s[i..][0] == was[i..][0];
    assert s[i + 1..] == s[i..][1..];
  }
}
