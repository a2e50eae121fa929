/** Concatenating the pieces that a function assigns to the elements of a sequence. */
module Flat {

  function FlatMap<S, T>(f: S -> seq<T>, s: seq<S>): (r: seq<T>) {
    if s == [] then [] else f(s[0]) + FlatMap(f, s[1..])
  }

  lemma {:induction false} FlatMapAppend<S, T>(f: S -> seq<T>, a: seq<S>, b: seq<S>)
    ensures FlatMap(f, a + b) == FlatMap(f, a) + FlatMap(f, b)
  {
    if a == [] {
      assert a + b == b;
    } else {
      assert (a + b)[1..] == a[1..] + b;
      FlatMapAppend(f, a[1..], b);
    }
  }

  lemma FlatMapOne<S, T>(f: S -> seq<T>, x: S)
    ensures FlatMap(f, [x]) == f(x)
  {
    assert [x][1..] == [];
  }

  lemma {:induction false} FlatMapFrame<S, T>(f: S -> seq<T>, g: S -> seq<T>, s: seq<S>)
    requires forall i :: 0 <= i < |s| ==> f(s[i]) == g(s[i])
    ensures FlatMap(f, s) == FlatMap(g, s)
  {
    if s != [] {
      assert f(s[0]) == g(s[0]);
      FlatMapFrame(f, g, s[1..]);
    }
  }

  /** Every piece sits at the offset given by the pieces before it. */
  lemma {:induction false} FlatMapSplit<S, T>(f: S -> seq<T>, s: seq<S>, i: nat)
    requires i < |s|
    ensures FlatMap(f, s) == FlatMap(f, s[..i]) + f(s[i]) + FlatMap(f, s[i + 1..])
  {
    assert s == s[..i] + ([s[i]] + s[i + 1..]);
    FlatMapAppend(f, s[..i], [s[i]] + s[i + 1..]);
    FlatMapAppend(f, [s[i]], s[i + 1..]);
    FlatMapOne(f, s[i]);
  }

  /** Two neighbouring pieces. */
  lemma {:induction false} FlatMapSplit2<S, T>(f: S -> seq<T>, s: seq<S>, i: nat)
    requires i + 1 < |s|
    ensures FlatMap(f, s) == FlatMap(f, s[..i]) + (f(s[i]) + f(s[i + 1])) + FlatMap(f, s[i + 2..])
  {
    FlatMapSplit(f, s, i);
    assert s[i + 1..] == [s[i + 1]] + s[i + 2..];
    FlatMapAppend(f, [s[i + 1]], s[i + 2..]);
    FlatMapOne(f, s[i + 1]);
  }

  /** Finds the piece that holds position `k`. */
  lemma {:induction false} FlatMapFind<S, T>(f: S -> seq<T>, s: seq<S>, k: nat) returns (i: nat, j: nat)
    requires k < |FlatMap(f, s)|
    ensures i < |s| && j < |f(s[i])| && k == |FlatMap(f, s[..i])| + j
    ensures FlatMap(f, s)[k] == f(s[i])[j]
  {
    if k < |f(s[0])| {
      i, j := 0, k;
    } else {
      i, j := FlatMapFind(f, s[1..], k - |f(s[0])|);
      assert s[..i + 1] == [s[0]] + s[1..][..i];
      FlatMapAppend(f, [s[0]], s[1..][..i]);
      FlatMapOne(f, s[0]);
      i := i + 1;
    }
  }

  lemma UpdateInside<T>(a: seq<T>, e: seq<T>, c: seq<T>, j: nat, v: T)
    requires j < |e|
    ensures a + e[j := v] + c == (a + e + c)[|a| + j := v]
  {
  }
}
