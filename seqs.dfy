/** Order-preserving filtering of sequences, the model of a Python list comprehension with an `if`. */
module Seqs {

  /** The elements of `s` that satisfy `keep`, in their original order. */
  function Filter<T>(s: seq<T>, keep: T -> bool): (r: seq<T>)
    ensures |r| <= |s|
    ensures forall x :: x in r ==> x in s && keep(x)
  {
    if s == [] then [] else (if keep(s[0]) then [s[0]] else []) + Filter(s[1..], keep)
  }

  /** Filtering distributes over concatenation: the kept elements keep their relative order. */
  lemma {:induction false} FilterConcat<T>(a: seq<T>, b: seq<T>, keep: T -> bool)
    ensures Filter(a + b, keep) == Filter(a, keep) + Filter(b, keep)
  {
    if a == [] {
      assert a + b == b;
    } else {
      assert (a + b)[1..] == a[1..] + b;
      FilterConcat(a[1..], b, keep);
    }
  }

  /** Nothing that satisfies `keep` is dropped. */
  lemma {:induction false} FilterKeepsAll<T>(s: seq<T>, keep: T -> bool, x: T)
    requires x in s && keep(x)
    ensures x in Filter(s, keep)
  {
    if s[0] != x {
      FilterKeepsAll(s[1..], keep, x);
    }
  }

  /** The concatenation of `f(x)` for every `x` of `s`, in order: a list grown block by block with `+=`. */
  function FlatMap<T, U>(s: seq<T>, f: T -> seq<U>): seq<U> {
    if s == [] then [] else f(s[0]) + FlatMap(s[1..], f)
  }

  /** Growing the input by one element appends that element's block. */
  lemma {:induction false} FlatMapSnoc<T, U>(s: seq<T>, x: T, f: T -> seq<U>)
    ensures FlatMap(s + [x], f) == FlatMap(s, f) + f(x)
  {
    if s == [] {
      assert [x][1..] == [];
      assert s + [x] == [x];
    } else {
      assert (s + [x])[1..] == s[1..] + [x];
      FlatMapSnoc(s[1..], x, f);
    }
  }

  /** When every block has six elements, the result has six elements per input element. */
  lemma {:induction false} FlatMapSixLength<T, U>(s: seq<T>, f: T -> seq<U>)
    requires forall x :: |f(x)| == 6
    ensures |FlatMap(s, f)| == 6 * |s|
  {
    if s != [] {
      FlatMapSixLength(s[1..], f);
    }
  }

  /** When every block has six elements, block
      `i` sits at positions `6 * i` to `6 * i + 5`. */
  lemma {:induction false} FlatMapSixAt<T, U>(s: seq<T>, f: T -> seq<U>, i: nat)
    requires forall x :: |f(x)| == 6
    requires i < |s|
    ensures |FlatMap(s, f)| == 6 * |s|
    ensures FlatMap(s, f)[6 * i..6 * i + 6] == f(s[i])
  {
    var head, rest := f(s[0]), FlatMap(s[1..], f);
    assert FlatMap(s, f) == head + rest;
    if |s| == 1 {
      assert rest == [];
      assert head + rest == head;
    } else if i == 0 {
      FlatMapSixAt(s[1..], f, 0);
      assert (head + rest)[..6] == head;
    } else {
      FlatMapSixAt(s[1..], f, i - 1);
      assert s[1..][i - 1] == s[i];
      assert (head + rest)[6 * i..6 * i + 6] == rest[6 * (i - 1)..6 * (i - 1) + 6];
    }
  }

  /** Taking one more element of a prefix appends that element. */
  lemma PrefixSnoc<T>(s: seq<T>, i: nat)
    requires i < |s|
    ensures s[..i + 1] == s[..i] + [s[i]]
  {
  }
}
