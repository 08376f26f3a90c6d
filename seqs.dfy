/** Counting and locating elements of a sequence: the vocabulary in which
    the effect traces of the agent are described. */
module Seqs {

  lemma Assoc<T>(a: seq<T>, b: seq<T>, c: seq<T>)
    ensures (a + b) + c == a + (b + c)
  {
  }

  /** Number of occurrences of `x` in `s`. */
  function Count<T(==)>(s: seq<T>, x: T): (n: nat)
    ensures n <= |s|
    ensures n == 0 <==> x !in s
  {
    if s == [] then 0
    else
      assert s == [s[0]] + s[1..];
      (if s[0] == x then 1 else 0) + Count(s[1..], x)
  }

  lemma {:induction false} CountConcat<T>(a: seq<T>, b: seq<T>, x: T)
    ensures Count(a + b, x) == Count(a, x) + Count(b, x)
  {
    if a == [] {
      assert a + b == b;
    } else {
      assert (a + b)[0] == a[0];
      assert (a + b)[1..] == a[1..] + b;
      CountConcat(a[1..], b, x);
    }
  }

  /** An element that occurs nowhere else occurs exactly once. */
  lemma CountOnce<T>(a: seq<T>, x: T, b: seq<T>)
    requires x !in a && x !in b
    ensures Count(a + [x] + b, x) == 1
  {
    CountConcat(a + [x], b, x);
    CountConcat(a, [x], x);
  }

  /** Position of the first occurrence of `x` in `s`. */
  function IndexOf<T(==)>(s: seq<T>, x: T): (i: nat)
    requires x in s
    ensures i < |s| && s[i] == x && x !in s[..i]
  {
    if s[0] == x then 0
    else
      assert s == [s[0]] + s[1..];
      var j := IndexOf(s[1..], x);
      assert s[..j + 1] == [s[0]] + s[1..][..j];
      1 + j
  }

  /** The first occurrence is the only position before which `x` does not occur. */
  lemma IndexOfUnique<T>(s: seq<T>, x: T, i: nat)
    requires i < |s| && s[i] == x && x !in s[..i]
    ensures IndexOf(s, x) == i
  {
  }

  /** Where an element that does not occur in `a` first occurs after it. */
  lemma IndexOfAfter<T>(a: seq<T>, x: T, b: seq<T>)
    requires x !in a
    ensures x in a + [x] + b
    ensures IndexOf(a + [x] + b, x) == |a|
  {
    var s := a + [x] + b;
    assert s[|a|] == x;
    assert s[..|a|] == a;
    IndexOfUnique(s, x, |a|);
  }

  /** Regrouping a trace of the form p + r + d + z + tl around the element x of r. */
  lemma Regroup<T>(p: seq<T>, r1: seq<T>, x: T, m: seq<T>, d: seq<T>, z: seq<T>, tl: seq<T>)
    ensures p + (r1 + ([x] + m)) + d + z + tl == (p + r1) + ([x] + (m + d)) + (z + tl)
  {
  }

  /** Regrouping a trace of the form q + [x] + r + d + z + tl around x. */
  lemma RegroupAt<T>(q: seq<T>, x: T, r: seq<T>, d: seq<T>, z: seq<T>, tl: seq<T>)
    ensures q + [x] + r + d + z + tl == q + [x] + (r + d + z + tl)
  {
  }

  /** An element first occurs just after a prefix that lacks it. */
  lemma FirstAt<T>(a: seq<T>, x: T, m: seq<T>, z: seq<T>)
    requires x !in a
    ensures x in a + ([x] + m) + z
    ensures IndexOf(a + ([x] + m) + z, x) == |a|
  {
    assert a + ([x] + m) + z == a + [x] + (m + z);
    IndexOfAfter(a, x, m + z);
  }

  /** The middle piece of a three-piece concatenation, recovered by slicing. */
  lemma SliceAt<T>(a: seq<T>, m: seq<T>, z: seq<T>)
    ensures (a + m + z)[|a| .. |a| + |m|] == m
  {
  }
}
