/** Sequence facts shared by the scan loops and by Kotlin's `distinct()`. */
module Seqs {

  /** The blocks of `bs` laid end to end, in the order a loop over `bs` visits them. */
  function Concat<T>(bs: seq<seq<T>>): seq<T>
  {
    if |bs| == 0 then [] else Concat(bs[..|bs| - 1]) + bs[|bs| - 1]
  }

  lemma ConcatSnoc<T>(bs: seq<seq<T>>, j: nat)
    requires j < |bs|
    ensures Concat(bs[..j + 1]) == Concat(bs[..j]) + bs[j]
  {
    assert bs[..j + 1][..j] == bs[..j];
  }

  /** What a loop has visited after `j` blocks is a prefix of what it visits in all. */
  lemma {:induction false} ConcatPrefix<T>(bs: seq<seq<T>>, j: nat)
    requires j <= |bs|
    ensures Concat(bs[..j]) <= Concat(bs)
  {
    if j == |bs| {
      assert bs[..j] == bs;
    } else {
      var n := |bs|;
      assert bs[..n - 1][..j] == bs[..j];
      ConcatPrefix(bs[..n - 1], j);
    }
  }

  /** Where block `j` sits in the concatenation. */
  lemma ConcatAt<T>(bs: seq<seq<T>>, j: nat)
    requires j < |bs|
    ensures |Concat(bs[..j + 1])| == |Concat(bs[..j])| + |bs[j]|
    ensures |Concat(bs[..j + 1])| <= |Concat(bs)|
  {
    ConcatSnoc(bs, j);
    ConcatPrefix(bs, j + 1);
  }

  /** Element `k` of block `j` in the concatenation. */
  lemma ConcatAtOffset<T>(bs: seq<seq<T>>, j: nat, k: nat)
    requires j < |bs| && k < |bs[j]|
    ensures |Concat(bs[..j])| + k < |Concat(bs)|
    ensures Concat(bs)[|Concat(bs[..j])| + k] == bs[j][k]
  {
    ConcatSnoc(bs, j);
    ConcatPrefix(bs, j + 1);
    assert Concat(bs[..j + 1])[|Concat(bs[..j])| + k] == bs[j][k];
  }

  /** `ConcatAtOffset` with the position named. */
  lemma ConcatAtPosition<T>(bs: seq<seq<T>>, j: nat, k: nat, n: nat)
    requires j < |bs| && k < |bs[j]| && n == |Concat(bs[..j])| + k
    ensures n < |Concat(bs)| && Concat(bs)[n] == bs[j][k]
  {
    ConcatAtOffset(bs, j, k);
  }

  predicate NoDuplicates<T(==)>(s: seq<T>)
  {
    forall i, j :: 0 <= i < j < |s| ==> s[i] != s[j]
  }

  /** The position of the first occurrence of `x` in `s`. */
  function FirstIndex<T(==)>(s: seq<T>, x: T): (k: nat)
    requires x in s
    ensures k < |s| && s[k] == x && x !in s[..k]
  {
    if s[0] == x then 0 else 1 + FirstIndex(s[1..], x)
  }

  /** A position holding `x` with no earlier `x` is the first occurrence. */
  lemma FirstIndexUnique<T>(s: seq<T>, x: T, k: nat)
    requires k < |s| && s[k] == x && x !in s[..k]
    ensures FirstIndex(s, x) == k
  {
  }

  /**
   * Kotlin's `distinct()`: the elements of `s` without repeats, each kept at its
   * first occurrence (a `LinkedHashSet` over `s`).
   */
  function Distinct<T(==,!new)>(s: seq<T>): (r: seq<T>)
    ensures NoDuplicates(r) && |r| <= |s|
    ensures forall x :: x in r <==> x in s
  {
    if |s| == 0 then []
    else
      var init := s[..|s| - 1];
      var d := Distinct(init);
      assert s == init + [s[|s| - 1]];
      if s[|s| - 1] in d then d else d + [s[|s| - 1]]
  }

  /** `distinct()` of a sequence without repeats is the sequence itself. */
  lemma {:induction false} DistinctOfNoDuplicates<T(!new)>(s: seq<T>)
    requires NoDuplicates(s)
    ensures Distinct(s) == s
  {
    if |s| > 0 {
      var init := s[..|s| - 1];
      assert NoDuplicates(init);
      DistinctOfNoDuplicates(init);
      assert s == init + [s[|s| - 1]];
    }
  }

  /** The elements of `b` that are not in `a`, in order. */
  function Without<T(==)>(b: seq<T>, a: seq<T>): seq<T>
  {
    if |b| == 0 then []
    else Without(b[..|b| - 1], a) + (if b[|b| - 1] in a then [] else [b[|b| - 1]])
  }

  /** `distinct()` after appending one element. */
  lemma DistinctSnoc<T(!new)>(s: seq<T>, x: T)
    ensures Distinct(s + [x]) == if x in s then Distinct(s) else Distinct(s) + [x]
  {
    assert (s + [x])[..|s|] == s;
  }

  /** `(a + b).distinct()` for repeat-free `a` and `b`: `a`, then what `b` adds. */
  lemma {:induction false} DistinctAppend<T(!new)>(a: seq<T>, b: seq<T>)
    requires NoDuplicates(a) && NoDuplicates(b)
    ensures Distinct(a + b) == a + Without(b, a)
  {
    if |b| == 0 {
      assert a + b == a;
      DistinctOfNoDuplicates(a);
    } else {
      var init := b[..|b| - 1];
      var x := b[|b| - 1];
      assert NoDuplicates(init);
      DistinctAppend(a, init);
      assert x !in init;
      assert x in a + init <==> x in a;
      DistinctAppendStep(a, Without(init, a), a + init, x);
      assert b == init + [x];
      WithoutSnoc(init, x, a);
      assert a + b == (a + init) + [x];
    }
  }

  /** One step of `DistinctAppend`: `s` is `a` followed by more, and `x` is new in `s` exactly when it is new in `a`. */
  lemma DistinctAppendStep<T(!new)>(a: seq<T>, w: seq<T>, s: seq<T>, x: T)
    requires Distinct(s) == a + w
    requires x in s <==> x in a
    ensures Distinct(s + [x]) == a + (w + if x in a then [] else [x])
  {
    DistinctSnoc(s, x);
    if x !in a {
      assert (a + w) + [x] == a + (w + [x]);
    } else {
      assert w + [] == w;
    }
  }

  lemma WithoutSnoc<T>(b: seq<T>, x: T, a: seq<T>)
    ensures Without(b + [x], a) == Without(b, a) + if x in a then [] else [x]
  {
    assert (b + [x])[..|b|] == b;
  }

  /** `distinct()` keeps the elements in the order of their first occurrences in `s`. */
  lemma {:induction false} DistinctKeepsFirstOccurrenceOrder<T(!new)>(s: seq<T>, i: nat, j: nat)
    requires i < j < |Distinct(s)|
    ensures Distinct(s)[i] in s && Distinct(s)[j] in s
    ensures FirstIndex(s, Distinct(s)[i]) < FirstIndex(s, Distinct(s)[j])
  {
    var n := |s|;
    var init := s[..n - 1];
    var last := s[n - 1];
    var d := Distinct(init);
    assert s == init + [last];
    var x, y := Distinct(s)[i], Distinct(s)[j];
    if j < |d| {
      assert x == d[i] && y == d[j];
      DistinctKeepsFirstOccurrenceOrder(init, i, j);
      FirstIndexOfExtension(init, last, x);
      FirstIndexOfExtension(init, last, y);
    } else {
      assert last !in d && y == last && x == d[i];
      assert last !in init;
      FirstIndexUnique(s, last, n - 1);
      FirstIndexOfExtension(init, last, x);
    }
  }

  lemma FirstIndexOfExtension<T>(init: seq<T>, last: T, x: T)
    requires x in init
    ensures FirstIndex(init + [last], x) == FirstIndex(init, x)
  {
    var k := FirstIndex(init, x);
    assert (init + [last])[..k] == init[..k];
    FirstIndexUnique(init + [last], x, k);
  }

  /** Index of the first element satisfying `p`, or `|s|` when there is none. */
  function FirstWhere<T>(s: seq<T>, p: T -> bool): (k: nat)
    ensures k <= |s|
    ensures forall i :: 0 <= i < k ==> !p(s[i])
    ensures k < |s| ==> p(s[k])
  {
    if |s| == 0 then 0
    else if p(s[0]) then 0
    else 1 + FirstWhere(s[1..], p)
  }

  /** Once `done + [x]` is a prefix of `s`, `x` satisfies `p` and nothing in `done` does, `x` is the first hit. */
  lemma FirstWhereAfter<T>(s: seq<T>, p: T -> bool, done: seq<T>, x: T)
    requires done + [x] <= s
    requires p(x)
    requires forall i :: 0 <= i < |done| ==> !p(done[i])
    ensures FirstWhere(s, p) == |done| && s[|done|] == x
  {
    assert s[|done|] == x;
  }

  /** A scan that has rejected everything before `n` and rejects `s[n]` has rejected everything before `n + 1`. */
  lemma FirstWhereSkip<T>(s: seq<T>, p: T -> bool, n: nat)
    requires n < |s| && FirstWhere(s, p) >= n && !p(s[n])
    ensures FirstWhere(s, p) >= n + 1
  {
  }

  /** A scan that has rejected everything before `n` and accepts `s[n]` stops at `n`. */
  lemma FirstWhereHit<T>(s: seq<T>, p: T -> bool, n: nat)
    requires n < |s| && FirstWhere(s, p) >= n && p(s[n])
    ensures FirstWhere(s, p) == n
  {
  }

  lemma FirstWhereAtLeast<T>(s: seq<T>, p: T -> bool, n: nat)
    requires n <= |s|
    requires forall i :: 0 <= i < n ==> !p(s[i])
    ensures FirstWhere(s, p) >= n
  {
  }

  /**
   * Once a scan of `Concat(bs)` has passed the blocks before `j` without a hit,
   * its result is decided by the first hit inside block `j`, if any.
   */
  lemma FirstWhereBlock<T>(bs: seq<seq<T>>, j: nat, p: T -> bool)
    requires j < |bs| && FirstWhere(Concat(bs), p) >= |Concat(bs[..j])|
    ensures |Concat(bs[..j + 1])| == |Concat(bs[..j])| + |bs[j]| <= |Concat(bs)|
    ensures FirstWhere(bs[j], p) < |bs[j]| ==>
              FirstWhere(Concat(bs), p) == |Concat(bs[..j])| + FirstWhere(bs[j], p)
    ensures FirstWhere(bs[j], p) == |bs[j]| ==> FirstWhere(Concat(bs), p) >= |Concat(bs[..j + 1])|
  {
    ConcatAt(bs, j);
    var all := Concat(bs);
    var n := |Concat(bs[..j])|;
    var k := FirstWhere(bs[j], p);
    forall i | n <= i < n + k
      ensures !p(all[i])
    {
      ConcatAtOffset(bs, j, i - n);
    }
    FirstWhereAtLeast(all, p, n + k);
    if k < |bs[j]| {
      ConcatAtOffset(bs, j, k);
      FirstWhereHit(all, p, n + k);
    }
  }

  /** A property of every element of every block holds of every element of the concatenation. */
  lemma {:induction false} ConcatForall<T>(bs: seq<seq<T>>, p: T -> bool)
    requires forall j, k :: 0 <= j < |bs| && 0 <= k < |bs[j]| ==> p(bs[j][k])
    ensures forall q :: 0 <= q < |Concat(bs)| ==> p(Concat(bs)[q])
  {
    if |bs| > 0 {
      ConcatForall(bs[..|bs| - 1], p);
    }
  }

  /** Blocks of one common length `m`: element `k` of block `j` sits at `j * m + k`. */
  lemma {:induction false} ConcatUniform<T>(bs: seq<seq<T>>, m: nat, j: nat, k: nat)
    requires forall i :: 0 <= i < |bs| ==> |bs[i]| == m
    requires j < |bs| && k < m
    ensures |Concat(bs)| == |bs| * m
    ensures j * m + k < |Concat(bs)| && Concat(bs)[j * m + k] == bs[j][k]
  {
    var n := |bs|;
    var init := bs[..n - 1];
    ConcatUniformLength(init, m);
    assert |Concat(bs)| == (n - 1) * m + m;
    if j < n - 1 {
      ConcatUniform(init, m, j, k);
      assert j * m + k < (n - 1) * m by {
        MulStep(j, n - 1, m, k);
      }
    } else {
      assert j * m + k == (n - 1) * m + k;
    }
  }

  lemma {:induction false} ConcatUniformLength<T>(bs: seq<seq<T>>, m: nat)
    requires forall i :: 0 <= i < |bs| ==> |bs[i]| == m
    ensures |Concat(bs)| == |bs| * m
  {
    if |bs| > 0 {
      ConcatUniformLength(bs[..|bs| - 1], m);
      assert |bs| * m == (|bs| - 1) * m + m;
    }
  }

  lemma MulStep(j: nat, n: nat, m: nat, k: nat)
    requires j < n && k < m
    ensures j * m + k < n * m
  {
    assert (j + 1) * m == j * m + m;
    assert (j + 1) * m <= n * m;
  }

  /** The left-to-right search that `FirstWhere` specifies. */
  method FindFirst<T>(s: seq<T>, p: T -> bool) returns (k: nat)
    ensures k == FirstWhere(s, p)
  {
    k := 0;
    while k < |s|
      invariant k <= |s|
      invariant FirstWhere(s, p) >= k
    {
      if p(s[k]) {
        FirstWhereHit(s, p, k);
        return;
      }
      FirstWhereSkip(s, p, k);
      k := k + 1;
    }
  }

  lemma FirstWhereNone<T>(s: seq<T>, p: T -> bool)
    requires forall i :: 0 <= i < |s| ==> !p(s[i])
    ensures FirstWhere(s, p) == |s|
  {
  }
  /** A sequence holding every element of a sequence without repeats is at least as long. */
  lemma {:induction false} CoverLength<T>(c: seq<T>, d: seq<T>)
    requires NoDuplicates(c)
    requires forall x :: x in c ==> x in d
    ensures |c| <= |d|
  {
    if |c| > 0 {
      var i := FirstIndex(d, c[0]);
      var rest := d[..i] + d[i + 1..];
      forall y | y in c[1..]
        ensures y in rest
      {
        var n :| 0 <= n < |c[1..]| && c[1..][n] == y;
        assert c[n + 1] == y && y in d;
        var m :| 0 <= m < |d| && d[m] == y;
        assert y != c[0];
        if m < i {
          assert rest[m] == y;
        } else {
          assert rest[m - 1] == y;
        }
      }
      assert NoDuplicates(c[1..]);
      CoverLength(c[1..], rest);
    }
  }
}
