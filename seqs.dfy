/**
 * The array operations of JavaScript the wiki uses: `filter`, `includes`
 * counted by `filter(...).length`, `slice(0, n)`, and `[...new Set(xs)]`
 * (duplicates dropped, first occurrences kept in order).
 */
module Seqs {

  /** `xs.filter(keep)`: the kept elements, in order. */
  function Filter<T(!new)>(xs: seq<T>, keep: T -> bool): (r: seq<T>)
    ensures |r| <= |xs|
    ensures forall x :: x in r <==> x in xs && keep(x)
  {
    if xs == [] then []
    else (if keep(xs[0]) then [xs[0]] else []) + Filter(xs[1..], keep)
  }

  /** `a` is `b` with some elements left out and the rest in their order. */
  predicate IsSubseq<T(==)>(a: seq<T>, b: seq<T>)
    decreases |b|
  {
    if a == [] then true
    else if b == [] then false
    else (a[0] == b[0] && IsSubseq(a[1..], b[1..])) || IsSubseq(a, b[1..])
  }

  lemma {:induction false} FilterIsSubseq<T(!new)>(xs: seq<T>, keep: T -> bool)
    ensures IsSubseq(Filter(xs, keep), xs)
  {
    if xs != [] {
      FilterIsSubseq(xs[1..], keep);
      var r := Filter(xs, keep);
      if keep(xs[0]) {
        assert r[0] == xs[0] && r[1..] == Filter(xs[1..], keep);
      } else {
        assert r == Filter(xs[1..], keep);
      }
    }
  }

  /** A filter keeps everything exactly when every element passes. */
  lemma {:induction false} FilterAll<T(!new)>(xs: seq<T>, keep: T -> bool)
    requires forall x :: x in xs ==> keep(x)
    ensures Filter(xs, keep) == xs
  {
    if xs != [] {
      FilterAll(xs[1..], keep);
      assert [xs[0]] + xs[1..] == xs;
    }
  }

  /** A filter that keeps nothing gives the empty list. */
  lemma {:induction false} FilterNone<T(!new)>(xs: seq<T>, keep: T -> bool)
    requires forall x :: x in xs ==> !keep(x)
    ensures Filter(xs, keep) == []
  {
    if xs != [] {
      FilterNone(xs[1..], keep);
    }
  }

  /** Two filters in a row keep what passes both. */
  lemma {:induction false} FilterTwice<T(!new)>(xs: seq<T>, p: T -> bool, q: T -> bool, both: T -> bool)
    requires forall x :: both(x) == (p(x) && q(x))
    ensures Filter(Filter(xs, p), q) == Filter(xs, both)
  {
    if xs != [] {
      FilterTwice(xs[1..], p, q, both);
      var fp := Filter(xs, p);
      if p(xs[0]) {
        assert fp == [xs[0]] + Filter(xs[1..], p);
        assert fp[0] == xs[0] && fp[1..] == Filter(xs[1..], p);
        assert Filter(fp, q) == (if q(xs[0]) then [xs[0]] else []) + Filter(Filter(xs[1..], p), q);
      } else {
        assert fp == Filter(xs[1..], p);
      }
    }
  }

  lemma {:induction false} FilterConcat<T(!new)>(xs: seq<T>, ys: seq<T>, keep: T -> bool)
    ensures Filter(xs + ys, keep) == Filter(xs, keep) + Filter(ys, keep)
  {
    if xs == [] {
      assert xs + ys == ys;
    } else {
      var zs := xs + ys;
      assert zs != [] && zs[0] == xs[0] && zs[1..] == xs[1..] + ys;
      FilterConcat(xs[1..], ys, keep);
      var head := if keep(xs[0]) then [xs[0]] else [];
      calc {
        Filter(zs, keep);
        head + Filter(xs[1..] + ys, keep);
        head + (Filter(xs[1..], keep) + Filter(ys, keep));
        (head + Filter(xs[1..], keep)) + Filter(ys, keep);
      }
    }
  }

  /** Some element passes `p` exactly when one before the last does or the last one does. */
  lemma ExistsSnoc<T>(xs: seq<T>, p: T -> bool)
    requires xs != []
    ensures var init := xs[..|xs| - 1];
      (exists i :: 0 <= i < |xs| && p(xs[i])) <==> (exists i :: 0 <= i < |init| && p(init[i])) || p(xs[|xs| - 1])
  {
    var init := xs[..|xs| - 1];
    if exists i :: 0 <= i < |xs| && p(xs[i]) {
      var i :| 0 <= i < |xs| && p(xs[i]);
      if i < |xs| - 1 {
        assert init[i] == xs[i];
      }
    }
    if exists i :: 0 <= i < |init| && p(init[i]) {
      var i :| 0 <= i < |init| && p(init[i]);
      assert init[i] == xs[i];
    }
  }

  /** The elements at positions other than `i`: `xs.filter((_, j) => j !== i)`. */
  function RemoveAt<T>(xs: seq<T>, i: int): (r: seq<T>)
    ensures 0 <= i < |xs| ==> r == xs[..i] + xs[i + 1..]
    ensures !(0 <= i < |xs|) ==> r == xs
  {
    if 0 <= i < |xs| then xs[..i] + xs[i + 1..] else xs
  }

  /** Without duplicates, the element at `i` is the only one `RemoveAt` drops. */
  lemma RemoveAtMembers<T>(xs: seq<T>, i: int)
    requires NoDup(xs) && 0 <= i < |xs|
    ensures forall x :: x in xs ==> (x !in RemoveAt(xs, i) <==> x == xs[i])
  {
    var r := RemoveAt(xs, i);
    forall x | x in xs
      ensures x !in r <==> x == xs[i]
    {
      if x == xs[i] {
        forall j | 0 <= j < |r|
          ensures r[j] != x
        {
          if j < i {
            assert r[j] == xs[j];
          } else {
            assert r[j] == xs[j + 1];
          }
        }
      } else {
        var j :| 0 <= j < |xs| && xs[j] == x;
        if j < i {
          assert r[j] == x;
        } else {
          assert r[j - 1] == x;
        }
      }
    }
  }

  /** `xs.slice(0, n)`. */
  function Take<T>(xs: seq<T>, n: nat): (r: seq<T>)
  {
    if n <= |xs| then xs[..n] else xs
  }

  /**
   * A card's list: the first `limit` elements, and how many more there are
   * (`xs.length - limit` when over the limit, else nothing).
   */
  function Preview<T>(xs: seq<T>, limit: nat): (r: (seq<T>, nat))
    ensures |r.0| <= limit && |r.0| <= |xs| && r.0 == xs[..|r.0|]
    ensures |r.0| + r.1 == |xs|
    ensures r.1 > 0 ==> |r.0| == limit
  {
    if |xs| > limit then (xs[..limit], |xs| - limit) else (xs, 0)
  }

  predicate NoDup<T(==)>(xs: seq<T>)
  {
    forall i, j :: 0 <= i < j < |xs| ==> xs[i] != xs[j]
  }

  /** A filter of a list without duplicates has none either. */
  lemma {:induction false} FilterNoDup<T(!new)>(xs: seq<T>, keep: T -> bool)
    ensures NoDup(xs) ==> NoDup(Filter(xs, keep))
  {
    if xs != [] && NoDup(xs) {
      FilterNoDup(xs[1..], keep);
      assert xs[0] !in xs[1..];
      var rest := Filter(xs[1..], keep);
      assert xs[0] !in rest;
      if keep(xs[0]) {
        var r := [xs[0]] + rest;
        forall i, j | 0 <= i < j < |r|
          ensures r[i] != r[j]
        {
          if i == 0 {
            assert r[j] == rest[j - 1];
          } else {
            assert r[i] == rest[i - 1] && r[j] == rest[j - 1];
          }
        }
      }
    }
  }

  /**
   * `[...new Set(xs)]`: a Set keeps insertion order and ignores an element
   * it already holds, so each element appears once, at its first occurrence.
   */
  function Dedup<T(==,!new)>(xs: seq<T>): (r: seq<T>)
    ensures NoDup(r)
    ensures forall x :: x in r <==> x in xs
    decreases |xs|
  {
    if xs == [] then []
    else
      var d := Dedup(xs[..|xs| - 1]);
      if xs[|xs| - 1] in d then d else d + [xs[|xs| - 1]]
  }

  /** Adding one element to the Set: ignored when already held, else appended. */
  lemma DedupSnoc<T(!new)>(xs: seq<T>, x: T)
    ensures Dedup(xs + [x]) == if x in xs then Dedup(xs) else Dedup(xs) + [x]
  {
    assert (xs + [x])[..|xs + [x]| - 1] == xs;
  }

  /** A list without duplicates passes through the Set unchanged. */
  lemma {:induction false} DedupNoDup<T(!new)>(xs: seq<T>)
    requires NoDup(xs)
    ensures Dedup(xs) == xs
    decreases |xs|
  {
    if xs != [] {
      var init := xs[..|xs| - 1];
      DedupNoDup(init);
      assert xs[|xs| - 1] !in init;
      assert init + [xs[|xs| - 1]] == xs;
    }
  }

  /**
   * First-occurrence order: what the Set holds after a prefix of the input
   * comes first, in the same order, whatever follows.
   */
  lemma {:induction false} DedupPrefix<T(!new)>(xs: seq<T>, ys: seq<T>)
    ensures |Dedup(xs)| <= |Dedup(xs + ys)|
    ensures Dedup(xs + ys)[..|Dedup(xs)|] == Dedup(xs)
    decreases |ys|
  {
    if ys == [] {
      assert xs + ys == xs;
    } else {
      var zs := xs + ys[..|ys| - 1];
      DedupPrefix(xs, ys[..|ys| - 1]);
      assert (xs + ys)[..|xs + ys| - 1] == zs;
    }
  }
}
