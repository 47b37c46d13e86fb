/**
 * `Array.prototype.sort()` with no comparator on an array of strings:
 * ascending order of the strings compared character by character, a proper
 * prefix first. Characters here are Unicode scalar values, while JavaScript
 * compares UTF-16 code units: the two orders differ only when a character
 * above U+FFFF meets one between U+E000 and U+FFFF at the same position.
 */
module StringSort {

  /** `a < b` for JavaScript strings. */
  predicate Less(a: string, b: string)
  {
    if a == [] then b != []
    else b != [] && (a[0] < b[0] || (a[0] == b[0] && Less(a[1..], b[1..])))
  }

  lemma {:induction false} LessIrreflexive(a: string)
    ensures !Less(a, a)
  {
    if a != [] {
      LessIrreflexive(a[1..]);
    }
  }

  lemma {:induction false} LessTransitive(a: string, b: string, c: string)
    requires Less(a, b) && Less(b, c)
    ensures Less(a, c)
  {
    if a != [] && b != [] && c != [] && a[0] == b[0] && b[0] == c[0] {
      LessTransitive(a[1..], b[1..], c[1..]);
    }
  }

  lemma {:induction false} LessTotal(a: string, b: string)
    requires a != b
    ensures Less(a, b) || Less(b, a)
  {
    if a != [] && b != [] && a[0] == b[0] {
      assert a == [a[0]] + a[1..] && b == [b[0]] + b[1..];
      LessTotal(a[1..], b[1..]);
    }
  }

  /** Every string comes before every later one: ascending, no string twice. */
  predicate StrictlySorted(xs: seq<string>)
  {
    forall i, j :: 0 <= i < j < |xs| ==> Less(xs[i], xs[j])
  }

  function Insert(x: string, xs: seq<string>): seq<string>
  {
    if xs == [] then [x]
    else if Less(xs[0], x) then [xs[0]] + Insert(x, xs[1..])
    else [x] + xs
  }

  function Sort(xs: seq<string>): seq<string>
  {
    if xs == [] then [] else Insert(xs[0], Sort(xs[1..]))
  }

  lemma {:induction false} InsertSorted(x: string, xs: seq<string>)
    requires StrictlySorted(xs) && x !in xs
    ensures StrictlySorted(Insert(x, xs))
    ensures multiset(Insert(x, xs)) == multiset(xs) + multiset{x}
  {
    if xs != [] {
      if Less(xs[0], x) {
        InsertSorted(x, xs[1..]);
        InsertAfterHead(x, xs);
      } else {
        LessTotal(x, xs[0]);
        InsertAtHead(x, xs);
      }
    }
  }

  /** `x` goes further in: the head stays in front of everything inserted after it. */
  lemma InsertAfterHead(x: string, xs: seq<string>)
    requires xs != [] && StrictlySorted(xs) && Less(xs[0], x)
    requires StrictlySorted(Insert(x, xs[1..]))
    requires multiset(Insert(x, xs[1..])) == multiset(xs[1..]) + multiset{x}
    ensures StrictlySorted(Insert(x, xs))
    ensures multiset(Insert(x, xs)) == multiset(xs) + multiset{x}
  {
    var tail := Insert(x, xs[1..]);
    assert xs == [xs[0]] + xs[1..];
    var r := [xs[0]] + tail;
    assert Insert(x, xs) == r;
    forall j | 1 <= j < |r|
      ensures Less(r[0], r[j])
    {
      assert r[j] in multiset(tail);
      assert r[j] == x || r[j] in multiset(xs[1..]);
    }
  }

  /** `x` goes first: it comes before the head, so before everything. */
  lemma InsertAtHead(x: string, xs: seq<string>)
    requires xs != [] && StrictlySorted(xs) && Less(x, xs[0])
    ensures StrictlySorted([x] + xs)
    ensures multiset([x] + xs) == multiset(xs) + multiset{x}
  {
    var r := [x] + xs;
    forall j | 1 <= j < |r|
      ensures Less(r[0], r[j])
    {
      if j > 1 {
        LessTransitive(x, xs[0], xs[j - 1]);
      }
    }
  }

  /** The sort gives the same strings, each once, in ascending order. */
  lemma {:induction false} SortSorted(xs: seq<string>)
    requires forall i, j :: 0 <= i < j < |xs| ==> xs[i] != xs[j]
    ensures StrictlySorted(Sort(xs))
    ensures multiset(Sort(xs)) == multiset(xs)
  {
    if xs != [] {
      SortSorted(xs[1..]);
      assert xs[0] !in multiset(xs[1..]);
      InsertSorted(xs[0], Sort(xs[1..]));
      assert xs == [xs[0]] + xs[1..];
    }
  }

  /** A strictly sorted list holds no string twice. */
  lemma StrictlySortedDistinct(xs: seq<string>)
    requires StrictlySorted(xs)
    ensures forall i, j :: 0 <= i < j < |xs| ==> xs[i] != xs[j]
  {
    forall i, j | 0 <= i < j < |xs|
      ensures xs[i] != xs[j]
    {
      LessIrreflexive(xs[i]);
    }
  }
}
