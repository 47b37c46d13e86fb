/**
 * The page that lists problems by tag: the tag search, the problems of the
 * selected tag, the number of problems per tag, and the cards of the most
 * used tags, sorted in place by that number.
 */
module TagList {
  import opened Wrappers
  import opened Text
  import opened Seqs
  import ProblemModel

  type Problem = ProblemModel.ProblemJson

  /** The search effect: all tags for an empty term, else those whose lower-cased form holds the lower-cased term. */
  function SearchTags(tags: seq<string>, term: string): (r: seq<string>)
    ensures IsSubseq(r, tags)
    ensures term == "" ==> r == tags
    ensures forall t :: t in r <==> t in tags && (term == "" || Contains(Lower(t), Lower(term)))
  {
    FilterIsSubseq(tags, t => Contains(Lower(t), Lower(term)));
    FilterAll(tags, (t: string) => true);
    FilterIsSubseq(tags, (t: string) => true);
    if term == "" then tags else Filter(tags, t => Contains(Lower(t), Lower(term)))
  }

  /** `problems.filter(problem => problem.tags.includes(tag))`. */
  function Tagged(problems: seq<Problem>, tag: string): seq<Problem>
  {
    Filter(problems, (p: Problem) => tag in p.tags)
  }

  /** The selected-tag effect: the problems holding the tag, or none while no tag is selected. */
  function ProblemsWithTag(problems: seq<Problem>, selected: Option<string>): (r: seq<Problem>)
    ensures IsSubseq(r, problems)
    ensures forall p :: p in r <==> p in problems && selected.Some? && selected.value != "" && selected.value in p.tags
    ensures selected.None? ==> r == []
  {
    if selected.Some? && selected.value != "" then
      FilterIsSubseq(problems, (p: Problem) => selected.value in p.tags);
      Tagged(problems, selected.value)
    else []
  }

  /** `countProblemsByTag`. */
  function CountProblemsByTag(problems: seq<Problem>, tag: string): (n: nat)
    ensures n <= |problems|
    ensures n == 0 <==> forall p :: p in problems ==> tag !in p.tags
  {
    if forall p :: p in problems ==> tag !in p.tags then
      FilterNone(problems, (p: Problem) => tag in p.tags);
      |Tagged(problems, tag)|
    else
      var p :| p in problems && tag in p.tags;
      assert p in Tagged(problems, tag);
      |Tagged(problems, tag)|
  }

  /** The count shown for a tag is the number of problems listed once that tag is selected. */
  lemma CountIsSelection(problems: seq<Problem>, tag: string)
    requires tag != ""
    ensures CountProblemsByTag(problems, tag) == |ProblemsWithTag(problems, Some(tag))|
  {
  }

  /** Larger keys first, along the whole list. */
  predicate DescendingBy(xs: seq<string>, key: string -> nat)
  {
    forall i, j :: 0 <= i < j < |xs| ==> key(xs[i]) >= key(xs[j])
  }

  method Swap(a: array<string>, i: int, j: int)
    requires 0 <= i < a.Length && 0 <= j < a.Length
    modifies a
    ensures a[..] == old(a[..])[i := old(a[j])][j := old(a[i])]
    ensures multiset(a[..]) == multiset(old(a[..]))
  {
    a[i], a[j] := a[j], a[i];
  }

  /** One step of the insertion: the string at `n` moves left past every smaller key. */
  method InsertLast(a: array<string>, n: int, key: string -> nat)
    requires 0 <= n < a.Length
    requires forall i, j :: 0 <= i < j < n ==> key(a[i]) >= key(a[j])
    modifies a
    ensures forall i, j :: 0 <= i < j <= n ==> key(a[i]) >= key(a[j])
    ensures multiset(a[..]) == multiset(old(a[..]))
  {
    var m := n;
    while m > 0 && key(a[m - 1]) < key(a[m])
      invariant 0 <= m <= n
      invariant forall i, j :: 0 <= i < j <= n && i != m && j != m ==> key(a[i]) >= key(a[j])
      invariant forall j :: m < j <= n ==> key(a[m]) >= key(a[j])
      invariant multiset(a[..]) == multiset(old(a[..]))
      decreases m
    {
      Swap(a, m - 1, m);
      m := m - 1;
    }
  }

  /**
   * `sort((a, b) => key(b) - key(a))` on the array itself: larger keys
   * first, the same strings as before.
   */
  method SortByKeyDescending(a: array<string>, key: string -> nat)
    modifies a
    ensures DescendingBy(a[..], key)
    ensures multiset(a[..]) == multiset(old(a[..]))
  {
    var n := 0;
    while n < a.Length
      invariant 0 <= n <= a.Length
      invariant forall i, j :: 0 <= i < j < n ==> key(a[i]) >= key(a[j])
      invariant multiset(a[..]) == multiset(old(a[..]))
    {
      InsertLast(a, n, key);
      n := n + 1;
    }
  }

  /**
   * The "Tags Populares" row: the searched tags sorted in place by their
   * number of problems, then the first six; no tag left out has more
   * problems than a tag shown.
   */
  method PopularTags(filteredTags: array<string>, problems: seq<Problem>) returns (popular: seq<string>)
    modifies filteredTags
    ensures multiset(filteredTags[..]) == multiset(old(filteredTags[..]))
    ensures DescendingBy(filteredTags[..], t => CountProblemsByTag(problems, t))
    ensures popular == Take(filteredTags[..], 6)
    ensures |popular| <= 6 && DescendingBy(popular, t => CountProblemsByTag(problems, t))
    ensures forall i, j :: 0 <= i < |popular| <= j < filteredTags.Length ==>
      CountProblemsByTag(problems, popular[i]) >= CountProblemsByTag(problems, filteredTags[j])
  {
    SortByKeyDescending(filteredTags, t => CountProblemsByTag(problems, t));
    popular := Take(filteredTags[..], 6);
  }

  /** A tag's card: its first three problems and how many more it has. */
  function TagCard(problems: seq<Problem>, tag: string): (r: (seq<Problem>, nat))
  {
    Preview(Tagged(problems, tag), 3)
  }

  /** A card lists at most three problems, and with the "more" line it accounts for the tag's count. */
  lemma TagCardCount(problems: seq<Problem>, tag: string)
    ensures |TagCard(problems, tag).0| <= 3
    ensures |TagCard(problems, tag).0| + TagCard(problems, tag).1 == CountProblemsByTag(problems, tag)
    ensures CountProblemsByTag(problems, tag) > 3 ==> TagCard(problems, tag).1 == CountProblemsByTag(problems, tag) - 3
  {
  }
}
