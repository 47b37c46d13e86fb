/**
 * The page that lists problems by category: the problems grouped under
 * each fetched category, the group of the selected category, and each
 * category's card.
 */
module CategoryList {
  import opened Seqs
  import ProblemModel

  type Problem = ProblemModel.ProblemJson

  /** `probs.filter(problem => problem.category === category)`. */
  function OfCategory(problems: seq<Problem>, category: string): (r: seq<Problem>)
    ensures IsSubseq(r, problems)
    ensures forall p :: p in r <==> p in problems && p.category == category
  {
    FilterIsSubseq(problems, (p: Problem) => p.category == category);
    Filter(problems, (p: Problem) => p.category == category)
  }

  /** The `grouped` object once every category has its entry. */
  function Grouping(categories: seq<string>, problems: seq<Problem>): map<string, seq<Problem>>
  {
    map c | c in categories :: OfCategory(problems, c)
  }

  /** `cats.forEach(category => { grouped[category] = ... })`. */
  method GroupByCategory(categories: seq<string>, problems: seq<Problem>) returns (grouped: map<string, seq<Problem>>)
    ensures grouped == Grouping(categories, problems)
  {
    grouped := map[];
    for i := 0 to |categories|
      invariant grouped.Keys == set c | c in categories[..i]
      invariant forall c :: c in grouped ==> grouped[c] == OfCategory(problems, c)
    {
      assert categories[..i + 1] == categories[..i] + [categories[i]];
      grouped := grouped[categories[i] := OfCategory(problems, categories[i])];
    }
    assert categories[..|categories|] == categories;
  }

  /**
   * Every fetched category has an entry, and the entries split the problems
   * whose category was fetched: each sits in its own category's entry and
   * in no other.
   */
  lemma GroupingPartitions(categories: seq<string>, problems: seq<Problem>)
    ensures forall c :: c in categories <==> c in Grouping(categories, problems)
    ensures forall p :: p in problems && p.category in categories ==> p in Grouping(categories, problems)[p.category]
    ensures forall c, p :: c in Grouping(categories, problems) && p in Grouping(categories, problems)[c] ==>
      p in problems && p.category == c
  {
  }

  /** `problemsByCategory[selectedCategory] || []`. */
  function Selected(grouped: map<string, seq<Problem>>, category: string): (r: seq<Problem>)
    ensures category in grouped ==> r == grouped[category]
    ensures category !in grouped ==> r == []
  {
    if category in grouped then grouped[category] else []
  }

  /** A selected category gets exactly its problems, and one that was not fetched gets none. */
  lemma SelectedOfGrouping(categories: seq<string>, problems: seq<Problem>, category: string)
    ensures category in categories ==> Selected(Grouping(categories, problems), category) == OfCategory(problems, category)
    ensures category !in categories ==> Selected(Grouping(categories, problems), category) == []
  {
  }

  /** A category's card: its first five problems and how many more it has. */
  function CategoryCard(grouped: map<string, seq<Problem>>, category: string): (r: (seq<Problem>, nat))
    ensures |r.0| <= 5
    ensures |r.0| + r.1 == |Selected(grouped, category)|
    ensures |Selected(grouped, category)| > 5 ==> r.1 == |Selected(grouped, category)| - 5
  {
    Preview(Selected(grouped, category), 5)
  }
}
