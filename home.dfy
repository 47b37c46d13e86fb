/**
 * The home page: the list of problems narrowed by a category, a set of
 * tags and a search term, and the handlers that change those filters.
 */
module Home {
  import opened Text
  import opened Seqs
  import ProblemModel

  type Problem = ProblemModel.ProblemJson

  predicate InCategory(p: Problem, category: string)
  {
    category == "" || p.category == category
  }

  predicate HasAllTags(p: Problem, tags: seq<string>)
  {
    forall t :: t in tags ==> t in p.tags
  }

  /** The lower-cased term occurs in the lower-cased title or description. */
  predicate Matches(p: Problem, term: string)
  {
    term == "" || Contains(Lower(p.title), Lower(term)) || Contains(Lower(p.description), Lower(term))
  }

  /** A problem the home page shows under the given filters; an empty filter lets everything through. */
  predicate Shown(p: Problem, category: string, tags: seq<string>, term: string)
  {
    InCategory(p, category) && HasAllTags(p, tags) && Matches(p, term)
  }

  /** The problems shown, in their order. */
  function Visible(problems: seq<Problem>, category: string, tags: seq<string>, term: string): seq<Problem>
  {
    Filter(problems, p => Shown(p, category, tags, term))
  }

  /**
   * The filter effect: category, then tags, then the search term, each
   * applied only when set.
   */
  method FilterProblems(problems: seq<Problem>, category: string, tags: seq<string>, term: string)
    returns (filtered: seq<Problem>)
    ensures filtered == Visible(problems, category, tags, term)
    ensures IsSubseq(filtered, problems)
    ensures forall p :: p in filtered <==> p in problems && Shown(p, category, tags, term)
    ensures category == "" && tags == [] && term == "" ==> filtered == problems
  {
    ghost var byCategory := (p: Problem) => InCategory(p, category);
    ghost var byTags := (p: Problem) => InCategory(p, category) && HasAllTags(p, tags);
    filtered := problems;
    if category != "" {
      filtered := Filter(filtered, (p: Problem) => p.category == category);
    }
    assert filtered == Filter(problems, byCategory) by {
      if category == "" {
        FilterAll(problems, byCategory);
      } else {
        FilterTwice(problems, (p: Problem) => true, (p: Problem) => p.category == category, byCategory);
        FilterAll(problems, (p: Problem) => true);
      }
    }
    if |tags| > 0 {
      filtered := Filter(filtered, (p: Problem) => forall t :: t in tags ==> t in p.tags);
      FilterTwice(problems, byCategory, (p: Problem) => forall t :: t in tags ==> t in p.tags, byTags);
    } else {
      FilterTwice(problems, byCategory, (p: Problem) => true, byTags);
      FilterAll(Filter(problems, byCategory), (p: Problem) => true);
    }
    assert filtered == Filter(problems, byTags);
    if term != "" {
      var lowered := Lower(term);
      filtered := Filter(filtered, (p: Problem) => Contains(Lower(p.title), lowered) || Contains(Lower(p.description), lowered));
      FilterTwice(problems, byTags, (p: Problem) => Contains(Lower(p.title), lowered) || Contains(Lower(p.description), lowered),
                  p => Shown(p, category, tags, term));
    } else {
      FilterTwice(problems, byTags, (p: Problem) => true, p => Shown(p, category, tags, term));
      FilterAll(Filter(problems, byTags), (p: Problem) => true);
    }
    FilterIsSubseq(problems, p => Shown(p, category, tags, term));
    if category == "" && tags == [] && term == "" {
      FilterAll(problems, p => Shown(p, category, tags, term));
    }
  }

  /** `handleTagClick`: a selected tag is dropped everywhere, another one is added at the end. */
  function ToggleTag(tags: seq<string>, tag: string): (r: seq<string>)
    ensures forall t :: t in r <==> (t in tags && t != tag) || (t == tag && tag !in tags)
    ensures NoDup(tags) ==> NoDup(r)
    ensures tag !in tags ==> r == tags + [tag]
    ensures tag in tags ==> IsSubseq(r, tags)
  {
    FilterNoDup(tags, t => t != tag);
    FilterIsSubseq(tags, t => t != tag);
    if tag in tags then Filter(tags, t => t != tag) else tags + [tag]
  }

  /** Clicking an unselected tag twice gives the selection from before. */
  lemma ToggleTwice(tags: seq<string>, tag: string)
    requires tag !in tags
    ensures ToggleTag(ToggleTag(tags, tag), tag) == tags
  {
    FilterConcat(tags, [tag], t => t != tag);
    FilterAll(tags, t => t != tag);
  }

  class HomePage {
    var problems: seq<Problem>
    var filteredProblems: seq<Problem>
    var selectedTags: seq<string>
    var selectedCategory: string
    var searchTerm: string

    /** The page after the fetch: every fetched problem is shown and no filter is set. */
    constructor (fetched: seq<Problem>)
      ensures problems == fetched && filteredProblems == fetched
      ensures selectedTags == [] && selectedCategory == "" && searchTerm == ""
      ensures filteredProblems == Visible(problems, selectedCategory, selectedTags, searchTerm)
    {
      problems := fetched;
      filteredProblems := fetched;
      selectedTags := [];
      selectedCategory := "";
      searchTerm := "";
      FilterAll(fetched, p => Shown(p, "", [], ""));
    }

    /** The filter effect, run after any change of the filters or of the list. */
    method Refresh()
      modifies this
      ensures filteredProblems == Visible(problems, selectedCategory, selectedTags, searchTerm)
      ensures problems == old(problems) && selectedTags == old(selectedTags)
      ensures selectedCategory == old(selectedCategory) && searchTerm == old(searchTerm)
    {
      filteredProblems := FilterProblems(problems, selectedCategory, selectedTags, searchTerm);
    }

    method HandleTagClick(tag: string)
      modifies this
      ensures selectedTags == ToggleTag(old(selectedTags), tag)
      ensures problems == old(problems) && filteredProblems == old(filteredProblems)
      ensures selectedCategory == old(selectedCategory) && searchTerm == old(searchTerm)
    {
      if tag in selectedTags {
        selectedTags := Filter(selectedTags, t => t != tag);
      } else {
        selectedTags := selectedTags + [tag];
      }
    }

    method HandleCategoryChange(category: string)
      modifies this
      ensures selectedCategory == category
      ensures problems == old(problems) && filteredProblems == old(filteredProblems)
      ensures selectedTags == old(selectedTags) && searchTerm == old(searchTerm)
    {
      selectedCategory := category;
    }

    /** `clearFilters`: every filter back to empty, so the next refresh shows every problem. */
    method ClearFilters()
      modifies this
      ensures selectedTags == [] && selectedCategory == "" && searchTerm == ""
      ensures problems == old(problems) && filteredProblems == old(filteredProblems)
      ensures Visible(problems, selectedCategory, selectedTags, searchTerm) == problems
    {
      selectedTags := [];
      selectedCategory := "";
      searchTerm := "";
      FilterAll(problems, p => Shown(p, "", [], ""));
    }
  }
}
