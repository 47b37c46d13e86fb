/**
 * The tag editing both problem forms share: a typeahead selection becomes
 * lower-cased tags without duplicates, Enter adds the typed tag once, and
 * a tag is removed together with every tag equal to it up to case.
 */
module TagEditing {
  import opened Text
  import opened Seqs

  /** A typeahead entry: a known tag, or a new one typed in (`customOption`, whose `label` is the text). */
  datatype TagOption = Known(text: string) | Custom(name: string)

  function OptionText(o: TagOption): string
  {
    match o
    case Known(t) => t
    case Custom(name) => name
  }

  function OptionTexts(selected: seq<TagOption>): (r: seq<string>)
    ensures |r| == |selected|
    ensures forall i :: 0 <= i < |selected| ==> r[i] == OptionText(selected[i])
  {
    seq(|selected|, i requires 0 <= i < |selected| => OptionText(selected[i]))
  }

  /** `handleTagSelect`: every entry's text lower-cased, then `[...new Set(...)]`. */
  function SelectTags(selected: seq<TagOption>): (tags: seq<string>)
    ensures NoDup(tags)
    ensures forall t :: t in tags ==> IsLower(t)
    ensures forall t :: t in tags <==> LowerOfSome(OptionTexts(selected), t)
  {
    LowerAllMembers(OptionTexts(selected));
    Dedup(LowerAll(OptionTexts(selected)))
  }

  lemma LowerAllConcat(xs: seq<string>, ys: seq<string>)
    ensures LowerAll(xs + ys) == LowerAll(xs) + LowerAll(ys)
  {
    assert forall i :: 0 <= i < |xs + ys| ==> LowerAll(xs + ys)[i] == (LowerAll(xs) + LowerAll(ys))[i];
  }

  lemma OptionTextsConcat(xs: seq<TagOption>, ys: seq<TagOption>)
    ensures OptionTexts(xs + ys) == OptionTexts(xs) + OptionTexts(ys)
  {
    assert forall i :: 0 <= i < |xs + ys| ==> OptionTexts(xs + ys)[i] == (OptionTexts(xs) + OptionTexts(ys))[i];
  }

  /**
   * First-occurrence order: more entries after a selection keep the tags of
   * the selection at the front, in the same order.
   */
  lemma SelectTagsPrefix(selected: seq<TagOption>, more: seq<TagOption>)
    ensures |SelectTags(selected)| <= |SelectTags(selected + more)|
    ensures SelectTags(selected + more)[..|SelectTags(selected)|] == SelectTags(selected)
  {
    var a, b := OptionTexts(selected), OptionTexts(more);
    OptionTextsConcat(selected, more);
    LowerAllConcat(a, b);
    DedupPrefix(LowerAll(a), LowerAll(b));
    assert SelectTags(selected) == Dedup(LowerAll(a));
    assert SelectTags(selected + more) == Dedup(LowerAll(a) + LowerAll(b));
  }

  /** Selecting tags that are already lower-case and distinct gives them back unchanged. */
  lemma SelectTagsKeepsClean(tags: seq<string>)
    requires NoDup(tags)
    requires forall t :: t in tags ==> IsLower(t)
    ensures SelectTags(seq(|tags|, i requires 0 <= i < |tags| => Known(tags[i]))) == tags
  {
    var selected := seq(|tags|, i requires 0 <= i < |tags| => Known(tags[i]));
    assert OptionTexts(selected) == tags;
    forall i | 0 <= i < |tags|
      ensures Lower(tags[i]) == tags[i]
    {
      LowerIsLower(tags[i]);
    }
    assert LowerAll(tags) == tags;
    DedupNoDup(tags);
  }

  /**
   * `handleTagKeyDown` on Enter with a non-empty input: the lower-cased text
   * is appended unless the list already holds it.
   */
  function AddTyped(tags: seq<string>, typed: string): (r: seq<string>)
    ensures |tags| <= |r| <= |tags| + 1
    ensures r[..|tags|] == tags
    ensures forall t :: t in r <==> t in tags || t == Lower(typed)
    ensures NoDup(tags) ==> NoDup(r)
  {
    var tag := Lower(typed);
    if tag in tags then tags else tags + [tag]
  }

  /** Pressing Enter again with the same text changes nothing. */
  lemma AddTypedIdempotent(tags: seq<string>, typed: string)
    ensures AddTyped(AddTyped(tags, typed), typed) == AddTyped(tags, typed)
  {
  }

  predicate SameUpToCase(a: string, b: string)
  {
    Lower(a) == Lower(b)
  }

  /** `removeTag`: every tag equal to `x` up to case goes, the others stay in order. */
  function RemoveTag(tags: seq<string>, x: string): (r: seq<string>)
    ensures IsSubseq(r, tags)
    ensures forall t :: t in r <==> t in tags && !SameUpToCase(t, x)
    ensures NoDup(tags) ==> NoDup(r)
  {
    FilterIsSubseq(tags, t => !SameUpToCase(t, x));
    FilterNoDup(tags, t => !SameUpToCase(t, x));
    Filter(tags, t => !SameUpToCase(t, x))
  }

  /** Removing the tag just added by Enter gives the list from before. */
  lemma {:induction false} RemoveUndoesAdd(tags: seq<string>, typed: string)
    requires forall t :: t in tags ==> !SameUpToCase(t, typed)
    ensures RemoveTag(AddTyped(tags, typed), typed) == tags
  {
    LowerIsLower(typed);
    assert Lower(typed) !in tags;
    FilterConcat(tags, [Lower(typed)], t => !SameUpToCase(t, typed));
    FilterAll(tags, t => !SameUpToCase(t, typed));
    assert Lower(Lower(typed)) == Lower(typed);
  }
}
