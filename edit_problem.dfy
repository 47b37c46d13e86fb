/**
 * The edit form of a problem: its state after loading, the handlers that
 * change the tag list and the list of kept attachments, and the request
 * the submit button sends to `PUT /api/problems/:id`.
 */
module EditProblem {
  import opened Wrappers
  import opened Text
  import opened Seqs
  import JsonText
  import TagEditing
  import ProblemModel
  import ProblemRoutes

  const RequiredMessage: string := "Todos os campos são obrigatórios."

  /** The body of the request: the fields as typed, the tags comma-joined, the kept files as JSON. */
  function EditRequest(title: string, description: string, category: string, youtubeLink: string,
                       tags: seq<string>, kept: seq<string>): (r: Option<ProblemRoutes.ProblemForm>)
    ensures r.None? <==> title == "" || description == "" || category == "" || tags == []
    ensures r.Some? ==> r.value.existingFiles != "" && r.value.youtubeLink == Some(youtubeLink)
  {
    if title == "" || description == "" || category == "" || |tags| == 0 then None
    else Some(ProblemRoutes.ProblemForm(title, description, category, Join(tags, ','),
                                        Some(youtubeLink), JsonText.Stringify(kept)))
  }

  /**
   * What the server makes of an accepted request: tags that are non-empty,
   * trimmed and free of commas come back as the same list, and the stored
   * files become the kept files followed by the new uploads, while every
   * current file left out of the kept list is removed.
   */
  lemma EditRequestReachesServer(title: string, description: string, category: string, youtubeLink: string,
                                 tags: seq<string>, kept: seq<string>, currentRaw: string, added: seq<string>)
    requires EditRequest(title, description, category, youtubeLink, tags, kept).Some?
    requires forall i :: 0 <= i < |tags| ==> ProblemModel.IsCleanTag(tags[i])
    requires ProblemModel.FilesOf(currentRaw).Some?
    ensures var form := EditRequest(title, description, category, youtubeLink, tags, kept).value;
      var plan := ProblemRoutes.UpdatePlan(currentRaw, form.existingFiles, added);
      && ProblemModel.TagsOf(ProblemModel.TagsRaw(ProblemModel.TagText(form.tags))) == tags
      && plan.Some?
      && plan.value.files == kept + added
      && forall f :: f in plan.value.removed <==> f in ProblemModel.FilesOf(currentRaw).value && f !in kept
  {
    ProblemModel.TagsRoundTrip(tags);
    JsonText.ParseStringify(kept);
  }

  /**
   * A tag typed with a comma in it is one tag in the form but reaches the
   * server as two: Enter keeps the text whole, the tags getter splits it.
   */
  lemma TypedCommaSplits()
    ensures TagEditing.AddTyped([], "a,b") == ["a,b"]
    ensures ProblemModel.TagsOf(Join(["a,b"], ',')) == ["a", "b"]
  {
    LowerIsLower("a,b");
    var raw := Join(["a,b"], ',');
    assert raw == ['a'] + [','] + "b";
    SplitAtSep("a", ',', "b");
    SplitNoSep("b", ',');
    assert Split(raw, ',') == ["a", "b"];
    assert Trim("a") == "a" && Trim("b") == "b";
    assert ProblemModel.TrimAll(["a", "b"]) == ["a", "b"];
  }

  class EditForm {
    var title: string
    var description: string
    var category: string
    var youtubeLink: string
    var selectedTags: seq<string>
    var existingFiles: seq<string>
    var tagInput: string
    var error: string

    /** The load effect: the problem's fields, its tags lower-cased, its files. */
    constructor Load(p: ProblemModel.ProblemJson)
      ensures title == p.title && description == p.description && category == p.category
      ensures youtubeLink == (match p.youtubeLink case Some(link) => link case None => "")
      ensures selectedTags == LowerAll(p.tags) && existingFiles == p.files
      ensures tagInput == "" && error == ""
    {
      title := p.title;
      description := p.description;
      category := p.category;
      youtubeLink := match p.youtubeLink case Some(link) => link case None => "";
      selectedTags := LowerAll(p.tags);
      existingFiles := p.files;
      tagInput := "";
      error := "";
    }

    /** `handleTagSelect`. */
    method HandleTagSelect(selected: seq<TagEditing.TagOption>)
      modifies this
      ensures selectedTags == TagEditing.SelectTags(selected)
      ensures title == old(title) && description == old(description) && category == old(category)
      ensures youtubeLink == old(youtubeLink) && existingFiles == old(existingFiles)
      ensures tagInput == old(tagInput) && error == old(error)
    {
      selectedTags := TagEditing.SelectTags(selected);
    }

    /** `handleTagKeyDown`: only Enter with some text typed does anything. */
    method HandleTagKeyDown(key: string, typed: string)
      modifies this
      ensures key == "Enter" && typed != "" ==>
        selectedTags == TagEditing.AddTyped(old(selectedTags), typed) && tagInput == ""
      ensures !(key == "Enter" && typed != "") ==>
        selectedTags == old(selectedTags) && tagInput == old(tagInput)
      ensures title == old(title) && description == old(description) && category == old(category)
      ensures youtubeLink == old(youtubeLink) && existingFiles == old(existingFiles) && error == old(error)
    {
      if key == "Enter" && typed != "" {
        var tag := Lower(typed);
        if tag !in selectedTags {
          selectedTags := selectedTags + [tag];
        }
        tagInput := "";
      }
    }

    /** `removeTag`. */
    method RemoveTag(x: string)
      modifies this
      ensures selectedTags == TagEditing.RemoveTag(old(selectedTags), x)
      ensures title == old(title) && description == old(description) && category == old(category)
      ensures youtubeLink == old(youtubeLink) && existingFiles == old(existingFiles)
      ensures tagInput == old(tagInput) && error == old(error)
    {
      selectedTags := TagEditing.RemoveTag(selectedTags, x);
    }

    /** `removeExistingFile(index)`: the attachment at that position leaves the kept list. */
    method RemoveExistingFile(index: int)
      modifies this
      ensures existingFiles == RemoveAt(old(existingFiles), index)
      ensures title == old(title) && description == old(description) && category == old(category)
      ensures youtubeLink == old(youtubeLink) && selectedTags == old(selectedTags)
      ensures tagInput == old(tagInput) && error == old(error)
    {
      existingFiles := RemoveAt(existingFiles, index);
    }

    /** The request the form would send now. */
    function Request(): Option<ProblemRoutes.ProblemForm>
      reads this
    {
      EditRequest(title, description, category, youtubeLink, selectedTags, existingFiles)
    }

    /** `handleSubmit`: the request, or the error message and nothing sent. */
    method Submit() returns (request: Option<ProblemRoutes.ProblemForm>)
      modifies this
      ensures request == old(Request())
      ensures request.None? ==> error == RequiredMessage
      ensures request.Some? ==> error == ""
      ensures title == old(title) && description == old(description) && category == old(category)
      ensures youtubeLink == old(youtubeLink) && selectedTags == old(selectedTags)
      ensures existingFiles == old(existingFiles) && tagInput == old(tagInput)
    {
      error := "";
      if title == "" || description == "" || category == "" || |selectedTags| == 0 {
        error := RequiredMessage;
        return None;
      }
      request := Some(ProblemRoutes.ProblemForm(title, description, category, Join(selectedTags, ','),
                                                Some(youtubeLink), JsonText.Stringify(existingFiles)));
    }
  }

  /**
   * Dropping the attachment at position `i` of a list without duplicates
   * and submitting makes the server remove exactly that file, when the list
   * is what the record holds.
   */
  lemma RemovedFileIsUnlinked(files: seq<string>, i: nat, added: seq<string>)
    requires NoDup(files) && i < |files|
    ensures var plan := ProblemRoutes.UpdatePlan(ProblemModel.FilesRaw(files), JsonText.Stringify(RemoveAt(files, i)), added);
      && plan.Some?
      && plan.value.files == RemoveAt(files, i) + added
      && forall f :: f in plan.value.removed <==> f == files[i]
  {
    var kept := RemoveAt(files, i);
    ProblemModel.FilesRoundTrip(files);
    JsonText.ParseStringify(kept);
    RemoveAtMembers(files, i);
    assert ProblemRoutes.UpdatePlan(ProblemModel.FilesRaw(files), JsonText.Stringify(kept), added)
      == Some(ProblemRoutes.Reconcile(files, Some(kept), added));
  }
}
