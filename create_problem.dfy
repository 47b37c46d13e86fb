/**
 * The form that creates a problem: the tag handlers it shares with the
 * edit form, the choice of a new category through the "Outra" entry, and
 * the request the submit button sends to `POST /api/problems`.
 */
module CreateProblem {
  import opened Wrappers
  import opened Text
  import TagEditing
  import UserModel
  import ProblemRoutes

  const RequiredMessage: string := "Todos os campos são obrigatórios."

  /** The category entry that asks for a new category name. */
  const NewCategoryEntry: string := "Outra"

  /** The category sent: the typed name when a new category was asked for and given, else the chosen entry. */
  function FinalCategory(category: string, isNewCategory: bool, newCategory: string): (c: string)
    ensures c == newCategory || c == category
    ensures c != "" <==> category != "" || (isNewCategory && newCategory != "")
  {
    if isNewCategory && newCategory != "" then newCategory else category
  }

  /** The body of the request: the fields, the final category, the tags comma-joined; no kept files. */
  function CreateRequest(title: string, description: string, category: string, youtubeLink: string,
                         tags: seq<string>): (r: Option<ProblemRoutes.ProblemForm>)
    ensures r.None? <==> title == "" || description == "" || category == "" || tags == []
    ensures r.Some? ==> r.value.existingFiles == "" && r.value.category == category
  {
    if title == "" || description == "" || category == "" || |tags| == 0 then None
    else Some(ProblemRoutes.ProblemForm(title, description, category, Join(tags, ','), Some(youtubeLink), ""))
  }

  /**
   * A request the form lets through passes the server's field check when
   * no tag is empty, so a technician or an administrator whose uploads are
   * accepted gets 201.
   */
  lemma CreateRequestAccepted(title: string, description: string, category: string, youtubeLink: string,
                              tags: seq<string>, caller: UserModel.Caller, uploads: seq<ProblemRoutes.Upload>)
    requires CreateRequest(title, description, category, youtubeLink, tags).Some?
    requires forall i :: 0 <= i < |tags| ==> tags[i] != ""
    requires caller.Signed? && ProblemRoutes.MayCreate(caller.role) && ProblemRoutes.AllAccepted(uploads)
    ensures ProblemRoutes.FieldsFilled(CreateRequest(title, description, category, youtubeLink, tags).value)
    ensures ProblemRoutes.CreateStatus(caller, CreateRequest(title, description, category, youtubeLink, tags).value, uploads) == 201
  {
    if |tags| > 1 {
      assert Join(tags, ',') == tags[0] + [','] + Join(tags[1..], ',');
    }
    assert |Join(tags, ',')| > 0;
  }

  class CreateForm {
    var title: string
    var description: string
    var category: string
    var youtubeLink: string
    var selectedTags: seq<string>
    var isNewCategory: bool
    var newCategory: string
    var error: string

    /**
     * The new-category flag follows the chosen entry, and a name is only
     * kept while the flag is set (its input is shown only then).
     */
    predicate Valid()
      reads this
    {
      && (isNewCategory <==> category == NewCategoryEntry)
      && (!isNewCategory ==> newCategory == "")
    }

    constructor ()
      ensures Valid()
      ensures title == "" && description == "" && category == "" && youtubeLink == ""
      ensures selectedTags == [] && !isNewCategory && newCategory == "" && error == ""
    {
      title, description, category, youtubeLink := "", "", "", "";
      selectedTags := [];
      isNewCategory, newCategory := false, "";
      error := "";
    }

    /**
     * `handleChange`: choosing "Outra" sets the flag, any other category
     * clears it and the typed name; then the field named takes the value.
     */
    method HandleChange(name: string, value: string)
      requires Valid()
      modifies this
      ensures Valid()
      ensures name == "category" ==> category == value && isNewCategory == (value == NewCategoryEntry)
      ensures name == "category" && value != NewCategoryEntry ==> newCategory == ""
      ensures name == "category" && value == NewCategoryEntry ==> newCategory == old(newCategory)
      ensures name != "category" ==> category == old(category) && isNewCategory == old(isNewCategory) && newCategory == old(newCategory)
      ensures title == (if name == "title" then value else old(title))
      ensures description == (if name == "description" then value else old(description))
      ensures youtubeLink == (if name == "youtubeLink" then value else old(youtubeLink))
      ensures selectedTags == old(selectedTags) && error == old(error)
    {
      if name == "category" {
        if value == NewCategoryEntry {
          isNewCategory := true;
        } else {
          isNewCategory := false;
          newCategory := "";
        }
      }
      if name == "title" {
        title := value;
      } else if name == "description" {
        description := value;
      } else if name == "category" {
        category := value;
      } else if name == "youtubeLink" {
        youtubeLink := value;
      }
    }

    /** `handleNewCategoryChange`, from the input shown while "Outra" is chosen. */
    method HandleNewCategoryChange(value: string)
      requires Valid() && isNewCategory
      modifies this
      ensures Valid()
      ensures newCategory == value
      ensures title == old(title) && description == old(description) && category == old(category)
      ensures youtubeLink == old(youtubeLink) && selectedTags == old(selectedTags)
      ensures isNewCategory == old(isNewCategory) && error == old(error)
    {
      newCategory := value;
    }

    /** `handleTagSelect`. */
    method HandleTagSelect(selected: seq<TagEditing.TagOption>)
      modifies this
      ensures selectedTags == TagEditing.SelectTags(selected)
      ensures title == old(title) && description == old(description) && category == old(category)
      ensures youtubeLink == old(youtubeLink) && isNewCategory == old(isNewCategory)
      ensures newCategory == old(newCategory) && error == old(error)
    {
      selectedTags := TagEditing.SelectTags(selected);
    }

    /** `handleTagKeyDown`: Enter with some text typed adds the tag once. */
    method HandleTagKeyDown(key: string, typed: string)
      modifies this
      ensures selectedTags == if key == "Enter" && typed != "" then TagEditing.AddTyped(old(selectedTags), typed) else old(selectedTags)
      ensures title == old(title) && description == old(description) && category == old(category)
      ensures youtubeLink == old(youtubeLink) && isNewCategory == old(isNewCategory)
      ensures newCategory == old(newCategory) && error == old(error)
    {
      if key == "Enter" && typed != "" {
        var tag := Lower(typed);
        if tag !in selectedTags {
          selectedTags := selectedTags + [tag];
        }
      }
    }

    /** `removeTag`. */
    method RemoveTag(x: string)
      modifies this
      ensures selectedTags == TagEditing.RemoveTag(old(selectedTags), x)
      ensures title == old(title) && description == old(description) && category == old(category)
      ensures youtubeLink == old(youtubeLink) && isNewCategory == old(isNewCategory)
      ensures newCategory == old(newCategory) && error == old(error)
    {
      selectedTags := TagEditing.RemoveTag(selectedTags, x);
    }

    /** The request the form would send now. */
    function Request(): Option<ProblemRoutes.ProblemForm>
      reads this
    {
      CreateRequest(title, description, FinalCategory(category, isNewCategory, newCategory), youtubeLink, selectedTags)
    }

    /** `handleSubmit`: the final category replaces the chosen one, then the check. */
    method Submit() returns (request: Option<ProblemRoutes.ProblemForm>)
      modifies this
      ensures request == old(Request())
      ensures request.None? ==> error == RequiredMessage
      ensures request.Some? ==> error == ""
      ensures title == old(title) && description == old(description) && category == old(category)
      ensures youtubeLink == old(youtubeLink) && selectedTags == old(selectedTags)
      ensures isNewCategory == old(isNewCategory) && newCategory == old(newCategory)
    {
      error := "";
      var finalCategory := category;
      if isNewCategory && newCategory != "" {
        finalCategory := newCategory;
      }
      if title == "" || description == "" || finalCategory == "" || |selectedTags| == 0 {
        error := RequiredMessage;
        return None;
      }
      request := Some(ProblemRoutes.ProblemForm(title, description, finalCategory, Join(selectedTags, ','),
                                                Some(youtubeLink), ""));
    }
  }

  /**
   * In a valid form the typed name is sent exactly when "Outra" is chosen
   * and a name was typed; with none typed, the submit handler sends
   * "Outra" itself as the category. This is about the handler alone: in a
   * browser the `required` attribute of the new-category input stops such
   * a submit before the handler runs.
   */
  lemma FinalCategoryInValidForm(category: string, isNewCategory: bool, newCategory: string)
    requires isNewCategory <==> category == NewCategoryEntry
    requires !isNewCategory ==> newCategory == ""
    ensures FinalCategory(category, isNewCategory, newCategory) ==
      if category == NewCategoryEntry && newCategory != "" then newCategory else category
    ensures category == NewCategoryEntry && newCategory == "" ==>
      FinalCategory(category, isNewCategory, newCategory) == NewCategoryEntry
    ensures category != NewCategoryEntry ==> FinalCategory(category, isNewCategory, newCategory) == category
  {
  }
}
