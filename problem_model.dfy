/**
 * The `Problem` model. Two columns are stored as text behind accessors:
 * `tags` as comma-joined text and `files_json` as JSON text. A row holds
 * the stored text; the getters decode it, the setters encode into it, and
 * `toJSON` shows the decoded values with `files_json` renamed to `files`.
 */
module ProblemModel {
  import opened Wrappers
  import opened Text
  import opened Seqs
  import JsonText

  datatype ProblemRow = ProblemRow(
    id: nat,
    title: string,
    description: string,
    category: string,
    tagsRaw: string,
    filesRaw: string,
    youtubeLink: Option<string>,
    authorId: nat,
    createdAt: int)

  /** Column defaults. */
  const DefaultCategory: string := "Geral"
  const DefaultTagsRaw: string := ""
  const DefaultFilesRaw: string := "[]"

  /** A row created with only the required columns given. */
  function WithDefaults(id: nat, title: string, description: string, authorId: nat, createdAt: int): ProblemRow
  {
    ProblemRow(id, title, description, DefaultCategory, DefaultTagsRaw, DefaultFilesRaw, None, authorId, createdAt)
  }

  /** A defaulted row decodes to no tags and no files, in category `Geral`. */
  lemma DefaultsDecode(id: nat, title: string, description: string, authorId: nat, createdAt: int)
    ensures var row := WithDefaults(id, title, description, authorId, createdAt);
      row.category == "Geral" && TagsOf(row.tagsRaw) == [] && FilesOf(row.filesRaw) == Some([])
  {
    JsonText.ParseStringify([]);
  }

  function NonEmpty(t: string): bool
  {
    t != ""
  }

  /** The `tags` getter: split on `,`, trim each piece, drop empty pieces. */
  function TagsOf(raw: string): seq<string>
  {
    if raw == "" then []
    else Filter(TrimAll(Split(raw, ',')), NonEmpty)
  }

  function TrimAll(parts: seq<string>): (r: seq<string>)
    ensures |r| == |parts|
    ensures forall i :: 0 <= i < |parts| ==> r[i] == Trim(parts[i])
  {
    if parts == [] then [] else [Trim(parts[0])] + TrimAll(parts[1..])
  }

  /** What the `tags` setter may be given. */
  datatype TagsValue = TagArray(tags: seq<string>) | TagText(text: string) | OtherValue

  /** The `tags` setter: an array is joined with `,`, a string kept, anything else is `''`. */
  function TagsRaw(v: TagsValue): string
  {
    match v
    case TagArray(tags) => Join(tags, ',')
    case TagText(text) => text
    case OtherValue => ""
  }

  /** A tag the getter can give back unchanged. */
  predicate IsCleanTag(t: string)
  {
    t != "" && ',' !in t && IsTrimmed(t)
  }

  lemma {:induction false} TrimAllClean(tags: seq<string>)
    requires forall i :: 0 <= i < |tags| ==> IsCleanTag(tags[i])
    ensures TrimAll(tags) == tags
  {
    if tags != [] {
      TrimmedFixed(tags[0]);
      TrimAllClean(tags[1..]);
      assert [tags[0]] + tags[1..] == tags;
    }
  }

  /**
   * Round trip of the `tags` accessors: setting an array of clean tags and
   * getting gives the same array.
   */
  lemma TagsRoundTrip(tags: seq<string>)
    requires forall i :: 0 <= i < |tags| ==> IsCleanTag(tags[i])
    ensures TagsOf(TagsRaw(TagArray(tags))) == tags
  {
    if tags != [] {
      SplitJoin(tags, ',');
      assert Join(tags, ',') != "" by {
        if |tags| > 1 {
          assert Join(tags, ',') == tags[0] + [','] + Join(tags[1..], ',');
        }
      }
      TrimAllClean(tags);
      FilterAll(tags, NonEmpty);
    }
  }

  /** The getter never gives an empty tag. */
  lemma TagsNonEmpty(raw: string)
    ensures forall t :: t in TagsOf(raw) ==> t != ""
  {
  }

  /** The `files_json` getter: JSON text parsed, and no text read as `[]`. */
  function FilesOf(raw: string): Option<seq<string>>
  {
    if raw == "" then Some([]) else JsonText.Parse(raw)
  }

  /** The `files_json` setter: `JSON.stringify`. */
  function FilesRaw(files: seq<string>): string
  {
    JsonText.Stringify(files)
  }

  /** Round trip of the `files_json` accessors: the same list, in the same order. */
  lemma FilesRoundTrip(files: seq<string>)
    ensures FilesOf(FilesRaw(files)) == Some(files)
  {
    JsonText.ParseStringify(files);
  }

  /** What `toJSON` shows of a problem. */
  datatype ProblemJson = ProblemJson(
    id: nat,
    title: string,
    description: string,
    category: string,
    tags: seq<string>,
    files: seq<string>,
    youtubeLink: Option<string>,
    authorId: nat,
    createdAt: int)

  /**
   * `Problem.prototype.toJSON`: the getters' values, with the file list
   * under `files`. `None` when the stored JSON does not parse (the getter
   * throws).
   */
  function ToJson(row: ProblemRow): Option<ProblemJson>
  {
    match FilesOf(row.filesRaw)
    case None => None
    case Some(files) =>
      Some(ProblemJson(row.id, row.title, row.description, row.category, TagsOf(row.tagsRaw),
                       files, row.youtubeLink, row.authorId, row.createdAt))
  }

  /**
   * After the `files_json` setter, `toJSON` shows exactly that list under
   * `files` and leaves every other field as the row has it.
   */
  lemma ToJsonAfterSetFiles(row: ProblemRow, files: seq<string>)
    ensures var j := ToJson(row.(filesRaw := FilesRaw(files)));
      && j.Some?
      && j.value.files == files
      && j.value.tags == TagsOf(row.tagsRaw)
      && j.value.id == row.id && j.value.title == row.title
      && j.value.description == row.description && j.value.category == row.category
      && j.value.youtubeLink == row.youtubeLink && j.value.authorId == row.authorId
      && j.value.createdAt == row.createdAt
  {
    FilesRoundTrip(files);
  }

  /** A loaded `Problem` instance; `save` writes `Row()` back to the table. */
  class ProblemInstance {
    const id: nat
    var title: string
    var description: string
    var category: string
    var tagsRaw: string
    var filesRaw: string
    var youtubeLink: Option<string>
    var authorId: nat
    var createdAt: int

    constructor Load(row: ProblemRow)
      ensures Row() == row
    {
      id := row.id;
      title := row.title;
      description := row.description;
      category := row.category;
      tagsRaw := row.tagsRaw;
      filesRaw := row.filesRaw;
      youtubeLink := row.youtubeLink;
      authorId := row.authorId;
      createdAt := row.createdAt;
    }

    function Row(): ProblemRow
      reads this
    {
      ProblemRow(id, title, description, category, tagsRaw, filesRaw, youtubeLink, authorId, createdAt)
    }

    /** The `tags` getter on this instance. */
    function Tags(): seq<string>
      reads this
    {
      TagsOf(tagsRaw)
    }

    /** The `tags` setter: only the stored tag text changes. */
    method SetTags(v: TagsValue)
      modifies this
      ensures Row() == old(Row()).(tagsRaw := TagsRaw(v))
      ensures v.TagArray? && (forall i :: 0 <= i < |v.tags| ==> IsCleanTag(v.tags[i])) ==> Tags() == v.tags
    {
      tagsRaw := TagsRaw(v);
      if v.TagArray? && (forall i :: 0 <= i < |v.tags| ==> IsCleanTag(v.tags[i])) {
        TagsRoundTrip(v.tags);
      }
    }

    /** The `files_json` getter on this instance. */
    function Files(): Option<seq<string>>
      reads this
    {
      FilesOf(filesRaw)
    }

    /** The `files_json` setter: only the stored JSON text changes. */
    method SetFiles(files: seq<string>)
      modifies this
      ensures Row() == old(Row()).(filesRaw := FilesRaw(files))
      ensures Files() == Some(files)
    {
      filesRaw := FilesRaw(files);
      FilesRoundTrip(files);
    }
  }

  /** The `problems` table; `id` is the auto-incremented primary key. */
  class ProblemTable {
    var rows: map<nat, ProblemRow>
    var nextId: nat

    ghost predicate Valid()
      reads this
    {
      forall k :: k in rows ==> rows[k].id == k && k < nextId
    }

    constructor ()
      ensures Valid() && rows == map[]
    {
      rows := map[];
      nextId := 0;
    }

    /** `Problem.create`: the row gets the next id. */
    method Create(row: ProblemRow) returns (id: nat)
      requires Valid()
      modifies this
      ensures Valid()
      ensures id == old(nextId) && id !in old(rows)
      ensures rows == old(rows)[id := row.(id := id)]
    {
      id := nextId;
      rows := rows[id := row.(id := id)];
      nextId := nextId + 1;
    }

    /** `problem.save()`. */
    method Save(row: ProblemRow)
      requires Valid() && row.id in rows
      modifies this
      ensures Valid() && rows == old(rows)[row.id := row]
      ensures nextId == old(nextId)
    {
      rows := rows[row.id := row];
    }

    /** `problem.destroy()`. */
    method Destroy(id: nat)
      requires Valid()
      modifies this
      ensures Valid() && rows == old(rows) - {id}
      ensures nextId == old(nextId)
    {
      rows := rows - {id};
    }
  }
}
