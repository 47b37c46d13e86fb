/**
 * The `/api/problems` routes: who may create, edit and delete a problem,
 * how uploads are named and filtered, how an edit reconciles the stored
 * attachment list with the one the client kept, how a delete cleans the
 * upload directory, and the tag and category aggregations.
 */
module ProblemRoutes {
  import opened Wrappers
  import opened Text
  import opened Seqs
  import JsonText
  import opened StringSort
  import UserModel
  import opened ProblemModel
  import opened FileStore

  /** `config.ALLOWED_EXTENSIONS`. */
  const AllowedExtensions: seq<string> := ["png", "jpg", "jpeg", "gif", "pdf"]

  /** `config.UPLOAD_FOLDER`. */
  const UploadFolder: string := "uploads"

  /** One file of a multipart request, with the `uuidv4()` drawn for it. */
  datatype Upload = Upload(originalName: string, uuid: string)

  /** multer's `filename`: `${uuidv4()}_${file.originalname}`. */
  function StoredName(u: Upload): string
  {
    u.uuid + "_" + u.originalName
  }

  /** `path.join(config.UPLOAD_FOLDER, file.filename)`. */
  function StoredPath(u: Upload): string
  {
    UploadFolder + "/" + StoredName(u)
  }

  /** The stored paths of the uploads, in upload order. */
  function UploadPaths(us: seq<Upload>): (r: seq<string>)
    ensures |r| == |us|
    ensures forall i :: 0 <= i < |us| ==> r[i] == StoredPath(us[i])
  {
    if us == [] then [] else [StoredPath(us[0])] + UploadPaths(us[1..])
  }

  /**
   * Node's `path.extname` on a file name without `/`: from the last `.` on,
   * or `''` when there is no `.`, when the only `.` leads the name, or for `..`.
   */
  function ExtName(name: string): string
  {
    var k := LastIndexOf(name, '.');
    if k <= 0 || name == ".." then "" else name[k..]
  }

  /** `path.extname(name).toLowerCase().substring(1)`. */
  function Extension(name: string): string
  {
    var e := Lower(ExtName(name));
    if e == "" then "" else e[1..]
  }

  /** multer's `fileFilter`. */
  predicate Accepted(u: Upload)
  {
    Extension(u.originalName) in AllowedExtensions
  }

  predicate AllAccepted(us: seq<Upload>)
  {
    forall i :: 0 <= i < |us| ==> Accepted(us[i])
  }

  /** A name `base.ext` with a non-empty base has the lower-cased `ext` as its extension. */
  lemma ExtensionOf(base: string, ext: string)
    requires base != "" && '.' !in ext
    ensures Extension(base + "." + ext) == Lower(ext)
  {
    var name := base + "." + ext;
    AfterLastOf(base, '.', ext);
    var k := LastIndexOf(name, '.');
    assert name[|base|] == '.';
    assert k == |base|;
    assert name[k..] == "." + ext;
    assert Lower(name[k..])[1..] == Lower(ext);
  }

  /** A name whose only `.` leads it, such as `.png`, has no extension and is refused. */
  lemma DotFileRefused(ext: string, uuid: string)
    requires '.' !in ext
    ensures Extension("." + ext) == ""
    ensures !Accepted(Upload("." + ext, uuid))
  {
    AfterLastOf("", '.', ext);
    assert "" + "." + ext == "." + ext;
  }

  /**
   * An upload is accepted exactly when its name has a `.` after its first
   * character and the lower-cased text after the last `.` is allowed.
   */
  lemma AcceptedIff(u: Upload)
    ensures Accepted(u) <==>
      LastIndexOf(u.originalName, '.') > 0 && Lower(AfterLast(u.originalName, '.')) in AllowedExtensions
  {
    var name := u.originalName;
    var k := LastIndexOf(name, '.');
    if k > 0 && name != ".." {
      assert Lower(name[k..])[1..] == Lower(name[k + 1..]);
    }
  }

  /** The form fields of a create or update request; an absent field is `""`. */
  datatype ProblemForm = ProblemForm(
    title: string,
    description: string,
    category: string,
    tags: string,
    youtubeLink: Option<string>,
    existingFiles: string)

  /** Roles that may create a problem. */
  predicate MayCreate(r: UserModel.Role)
  {
    r == UserModel.Admin || r == UserModel.Tecnico
  }

  /** `!title || !description || !category || !tags` is false. */
  predicate FieldsFilled(form: ProblemForm)
  {
    form.title != "" && form.description != "" && form.category != "" && form.tags != ""
  }

  /** The status `POST /` answers. */
  function CreateStatus(caller: UserModel.Caller, form: ProblemForm, uploads: seq<Upload>): (status: nat)
    ensures status == 201 <==> caller.Signed? && AllAccepted(uploads) && MayCreate(caller.role) && FieldsFilled(form)
    ensures caller.Anonymous? ==> status == 401
    ensures caller.Signed? && !AllAccepted(uploads) ==> status == 500
    ensures caller.Signed? && AllAccepted(uploads) && !MayCreate(caller.role) ==> status == 403
    ensures caller.Signed? && AllAccepted(uploads) && MayCreate(caller.role) && !FieldsFilled(form) ==> status == 400
  {
    if caller.Anonymous? then 401
    else if !AllAccepted(uploads) then 500
    else if !MayCreate(caller.role) then 403
    else if !FieldsFilled(form) then 400
    else 201
  }

  /** The row `Problem.create` stores for a request, through the tag and file setters. */
  function NewProblemRow(id: nat, authorId: nat, form: ProblemForm, uploads: seq<Upload>, now: int): ProblemRow
  {
    ProblemRow(id, form.title, form.description, form.category, TagsRaw(TagText(form.tags)),
               FilesRaw(UploadPaths(uploads)), form.youtubeLink, authorId, now)
  }

  /**
   * A created problem reads back with the caller as author, the submitted
   * fields, the tags the getter makes of the submitted text, and the upload
   * paths in upload order.
   */
  lemma CreatedProblemReads(id: nat, authorId: nat, form: ProblemForm, uploads: seq<Upload>, now: int)
    ensures var j := ToJson(NewProblemRow(id, authorId, form, uploads, now));
      && j.Some?
      && j.value.files == UploadPaths(uploads)
      && j.value.tags == TagsOf(form.tags)
      && j.value.authorId == authorId
      && j.value.title == form.title && j.value.description == form.description
      && j.value.category == form.category && j.value.youtubeLink == form.youtubeLink
  {
    FilesRoundTrip(UploadPaths(uploads));
  }

  /**
   * `POST /`. The upload runs after the authentication check and before the
   * handler, so uploads stay on disk when the role or field check refuses
   * the request; a refused file makes multer fail the request with nothing
   * written.
   */
  method Create(table: ProblemTable, disk: Disk, caller: UserModel.Caller, form: ProblemForm, uploads: seq<Upload>, now: int)
    returns (status: nat, body: Option<ProblemJson>)
    requires table.Valid()
    modifies table, disk
    ensures table.Valid()
    ensures status == CreateStatus(caller, form, uploads)
    ensures status == 401 || status == 500 ==> disk.paths == old(disk.paths)
    ensures status != 401 && status != 500 ==> disk.paths == old(disk.paths) + PathSet(UploadPaths(uploads))
    ensures status == 201 ==>
      && caller.Signed?
      && table.rows == old(table.rows)[old(table.nextId) := NewProblemRow(old(table.nextId), caller.id, form, uploads, now)]
      && body == ToJson(NewProblemRow(old(table.nextId), caller.id, form, uploads, now))
    ensures status != 201 ==> table.rows == old(table.rows) && body.None?
  {
    if caller.Anonymous? {
      return 401, None;
    }
    if !AllAccepted(uploads) {
      return 500, None;
    }
    disk.Write(UploadPaths(uploads));
    if !MayCreate(caller.role) {
      return 403, None;
    }
    if !FieldsFilled(form) {
      return 400, None;
    }
    var id := table.Create(NewProblemRow(0, caller.id, form, uploads, now));
    status := 201;
    body := ToJson(NewProblemRow(id, caller.id, form, uploads, now));
  }

  /** The outcome of a route's permission middleware. */
  datatype Gate = Allow | Deny(status: nat)

  /** The `canEdit` middleware: 401, then 404, then admin or author, else 403. */
  function EditGate(caller: UserModel.Caller, rows: map<nat, ProblemRow>, id: nat): (g: Gate)
    ensures g == Allow <==> caller.Signed? && id in rows && (caller.role == UserModel.Admin || rows[id].authorId == caller.id)
    ensures g == Deny(403) <==> caller.Signed? && id in rows && caller.role != UserModel.Admin && rows[id].authorId != caller.id
    ensures caller.Anonymous? ==> g == Deny(401)
    ensures caller.Signed? && id !in rows ==> g == Deny(404)
  {
    if caller.Anonymous? then Deny(401)
    else if id !in rows then Deny(404)
    else if caller.role == UserModel.Admin || rows[id].authorId == caller.id then Allow
    else Deny(403)
  }

  /** The attachment list after an edit and the attachments it unlinks. */
  datatype Reconciliation = Reconciliation(files: seq<string>, removed: seq<string>)

  /**
   * With a kept list: unlink the current files it does not list, and keep
   * the list followed by the new uploads. Without one: append the uploads.
   * The kept list is not checked against the current files.
   */
  function Reconcile(current: seq<string>, kept: Option<seq<string>>, added: seq<string>): (r: Reconciliation)
    ensures forall f :: f in r.removed <==> kept.Some? && f in current && f !in kept.value
    ensures forall f :: f in current ==> f in r.files || f in r.removed
    ensures forall f :: f in r.files <==> f in added || (if kept.Some? then f in kept.value else f in current)
  {
    match kept
    case None => Reconciliation(current + added, [])
    case Some(k) => Reconciliation(k + added, Filter(current, f => f !in k))
  }

  /** Keeping every current file and uploading nothing changes nothing. */
  lemma ReconcileKeepAll(current: seq<string>)
    ensures Reconcile(current, Some(current), []) == Reconciliation(current, [])
  {
    assert current + [] == current;
    FilterNone(current, f => f !in current);
  }

  /** The order of the new list: kept files (or current ones) first, uploads last. */
  lemma ReconcileOrder(current: seq<string>, kept: Option<seq<string>>, added: seq<string>)
    ensures var r := Reconcile(current, kept, added);
      && |r.files| == |added| + (if kept.Some? then |kept.value| else |current|)
      && r.files[|r.files| - |added|..] == added
      && r.files[..|r.files| - |added|] == (if kept.Some? then kept.value else current)
  {
  }

  /** A kept list may name a file the problem never had; it is stored as given. */
  lemma KeptListUnchecked(current: seq<string>, stranger: string)
    requires stranger !in current
    ensures stranger in Reconcile(current, Some([stranger]), []).files
    ensures Reconcile(current, Some([stranger]), []).removed == current
  {
    FilterAll(current, f => f !in [stranger]);
  }

  /**
   * What the handler makes of the stored and the submitted file lists:
   * `None` when either fails to parse (the handler throws, 500).
   */
  function UpdatePlan(currentRaw: string, existingFiles: string, added: seq<string>): Option<Reconciliation>
  {
    if existingFiles != "" then
      match JsonText.Parse(existingFiles)
      case None => None
      case Some(kept) =>
        match FilesOf(currentRaw)
        case None => None
        case Some(current) => Some(Reconcile(current, Some(kept), added))
    else
      match FilesOf(currentRaw)
      case None => None
      case Some(current) => Some(Reconcile(current, None, added))
  }

  /** A client that sends back the stored list, unchanged, with no uploads keeps the list. */
  lemma UpdatePlanResend(files: seq<string>)
    ensures UpdatePlan(FilesRaw(files), JsonText.Stringify(files), []) == Some(Reconciliation(files, []))
  {
    JsonText.ParseStringify(files);
    FilesRoundTrip(files);
    ReconcileKeepAll(files);
  }

  /** Title, description, category and tags change when given non-empty; the link whenever given. */
  function UpdatedFields(row: ProblemRow, form: ProblemForm): ProblemRow
  {
    row.(title := if form.title != "" then form.title else row.title,
         description := if form.description != "" then form.description else row.description,
         category := if form.category != "" then form.category else row.category,
         tagsRaw := if form.tags != "" then TagsRaw(TagText(form.tags)) else row.tagsRaw,
         youtubeLink := if form.youtubeLink.Some? then form.youtubeLink else row.youtubeLink)
  }

  /** An empty form leaves every field as it was. */
  lemma UpdatedFieldsEmpty(row: ProblemRow, existingFiles: string)
    ensures UpdatedFields(row, ProblemForm("", "", "", "", None, existingFiles)) == row
  {
  }

  /** The status `PUT /:id` answers. */
  function UpdateStatus(caller: UserModel.Caller, rows: map<nat, ProblemRow>, id: nat, form: ProblemForm, uploads: seq<Upload>): (status: nat)
    ensures status == 200 ==> id in rows && caller.Signed? && (caller.role == UserModel.Admin || rows[id].authorId == caller.id)
    ensures status == 200 <==>
      EditGate(caller, rows, id) == Allow && AllAccepted(uploads)
      && UpdatePlan(rows[id].filesRaw, form.existingFiles, UploadPaths(uploads)).Some?
    ensures EditGate(caller, rows, id).Deny? ==> status == EditGate(caller, rows, id).status
    ensures EditGate(caller, rows, id) == Allow && status != 200 ==> status == 500
  {
    match EditGate(caller, rows, id)
    case Deny(s) => s
    case Allow =>
      if !AllAccepted(uploads) then 500
      else if UpdatePlan(rows[id].filesRaw, form.existingFiles, UploadPaths(uploads)).None? then 500
      else 200
  }

  /**
   * `PUT /:id`: the fields of the loaded problem are overwritten, the files
   * the kept list drops are unlinked, the new list is stored through the
   * `files_json` setter and the problem saved.
   */
  method Update(table: ProblemTable, disk: Disk, caller: UserModel.Caller, id: nat, form: ProblemForm, uploads: seq<Upload>)
    returns (status: nat, body: Option<ProblemJson>)
    requires table.Valid()
    modifies table, disk
    ensures table.Valid()
    ensures status == UpdateStatus(caller, old(table.rows), id, form, uploads)
    ensures status == 200 ==>
      && id in old(table.rows)
      && var plan := UpdatePlan(old(table.rows)[id].filesRaw, form.existingFiles, UploadPaths(uploads)).value;
      && var row := UpdatedFields(old(table.rows)[id], form).(filesRaw := FilesRaw(plan.files));
      && table.rows == old(table.rows)[id := row]
      && disk.paths == old(disk.paths) + PathSet(UploadPaths(uploads)) - PathSet(plan.removed)
      && body == ToJson(row)
    ensures status != 200 ==> table.rows == old(table.rows) && body.None?
    ensures status != 200 && EditGate(caller, old(table.rows), id) == Allow && AllAccepted(uploads) ==>
      disk.paths == old(disk.paths) + PathSet(UploadPaths(uploads))
    ensures status != 200 && (EditGate(caller, old(table.rows), id) != Allow || !AllAccepted(uploads)) ==>
      disk.paths == old(disk.paths)
  {
    var gate := EditGate(caller, table.rows, id);
    if gate.Deny? {
      return gate.status, None;
    }
    if !AllAccepted(uploads) {
      return 500, None;
    }
    var added := UploadPaths(uploads);
    disk.Write(added);
    var problem := new ProblemInstance.Load(table.rows[id]);
    ApplyFields(problem, form);
    var files := ReconcileFiles(problem, disk, form.existingFiles, added);
    if files.None? {
      return 500, None;
    }
    problem.SetFiles(files.value);
    table.Save(problem.Row());
    status := 200;
    body := ToJson(problem.Row());
  }

  /** `if (title) problem.title = title; ...`: the field assignments of `PUT /:id`. */
  method ApplyFields(problem: ProblemInstance, form: ProblemForm)
    modifies problem
    ensures problem.Row() == UpdatedFields(old(problem.Row()), form)
  {
    if form.title != "" {
      problem.title := form.title;
    }
    if form.description != "" {
      problem.description := form.description;
    }
    if form.category != "" {
      problem.category := form.category;
    }
    if form.tags != "" {
      problem.SetTags(TagText(form.tags));
    }
    if form.youtubeLink.Some? {
      problem.youtubeLink := form.youtubeLink;
    }
  }

  /**
   * The file block of `PUT /:id`: read the kept list and the stored list,
   * unlink the stored files the kept list drops, and append the uploads.
   * `None` when either list fails to parse, before anything is unlinked.
   */
  method ReconcileFiles(problem: ProblemInstance, disk: Disk, existingFiles: string, added: seq<string>)
    returns (files: Option<seq<string>>)
    modifies disk
    ensures var plan := UpdatePlan(problem.filesRaw, existingFiles, added);
      && (files.None? <==> plan.None?)
      && (plan.Some? ==> files == Some(plan.value.files) && disk.paths == old(disk.paths) - PathSet(plan.value.removed))
      && (plan.None? ==> disk.paths == old(disk.paths))
  {
    var currentFiles: seq<string>;
    if existingFiles != "" {
      var kept := JsonText.Parse(existingFiles);
      if kept.None? {
        return None;
      }
      var current := problem.Files();
      if current.None? {
        return None;
      }
      var toRemove := Filter(current.value, f => f !in kept.value);
      disk.UnlinkEach(toRemove);
      currentFiles := kept.value;
    } else {
      var current := problem.Files();
      if current.None? {
        return None;
      }
      currentFiles := current.value;
    }
    if |added| > 0 {
      currentFiles := currentFiles + added;
    } else {
      assert currentFiles + added == currentFiles;
    }
    files := Some(currentFiles);
  }

  /** The status `DELETE /:id` answers: 401, then 403 for any non-admin, then 404. */
  function DeleteStatus(caller: UserModel.Caller, rows: map<nat, ProblemRow>, id: nat): (status: nat)
    ensures status == 200 ==> caller.Signed? && caller.role == UserModel.Admin && id in rows
    ensures status == 200 <==>
      caller.Signed? && caller.role == UserModel.Admin && id in rows && FilesOf(rows[id].filesRaw).Some?
    ensures caller.Anonymous? ==> status == 401
    ensures caller.Signed? && caller.role != UserModel.Admin ==> status == 403
    ensures caller.Signed? && caller.role == UserModel.Admin && id !in rows ==> status == 404
    ensures caller.Signed? && caller.role == UserModel.Admin && id in rows && FilesOf(rows[id].filesRaw).None? ==>
      status == 500
  {
    if caller.Anonymous? then 401
    else if caller.role != UserModel.Admin then 403
    else if id !in rows then 404
    else if FilesOf(rows[id].filesRaw).None? then 500
    else 200
  }

  /** `DELETE /:id`: every listed attachment is unlinked, then the problem destroyed. */
  method Delete(table: ProblemTable, disk: Disk, caller: UserModel.Caller, id: nat) returns (status: nat)
    requires table.Valid()
    modifies table, disk
    ensures table.Valid()
    ensures status == DeleteStatus(caller, old(table.rows), id)
    ensures status == 200 ==>
      && table.rows == old(table.rows) - {id}
      && disk.paths == old(disk.paths) - PathSet(FilesOf(old(table.rows)[id].filesRaw).value)
    ensures status != 200 ==> table.rows == old(table.rows) && disk.paths == old(disk.paths)
  {
    if caller.Anonymous? {
      return 401;
    }
    if caller.role != UserModel.Admin {
      return 403;
    }
    if id !in table.rows {
      return 404;
    }
    var files := FilesOf(table.rows[id].filesRaw);
    if files.None? {
      return 500;
    }
    disk.UnlinkEach(files.value);
    table.Destroy(id);
    status := 200;
  }

  /** Every problem's lower-cased tags, problem after problem. */
  function AllLowerTags(problems: seq<ProblemRow>): seq<string>
  {
    if problems == [] then []
    else AllLowerTags(problems[..|problems| - 1]) + LowerAll(TagsOf(problems[|problems| - 1].tagsRaw))
  }

  /** Every non-empty category, problem after problem. */
  function AllCategories(problems: seq<ProblemRow>): seq<string>
  {
    if problems == [] then []
    else
      var c := problems[|problems| - 1].category;
      AllCategories(problems[..|problems| - 1]) + (if c != "" then [c] else [])
  }

  /** Every problem's raw tag text split on `,`, trimmed, empty pieces dropped. */
  function AllRawTags(problems: seq<ProblemRow>): seq<string>
  {
    if problems == [] then []
    else AllRawTags(problems[..|problems| - 1]) + Filter(TrimAll(Split(problems[|problems| - 1].tagsRaw, ',')), NonEmpty)
  }

  /** Some problem has a tag whose lower-cased form is `t`. */
  predicate LowerTaggedIn(problems: seq<ProblemRow>, t: string)
  {
    exists i :: 0 <= i < |problems| && LowerOfSome(TagsOf(problems[i].tagsRaw), t)
  }

  lemma LowerTaggedInSnoc(problems: seq<ProblemRow>, t: string)
    requires problems != []
    ensures LowerTaggedIn(problems, t) <==>
      LowerTaggedIn(problems[..|problems| - 1], t) || LowerOfSome(TagsOf(problems[|problems| - 1].tagsRaw), t)
  {
    ExistsSnoc(problems, (row: ProblemRow) => LowerOfSome(TagsOf(row.tagsRaw), t));
  }

  lemma {:induction false} AllLowerTagsIn(problems: seq<ProblemRow>, t: string)
    ensures t in AllLowerTags(problems) <==> LowerTaggedIn(problems, t)
  {
    if problems != [] {
      var init := problems[..|problems| - 1];
      AllLowerTagsIn(init, t);
      LowerAllIn(TagsOf(problems[|problems| - 1].tagsRaw), t);
      LowerTaggedInSnoc(problems, t);
    }
  }

  lemma {:induction false} AllLowerTagsLower(problems: seq<ProblemRow>)
    ensures forall t :: t in AllLowerTags(problems) ==> IsLower(t)
  {
    if problems != [] {
      AllLowerTagsLower(problems[..|problems| - 1]);
      var mine := LowerAll(TagsOf(problems[|problems| - 1].tagsRaw));
      forall t | t in mine
        ensures IsLower(t)
      {
        var j :| 0 <= j < |mine| && mine[j] == t;
        LowerIsLower(TagsOf(problems[|problems| - 1].tagsRaw)[j]);
      }
    }
  }

  lemma {:induction false} AllCategoriesIn(problems: seq<ProblemRow>, c: string)
    ensures c in AllCategories(problems) <==> c != "" && exists i :: 0 <= i < |problems| && problems[i].category == c
  {
    if problems != [] {
      var init := problems[..|problems| - 1];
      AllCategoriesIn(init, c);
      if exists i :: 0 <= i < |problems| && problems[i].category == c {
        var i :| 0 <= i < |problems| && problems[i].category == c;
        if i < |problems| - 1 {
          assert init[i] == problems[i];
        }
      }
    }
  }

  /** The raw pieces of the stored text are what the `tags` getter gives. */
  lemma RawPiecesAreTags(raw: string)
    ensures Filter(TrimAll(Split(raw, ',')), NonEmpty) == TagsOf(raw)
  {
    if raw == "" {
      assert Split(raw, ',') == [""];
      assert TrimAll([""]) == [""];
    }
  }

  /** Some problem's `tags` getter gives `t`. */
  predicate TaggedIn(problems: seq<ProblemRow>, t: string)
  {
    exists i :: 0 <= i < |problems| && t in TagsOf(problems[i].tagsRaw)
  }

  lemma TaggedInSnoc(problems: seq<ProblemRow>, t: string)
    requires problems != []
    ensures TaggedIn(problems, t) <==>
      TaggedIn(problems[..|problems| - 1], t) || t in TagsOf(problems[|problems| - 1].tagsRaw)
  {
    ExistsSnoc(problems, (row: ProblemRow) => t in TagsOf(row.tagsRaw));
  }

  lemma {:induction false} AllRawTagsIn(problems: seq<ProblemRow>, t: string)
    ensures t in AllRawTags(problems) <==> TaggedIn(problems, t)
  {
    if problems != [] {
      var init := problems[..|problems| - 1];
      var last := problems[|problems| - 1];
      AllRawTagsIn(init, t);
      RawPiecesAreTags(last.tagsRaw);
      assert AllRawTags(problems) == AllRawTags(init) + TagsOf(last.tagsRaw);
      TaggedInSnoc(problems, t);
    }
  }

  /** `xs.forEach(x => set.add(x))` on a `Set` that holds `before` in insertion order. */
  method AddAll(ghost before: seq<string>, acc: seq<string>, xs: seq<string>) returns (r: seq<string>)
    requires acc == Dedup(before)
    ensures r == Dedup(before + xs)
  {
    r := acc;
    assert before + xs[..0] == before;
    for j := 0 to |xs|
      invariant r == Dedup(before + xs[..j])
    {
      assert before + xs[..j + 1] == (before + xs[..j]) + [xs[j]];
      DedupSnoc(before + xs[..j], xs[j]);
      if xs[j] !in r {
        r := r + [xs[j]];
      }
    }
    assert xs[..|xs|] == xs;
  }

  /**
   * `GET /tags`: every problem's tags, lower-cased, gathered in a `Set` and
   * sorted: ascending, each once, and exactly the lower-cased tags in use.
   */
  method DistinctTags(problems: seq<ProblemRow>) returns (r: seq<string>)
    ensures StrictlySorted(r)
    ensures forall t :: t in r ==> IsLower(t)
    ensures forall t :: t in r <==> LowerTaggedIn(problems, t)
  {
    var allTags: seq<string> := [];
    for i := 0 to |problems|
      invariant allTags == Dedup(AllLowerTags(problems[..i]))
    {
      assert problems[..i + 1][..i] == problems[..i];
      allTags := AddAll(AllLowerTags(problems[..i]), allTags, LowerAll(TagsOf(problems[i].tagsRaw)));
    }
    assert problems[..|problems|] == problems;
    SortSorted(allTags);
    r := Sort(allTags);
    assert forall t :: t in r <==> t in multiset(allTags);
    AllLowerTagsLower(problems);
    forall t
      ensures t in r <==> LowerTaggedIn(problems, t)
    {
      AllLowerTagsIn(problems, t);
    }
  }

  /** One more problem adds its category to the Set when it is non-empty and new. */
  lemma AllCategoriesStep(problems: seq<ProblemRow>, i: nat)
    requires i < |problems|
    ensures var c := problems[i].category;
      var d := Dedup(AllCategories(problems[..i]));
      Dedup(AllCategories(problems[..i + 1])) == if c == "" || c in d then d else d + [c]
  {
    assert problems[..i + 1][..i] == problems[..i];
    var c := problems[i].category;
    var before := AllCategories(problems[..i]);
    if c != "" {
      assert (before + [c])[..|before + [c]| - 1] == before;
    } else {
      assert before + [] == before;
    }
  }

  /** `GET /categories`: the non-empty categories, each once, ascending. */
  method DistinctCategories(problems: seq<ProblemRow>) returns (r: seq<string>)
    ensures StrictlySorted(r)
    ensures forall c :: c in r <==> c != "" && exists i :: 0 <= i < |problems| && problems[i].category == c
  {
    var categories: seq<string> := [];
    for i := 0 to |problems|
      invariant categories == Dedup(AllCategories(problems[..i]))
    {
      AllCategoriesStep(problems, i);
      if problems[i].category != "" {
        var c := problems[i].category;
        if c !in categories {
          categories := categories + [c];
        }
      }
    }
    assert problems[..|problems|] == problems;
    SortSorted(categories);
    r := Sort(categories);
    assert forall c :: c in r <==> c in multiset(categories);
    forall c
      ensures c in r <==> c != "" && exists i :: 0 <= i < |problems| && problems[i].category == c
    {
      AllCategoriesIn(problems, c);
    }
  }

  /**
   * `GET /tags/list`: the raw tag text of every problem split, trimmed and
   * gathered in a `Set`; each tag once, in the order it first appears, not
   * lower-cased and not sorted.
   */
  method TagList(problems: seq<ProblemRow>) returns (r: seq<string>)
    ensures NoDup(r)
    ensures forall t :: t in r <==> TaggedIn(problems, t)
  {
    r := [];
    for i := 0 to |problems|
      invariant r == Dedup(AllRawTags(problems[..i]))
    {
      assert problems[..i + 1][..i] == problems[..i];
      var tags := TrimAll(Split(problems[i].tagsRaw, ','));
      r := AddAll(AllRawTags(problems[..i]), r, Filter(tags, NonEmpty));
    }
    assert problems[..|problems|] == problems;
    forall t
      ensures t in r <==> TaggedIn(problems, t)
    {
      AllRawTagsIn(problems, t);
    }
  }
}
