/**
 * The client's view of an attachment path, shared by the problem page and
 * the edit form: the name shown to the reader (`getFileName`) and the kind
 * of preview (`getFileType`).
 */
module FileNames {
  import opened Text
  import ProblemRoutes

  /** `getFileName`: the last `/` segment, without what comes up to its first `_`. */
  function FileName(path: string): string
  {
    var last := AfterLast(path, '/');
    var parts := Split(last, '_');
    if |parts| > 1 then Join(parts[1..], '_') else last
  }

  /**
   * The name shown for a stored upload is the name it was uploaded with,
   * `_` included, when the uuid holds no `_` and neither part a `/`.
   */
  lemma FileNameOfStored(u: ProblemRoutes.Upload)
    requires '_' !in u.uuid && '/' !in u.uuid && '/' !in u.originalName
    ensures FileName(ProblemRoutes.StoredPath(u)) == u.originalName
  {
    var name := ProblemRoutes.StoredName(u);
    assert name == u.uuid + ['_'] + u.originalName;
    assert '/' !in name;
    assert ProblemRoutes.StoredPath(u) == ProblemRoutes.UploadFolder + ['/'] + name;
    AfterLastOf(ProblemRoutes.UploadFolder, '/', name);
    SplitAtSep(u.uuid, '_', u.originalName);
    var parts := Split(name, '_');
    assert parts == [u.uuid] + Split(u.originalName, '_');
    assert parts[1..] == Split(u.originalName, '_');
    JoinSplit(u.originalName, '_');
  }

  /** A last segment without `_` is shown as it is. */
  lemma FileNameWithoutPrefix(path: string)
    requires '_' !in AfterLast(path, '/')
    ensures FileName(path) == AfterLast(path, '/')
  {
    SplitNoSep(AfterLast(path, '/'), '_');
  }

  datatype FileKind = Image | Pdf | Other

  const ImageExtensions: seq<string> := ["jpg", "jpeg", "png", "gif"]

  /** `getFileType`: the text after the last `.`, lower-cased, picks the preview. */
  function FileType(path: string): FileKind
  {
    var ext := Lower(AfterLast(path, '.'));
    if ext in ImageExtensions then Image
    else if ext == "pdf" then Pdf
    else Other
  }

  /** A non-empty extension is the lower-cased text after the last `.`, which is not the first character. */
  lemma ExtensionAfterDot(name: string)
    requires ProblemRoutes.Extension(name) != ""
    ensures 0 < LastIndexOf(name, '.')
    ensures ProblemRoutes.Extension(name) == Lower(name[LastIndexOf(name, '.') + 1..])
  {
    var k := LastIndexOf(name, '.');
    assert ProblemRoutes.ExtName(name) != "";
    assert ProblemRoutes.ExtName(name) == name[k..];
    assert Lower(name[k..])[1..] == Lower(name[k + 1..]);
  }

  /** The text after the last `.` of a stored path is the text after the last `.` of the uploaded name. */
  lemma AfterLastDotStored(u: ProblemRoutes.Upload)
    requires 0 < LastIndexOf(u.originalName, '.')
    ensures AfterLast(ProblemRoutes.StoredPath(u), '.') == u.originalName[LastIndexOf(u.originalName, '.') + 1..]
  {
    var name := u.originalName;
    var k := LastIndexOf(name, '.');
    var prefix := ProblemRoutes.UploadFolder + "/" + u.uuid + "_";
    var head, tail := name[..k], name[k + 1..];
    assert name == head + ['.'] + tail;
    assert ProblemRoutes.StoredPath(u) == prefix + name;
    assert prefix + name == (prefix + head) + ['.'] + tail;
    AfterLastOf(prefix + head, '.', tail);
  }

  /** The extension the client reads off a stored path is the one the upload filter checked. */
  lemma StoredExtension(u: ProblemRoutes.Upload)
    requires ProblemRoutes.Extension(u.originalName) != ""
    ensures Lower(AfterLast(ProblemRoutes.StoredPath(u), '.')) == ProblemRoutes.Extension(u.originalName)
  {
    ExtensionAfterDot(u.originalName);
    AfterLastDotStored(u);
  }

  /**
   * Every upload the server accepts gets a preview: an image for png, jpg,
   * jpeg and gif, the PDF viewer for pdf.
   */
  lemma AcceptedUploadPreview(u: ProblemRoutes.Upload)
    requires ProblemRoutes.Accepted(u)
    ensures FileType(ProblemRoutes.StoredPath(u)) != Other
    ensures FileType(ProblemRoutes.StoredPath(u)) == Pdf <==> ProblemRoutes.Extension(u.originalName) == "pdf"
  {
    StoredExtension(u);
  }
}
