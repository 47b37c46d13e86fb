/**
 * The problem page: which buttons the signed-in user sees, and the links
 * that open or download an attachment. The links name
 * `/api/problems/files/`, as the page builds them; the server serves the
 * upload directory only under `/api/files` and has no handler for that
 * path, so these links do not reach a file.
 */
module ProblemDetail {
  import opened Wrappers
  import UserModel
  import ProblemModel
  import ProblemRoutes
  import Sidebar

  /** `user?.id === problem?.author_id`. */
  predicate IsAuthor(user: Option<UserModel.UserJson>, authorId: nat)
  {
    user.Some? && user.value.id == authorId
  }

  /** The edit button: an administrator or the author. */
  predicate CanEdit(user: Option<UserModel.UserJson>, authorId: nat)
  {
    Sidebar.IsAdmin(user) || IsAuthor(user, authorId)
  }

  /** The delete button: an administrator only. */
  predicate CanDelete(user: Option<UserModel.UserJson>)
  {
    Sidebar.IsAdmin(user)
  }

  /**
   * The edit button shows exactly when the server's `canEdit` lets the same
   * user through, and nobody signed out sees either button.
   */
  lemma CanEditAgreesWithServer(user: UserModel.UserJson, rows: map<nat, ProblemModel.ProblemRow>, id: nat)
    requires id in rows
    ensures CanEdit(Some(user), rows[id].authorId) <==>
      ProblemRoutes.EditGate(UserModel.Signed(user.id, user.role), rows, id) == ProblemRoutes.Allow
    ensures !CanEdit(None, rows[id].authorId) && !CanDelete(None)
  {
  }

  /** The delete button shows exactly when the server would delete a readable record for the same user. */
  lemma CanDeleteAgreesWithServer(user: UserModel.UserJson, rows: map<nat, ProblemModel.ProblemRow>, id: nat)
    requires id in rows && ProblemModel.FilesOf(rows[id].filesRaw).Some?
    ensures CanDelete(Some(user)) <==> ProblemRoutes.DeleteStatus(UserModel.Signed(user.id, user.role), rows, id) == 200
  {
  }

  const FilesRoute: string := "/api/problems/files/"

  /** `getFileViewUrl`: the page's origin, the files route, then the stored path. */
  function ViewUrl(origin: string, path: string): (url: string)
    ensures |url| == |origin| + |FilesRoute| + |path|
    ensures url[..|origin|] == origin
    ensures url[|origin| + |FilesRoute|..] == path
  {
    origin + FilesRoute + path
  }

  /** Different attachments get different links. */
  lemma ViewUrlInjective(origin: string, p: string, q: string)
    requires ViewUrl(origin, p) == ViewUrl(origin, q)
    ensures p == q
  {
    assert p == ViewUrl(origin, p)[|origin| + |FilesRoute|..];
  }

  /** `getFileDownloadUrl`, written out on its own in the page. */
  function DownloadUrl(origin: string, path: string): string
  {
    origin + "/api/problems/files/" + path + "?download=true"
  }

  /** The download link is the view link with `?download=true` after it. */
  lemma DownloadExtendsView(origin: string, path: string)
    ensures DownloadUrl(origin, path) == ViewUrl(origin, path) + "?download=true"
  {
  }
}
