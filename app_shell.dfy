/**
 * The client application around the pages: the sign-in check on start,
 * the login page for a visitor without a session, the routes gated by
 * role, logout, and the collapsible sidebar.
 */
module AppShell {
  import opened Wrappers
  import UserModel
  import ProblemModel
  import ProblemRoutes
  import Sidebar
  import ProblemDetail

  type User = UserModel.UserJson

  datatype Route =
    | HomeRoute
    | ProblemRoute(id: nat)
    | CreateProblemRoute
    | EditProblemRoute(id: nat)
    | UsersRoute
    | CategoriesRoute
    | TagsRoute

  datatype Screen =
    | LoadingScreen
    | LoginScreen
    | HomeScreen
    | ProblemScreen(id: nat)
    | CreateProblemScreen
    | EditProblemScreen(id: nat)
    | UserManagementScreen
    | CategoryListScreen
    | TagListScreen
    | RedirectHome

  /** `['admin', 'tecnico'].includes(user.role)`. */
  predicate MayWrite(user: User)
  {
    user.role == UserModel.Admin || user.role == UserModel.Tecnico
  }

  /** What `App` renders for a route: a waiting message, the login page, or the routed page. */
  function Render(loading: bool, user: Option<User>, route: Route): (s: Screen)
    ensures loading <==> s == LoadingScreen
    ensures !loading && user.None? <==> s == LoginScreen
    ensures s == CreateProblemScreen <==> !loading && route == CreateProblemRoute && Sidebar.CanCreateProblem(user)
    ensures s.EditProblemScreen? <==> !loading && route.EditProblemRoute? && Sidebar.CanCreateProblem(user)
    ensures s == UserManagementScreen <==> !loading && route == UsersRoute && Sidebar.ShowsUsersLink(user)
    ensures s == RedirectHome ==> user.Some? && route in {CreateProblemRoute, UsersRoute} + (if route.EditProblemRoute? then {route} else {})
  {
    if loading then LoadingScreen
    else if user.None? then LoginScreen
    else
      var u := user.value;
      match route
      case HomeRoute => HomeScreen
      case ProblemRoute(id) => ProblemScreen(id)
      case CreateProblemRoute => if MayWrite(u) then CreateProblemScreen else RedirectHome
      case EditProblemRoute(id) => if MayWrite(u) then EditProblemScreen(id) else RedirectHome
      case UsersRoute => if u.role == UserModel.Admin then UserManagementScreen else RedirectHome
      case CategoriesRoute => CategoryListScreen
      case TagsRoute => TagListScreen
  }

  /**
   * The edit route follows the create rule, not the server's: an author
   * with the `user` role sees the edit button on the problem page and would
   * pass the server's check, but the route sends them back home.
   */
  lemma EditRouteBlocksPlainAuthor(row: ProblemModel.ProblemRow)
    ensures var author := UserModel.UserJson(row.authorId, "autor", UserModel.User);
      var rows := map[row.id := row];
      && ProblemDetail.CanEdit(Some(author), row.authorId)
      && ProblemRoutes.EditGate(UserModel.Signed(author.id, author.role), rows, row.id) == ProblemRoutes.Allow
      && Render(false, Some(author), EditProblemRoute(row.id)) == RedirectHome
  {
  }

  /** `isMobile`: a window at most 768 pixels wide. */
  predicate IsMobile(width: int)
  {
    width <= 768
  }

  /** The state of `App`: the signed-in user, the start-up check, and the sidebar. */
  class Shell {
    var user: Option<User>
    var loading: bool
    var collapsed: bool

    /** The first render, after the mount effect has looked at the window. */
    constructor (width: int)
      ensures user.None? && loading && collapsed == IsMobile(width)
    {
      user := None;
      loading := true;
      collapsed := IsMobile(width);
    }

    /** What is on screen for a route. */
    function Screen(route: Route): Screen
      reads this
    {
      Render(loading, user, route)
    }

    /** `checkAuth`: the answer of `GET /api/auth/me` signs the user in on 200; loading ends either way. */
    method CheckAuth(meStatus: nat, meBody: Option<User>)
      modifies this
      ensures !loading && collapsed == old(collapsed)
      ensures meStatus == 200 ==> user == meBody
      ensures meStatus != 200 ==> user == old(user)
    {
      if meStatus == 200 {
        user := meBody;
      }
      loading := false;
    }

    /** `handleLogout`: a successful logout forgets the user, and every route shows the login page. */
    method HandleLogout(logoutStatus: nat)
      modifies this
      ensures logoutStatus == 200 ==> user.None?
      ensures logoutStatus == 200 && !loading ==> forall r :: Screen(r) == LoginScreen
      ensures logoutStatus != 200 ==> user == old(user)
      ensures loading == old(loading) && collapsed == old(collapsed)
    {
      if logoutStatus == 200 {
        user := None;
      }
    }

    /** `toggleSidebar`. */
    method ToggleSidebar()
      modifies this
      ensures collapsed == !old(collapsed)
      ensures user == old(user) && loading == old(loading)
    {
      collapsed := !collapsed;
    }

    /** `handleResize`: collapsed exactly on a narrow window, whatever it was before. */
    method HandleResize(width: int)
      modifies this
      ensures collapsed == IsMobile(width)
      ensures user == old(user) && loading == old(loading)
    {
      collapsed := IsMobile(width);
    }
  }
}
