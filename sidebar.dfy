/**
 * The sidebar's role checks: which links a signed-in user sees, and the
 * label of the user's role.
 */
module Sidebar {
  import opened Wrappers
  import UserModel
  import ProblemRoutes
  import UsersRoutes

  type User = UserModel.UserJson

  /** `user?.role === 'admin'`. */
  predicate IsAdmin(user: Option<User>)
  {
    user.Some? && user.value.role == UserModel.Admin
  }

  /** `user?.role === 'tecnico'`. */
  predicate IsTechnician(user: Option<User>)
  {
    user.Some? && user.value.role == UserModel.Tecnico
  }

  /** The "Criar Problema" link. */
  predicate CanCreateProblem(user: Option<User>)
  {
    IsAdmin(user) || IsTechnician(user)
  }

  /** The "Gerenciar Usuários" link. */
  predicate ShowsUsersLink(user: Option<User>)
  {
    IsAdmin(user)
  }

  /**
   * The links follow the server's own rules: the create link shows exactly
   * for the roles that may create a problem, the users link exactly for
   * the callers the users routes let in, and nobody signed out sees either.
   */
  lemma LinksAgreeWithServer(user: User)
    ensures CanCreateProblem(Some(user)) <==> ProblemRoutes.MayCreate(user.role)
    ensures ShowsUsersLink(Some(user)) <==> UsersRoutes.IsAdmin(UserModel.Signed(user.id, user.role))
    ensures !CanCreateProblem(None) && !ShowsUsersLink(None)
  {
  }

  /** "Perfil: ...": the label of the role, "Usuário" for anything else. */
  function RoleLabel(user: Option<User>): (text: string)
    ensures text in {"Administrador", "Técnico", "Usuário"}
    ensures text == "Administrador" <==> IsAdmin(user)
    ensures text == "Técnico" <==> IsTechnician(user)
  {
    if IsAdmin(user) then "Administrador"
    else if IsTechnician(user) then "Técnico"
    else "Usuário"
  }

  /** Users of different roles see different labels. */
  lemma RoleLabelTellsRolesApart(u: User, v: User)
    requires u.role != v.role
    ensures RoleLabel(Some(u)) != RoleLabel(Some(v))
  {
  }
}
