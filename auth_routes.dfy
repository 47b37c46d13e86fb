/**
 * The `/api/auth` routes: login through the local strategy, logout, the
 * current user, and registration of a new user by an administrator.
 */
module AuthRoutes {
  import opened Wrappers
  import opened UserModel
  import App
  import UsersRoutes

  /** The user id a session holds once `req.logIn` has serialised the user. */
  class Session {
    var user: Option<nat>

    constructor ()
      ensures user.None?
    {
      user := None;
    }

    /** Who the session's requests come from. */
    function Caller(rows: map<nat, UserRow>): Caller
      reads this
    {
      App.CallerOf(user, rows)
    }
  }

  /** The answer to `POST /login`: status, the projected user, and the error text. */
  datatype LoginReply = LoginReply(status: nat, user: Option<UserJson>, error: string)

  /**
   * `POST /login`: 400 without both fields, before any lookup; 401 with the
   * strategy's own message, which tells an unknown name from a wrong
   * password; otherwise the session holds the user and the answer is
   * `{id, username, role}`.
   */
  method Login(table: UserTable, session: Session, username: string, password: string, kdf: Kdf)
    returns (reply: LoginReply)
    requires table.Valid()
    modifies session
    ensures reply.status == 400 <==> username == "" || password == ""
    ensures reply.status == 200 <==> username != "" && password != "" && App.Authentic(table.rows, username, password, kdf)
    ensures reply.status in {200, 400, 401}
    ensures username != "" && password != "" && !App.Authentic(table.rows, username, password, kdf) ==>
      reply.status == 401 && reply.user.None?
    ensures reply.status == 401 ==> reply.user.None? && session.user == old(session.user)
    ensures reply.status == 401 && !NameTaken(table.rows, username) ==> reply.error == "Usuário não encontrado"
    ensures reply.status == 401 && NameTaken(table.rows, username) ==> reply.error == "Senha incorreta"
    ensures reply.status == 400 ==> session.user == old(session.user) && reply.user.None?
    ensures reply.status == 200 ==>
      && reply.user.Some?
      && reply.user.value.id in table.rows
      && reply.user.value == ToJson(table.rows[reply.user.value.id])
      && reply.user.value.username == username
      && session.user == Some(reply.user.value.id)
      && session.Caller(table.rows) == Signed(reply.user.value.id, reply.user.value.role)
  {
    if username == "" || password == "" {
      return LoginReply(400, None, "Nome de usuário e senha são obrigatórios");
    }
    var verdict := App.VerifyCredentials(table, username, password, kdf);
    if !verdict.Verified? {
      return LoginReply(401, None, App.VerdictMessage(verdict));
    }
    var user := verdict.user;
    session.user := Some(user.id);
    reply := LoginReply(200, Some(UserJson(user.id, user.username, user.role)), "");
  }

  /** `POST /logout`: 401 without a signed-in user, otherwise the session forgets the user. */
  method Logout(session: Session, rows: map<nat, UserRow>) returns (status: nat)
    modifies session
    ensures status == 401 <==> old(session.Caller(rows)).Anonymous?
    ensures status == 401 ==> session.user == old(session.user)
    ensures old(session.Caller(rows)).Signed? ==> status == 200 && session.user.None?
    ensures status == 200 ==> session.user.None? && session.Caller(rows).Anonymous?
  {
    if session.Caller(rows).Anonymous? {
      return 401;
    }
    session.user := None;
    status := 200;
  }

  /** `GET /me`: the signed-in user without the hash, or 401. */
  function Me(caller: Caller, rows: map<nat, UserRow>): (r: (nat, Option<UserJson>))
    ensures r.0 == 200 <==> caller.Signed? && caller.id in rows
    ensures r.0 == 200 ==> r.1 == Some(ToJson(rows[caller.id]))
    ensures r.0 == 401 <==> r.1.None?
    ensures !(caller.Signed? && caller.id in rows) ==> r == (401, None)
  {
    if caller.Signed? && caller.id in rows then (200, Some(ToJson(rows[caller.id]))) else (401, None)
  }

  /** The status `POST /register` answers. */
  function RegisterStatus(caller: Caller, rows: map<nat, UserRow>, form: UsersRoutes.UserForm): (status: nat)
    ensures status == 201 <==>
      && UsersRoutes.IsAdmin(caller)
      && form.username != "" && form.password != ""
      && ParseRole(form.role).Some?
      && !NameTaken(rows, form.username)
    ensures !UsersRoutes.IsAdmin(caller) ==> status == 403
    ensures UsersRoutes.IsAdmin(caller) && status != 201 ==> status == 400
  {
    if !UsersRoutes.IsAdmin(caller) then 403
    else if form.username == "" || form.password == "" || form.role == "" then 400
    else if ParseRole(form.role).None? then 400
    else if NameTaken(rows, form.username) then 400
    else 201
  }

  /** A registered user signs in with the password given at registration. */
  lemma RegisteredCanLogIn(rows: map<nat, UserRow>, id: nat, form: UsersRoutes.UserForm, role: Role, salt: nat, kdf: Kdf)
    ensures App.Authentic(rows[id := UserRow(id, form.username, HashPassword(form.password, salt, kdf), role)],
                          form.username, form.password, kdf)
  {
    CompareHashed(form.password, salt, kdf);
    var rows' := rows[id := UserRow(id, form.username, HashPassword(form.password, salt, kdf), role)];
    assert id in rows' && rows'[id].username == form.username;
  }

  /** `POST /register`: an administrator adds a user with a hashed password and a valid role. */
  method Register(table: UserTable, caller: Caller, form: UsersRoutes.UserForm, salt: nat, kdf: Kdf)
    returns (status: nat, body: Option<UserJson>)
    requires table.Valid()
    modifies table
    ensures table.Valid()
    ensures status == RegisterStatus(caller, old(table.rows), form)
    ensures status == 201 ==>
      && var row := UserRow(old(table.nextId), form.username, HashPassword(form.password, salt, kdf), ParseRole(form.role).value);
      && table.rows == old(table.rows)[row.id := row]
      && body == Some(ToJson(row))
    ensures status != 201 ==> table.rows == old(table.rows) && body.None?
  {
    if !UsersRoutes.IsAdmin(caller) {
      return 403, None;
    }
    if form.username == "" || form.password == "" || form.role == "" {
      return 400, None;
    }
    var role := ParseRole(form.role);
    if role.None? {
      return 400, None;
    }
    var existing := table.FindByUsername(form.username);
    if existing.Some? {
      return 400, None;
    }
    var created := table.Create(form.username, HashPassword(form.password, salt, kdf), role.value);
    status := 201;
    body := Some(ToJson(created.value));
  }
}
