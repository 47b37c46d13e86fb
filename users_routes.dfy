/**
 * The `/api/users` routes, all behind the `isAdmin` middleware: list, get,
 * update and delete. Update checks the new name against other users and
 * the new role against the role domain; delete refuses to remove the last
 * administrator. Update has no such guard.
 */
module UsersRoutes {
  import opened Wrappers
  import opened UserModel

  /** `isAdmin`: a signed-in administrator, otherwise 403. */
  predicate IsAdmin(caller: Caller)
  {
    caller.Signed? && caller.role == Admin
  }

  /** `GET /`: every user without the password hash, keyed by id. */
  function ListUsers(caller: Caller, rows: map<nat, UserRow>): (r: (nat, map<nat, UserJson>))
    ensures r.0 == 403 <==> !IsAdmin(caller)
    ensures IsAdmin(caller) ==> r.0 == 200
    ensures r.0 == 200 ==> r.1.Keys == rows.Keys && forall k :: k in rows ==> r.1[k] == ToJson(rows[k])
    ensures r.0 != 200 ==> r.1 == map[]
  {
    if !IsAdmin(caller) then (403, map[])
    else (200, map k | k in rows :: ToJson(rows[k]))
  }

  /** `GET /:id`: 403, then 404, then the user without the hash. */
  function GetUser(caller: Caller, rows: map<nat, UserRow>, id: nat): (r: (nat, Option<UserJson>))
    ensures r.0 == 200 <==> IsAdmin(caller) && id in rows
    ensures r.0 == 200 ==> r.1 == Some(ToJson(rows[id]))
    ensures r.0 != 200 ==> r.1.None?
    ensures !IsAdmin(caller) ==> r.0 == 403
    ensures IsAdmin(caller) && id !in rows ==> r.0 == 404
  {
    if !IsAdmin(caller) then (403, None)
    else if id !in rows then (404, None)
    else (200, Some(ToJson(rows[id])))
  }

  /** The body of an update or a registration; an absent field is `""`. */
  datatype UserForm = UserForm(username: string, password: string, role: string)

  /** The status `PUT /:id` answers. */
  function UpdateStatus(caller: Caller, rows: map<nat, UserRow>, id: nat, form: UserForm): (status: nat)
    ensures status == 200 <==>
      && IsAdmin(caller) && id in rows
      && (form.username == "" || !NameTakenByOther(rows, form.username, id))
      && (form.role == "" || ParseRole(form.role).Some?)
    ensures !IsAdmin(caller) ==> status == 403
    ensures IsAdmin(caller) && id !in rows ==> status == 404
    ensures IsAdmin(caller) && id in rows && status != 200 ==> status == 400
  {
    if !IsAdmin(caller) then 403
    else if id !in rows then 404
    else if form.username != "" && NameTakenByOther(rows, form.username, id) then 400
    else if form.role != "" && ParseRole(form.role).None? then 400
    else 200
  }

  /** The user after an accepted update: only the given fields change. */
  function UpdatedUser(row: UserRow, form: UserForm, salt: nat, kdf: Kdf): UserRow
  {
    row.(username := if form.username != "" then form.username else row.username,
         passwordHash := if form.password != "" then HashPassword(form.password, salt, kdf) else row.passwordHash,
         role := match ParseRole(form.role) case Some(r) => r case None => row.role)
  }

  /**
   * After an accepted update the new password is the one that checks, an
   * empty password leaves the hash alone, and the id never changes.
   */
  lemma UpdatedUserPassword(row: UserRow, form: UserForm, salt: nat, kdf: Kdf)
    ensures UpdatedUser(row, form, salt, kdf).id == row.id
    ensures form.password != "" ==> Compare(form.password, UpdatedUser(row, form, salt, kdf).passwordHash, kdf)
    ensures form.password == "" ==> UpdatedUser(row, form, salt, kdf).passwordHash == row.passwordHash
  {
    if form.password != "" {
      CompareHashed(form.password, salt, kdf);
    }
  }

  /** An accepted update keeps every username held by one user only. */
  lemma UpdateKeepsNamesUnique(rows: map<nat, UserRow>, caller: Caller, id: nat, form: UserForm, salt: nat, kdf: Kdf)
    requires UniqueNames(rows)
    requires UpdateStatus(caller, rows, id, form) == 200
    ensures UniqueNames(rows[id := UpdatedUser(rows[id], form, salt, kdf)])
  {
    var u := UpdatedUser(rows[id], form, salt, kdf);
    forall b | b in rows && b != id
      ensures rows[b].username != u.username
    {
      if form.username == "" {
        assert u.username == rows[id].username;
      }
    }
  }

  /**
   * The last-admin guard is on delete only: an update can give the only
   * administrator another role, and then no administrator is left.
   */
  lemma UpdateCanDemoteLastAdmin(h: PasswordHash, salt: nat, kdf: Kdf)
    ensures var rows := map[0 := UserRow(0, "root", h, Admin)];
      var form := UserForm("", "", "user");
      && AdminCount(rows) == 1
      && UpdateStatus(Signed(0, Admin), rows, 0, form) == 200
      && AdminCount(rows[0 := UpdatedUser(rows[0], form, salt, kdf)]) == 0
  {
    var rows := map[0 := UserRow(0, "root", h, Admin)];
    var form := UserForm("", "", "user");
    assert AdminIds(rows) == {0};
    assert AdminIds(rows[0 := UpdatedUser(rows[0], form, salt, kdf)]) == {};
  }

  /**
   * `PUT /:id`: the loaded user gets the new name, the new password through
   * `setPassword` and the new role, and is saved; a refused role returns
   * before the save, so nothing is stored.
   */
  method UpdateUser(table: UserTable, caller: Caller, id: nat, form: UserForm, salt: nat, kdf: Kdf)
    returns (status: nat, body: Option<UserJson>)
    requires table.Valid()
    modifies table
    ensures table.Valid()
    ensures status == UpdateStatus(caller, old(table.rows), id, form)
    ensures status == 200 ==>
      && table.rows == old(table.rows)[id := UpdatedUser(old(table.rows)[id], form, salt, kdf)]
      && body == Some(ToJson(table.rows[id]))
    ensures status != 200 ==> table.rows == old(table.rows) && body.None?
  {
    if !IsAdmin(caller) {
      return 403, None;
    }
    if id !in table.rows {
      return 404, None;
    }
    var user := new UserInstance.Load(table.rows[id]);
    if form.username != "" {
      var existing := table.FindByUsername(form.username);
      if existing.Some? && existing.value.id != user.id {
        return 400, None;
      }
      user.username := form.username;
    }
    if form.password != "" {
      user.SetPassword(form.password, salt, kdf);
    }
    if form.role != "" {
      var role := ParseRole(form.role);
      if role.None? {
        return 400, None;
      }
      user.role := role.value;
    }
    UpdateKeepsNamesUnique(table.rows, caller, id, form, salt, kdf);
    table.Save(user.Row());
    status := 200;
    body := Some(ToJson(user.Row()));
  }

  /** The status `DELETE /:id` answers. */
  function DeleteStatus(caller: Caller, rows: map<nat, UserRow>, id: nat): (status: nat)
    ensures status == 200 <==> IsAdmin(caller) && id in rows && (rows[id].role == Admin ==> AdminCount(rows) > 1)
    ensures !IsAdmin(caller) ==> status == 403
    ensures IsAdmin(caller) && id !in rows ==> status == 404
    ensures IsAdmin(caller) && id in rows && status != 200 ==> status == 400
  {
    if !IsAdmin(caller) then 403
    else if id !in rows then 404
    else if rows[id].role == Admin && AdminCount(rows) <= 1 then 400
    else 200
  }

  /** An accepted delete leaves at least one administrator if there was one. */
  lemma DeleteKeepsAnAdmin(caller: Caller, rows: map<nat, UserRow>, id: nat)
    requires AdminCount(rows) >= 1
    requires DeleteStatus(caller, rows, id) == 200
    ensures AdminCount(rows - {id}) >= 1
    ensures AdminCount(rows - {id}) == AdminCount(rows) - (if rows[id].role == Admin then 1 else 0)
  {
    assert AdminIds(rows - {id}) == AdminIds(rows) - {id};
  }

  /** `DELETE /:id`: the last administrator is never removed. */
  method DeleteUser(table: UserTable, caller: Caller, id: nat) returns (status: nat)
    requires table.Valid()
    modifies table
    ensures table.Valid()
    ensures status == DeleteStatus(caller, old(table.rows), id)
    ensures status == 200 ==> table.rows == old(table.rows) - {id}
    ensures status != 200 ==> table.rows == old(table.rows)
  {
    if !IsAdmin(caller) {
      return 403;
    }
    if id !in table.rows {
      return 404;
    }
    if table.rows[id].role == Admin {
      var adminCount := AdminCount(table.rows);
      if adminCount <= 1 {
        return 400;
      }
    }
    table.Destroy(id);
    status := 200;
  }
}
