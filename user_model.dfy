/**
 * The `User` model: its three roles, the salted password hash, the
 * projection sent to clients, the instance whose `setPassword` rewrites the
 * hash, and the `users` table with its unique `username` column.
 */
module UserModel {
  import opened Wrappers

  /** The values the `role` column's `isIn` validator admits. */
  datatype Role = Admin | Tecnico | User

  function RoleName(r: Role): string
  {
    match r
    case Admin => "admin"
    case Tecnico => "tecnico"
    case User => "user"
  }

  /** `isIn: [['admin', 'tecnico', 'user']]`: the role a text names, if any. */
  function ParseRole(s: string): (r: Option<Role>)
    ensures r.Some? <==> (s == "admin" || s == "tecnico" || s == "user")
    ensures r.Some? ==> RoleName(r.value) == s
  {
    if s == "admin" then Some(Admin)
    else if s == "tecnico" then Some(Tecnico)
    else if s == "user" then Some(User)
    else None
  }

  lemma ParseRoleName(r: Role)
    ensures ParseRole(RoleName(r)) == Some(r)
  {
  }

  /**
   * Who a request comes from: nobody (`req.isAuthenticated()` is false) or a
   * signed-in user, `req.user`, of whom the routes read the id and the role.
   */
  datatype Caller = Anonymous | Signed(id: nat, role: Role)

  /** The `role` column's `defaultValue`. */
  const DefaultRole: Role := User

  /**
   * A bcrypt hash keeps its salt beside the digest. The one-way function
   * itself is not modelled: it is the parameter `kdf`, and the salt, which
   * bcrypt draws at random, is a parameter too.
   */
  datatype PasswordHash = Bcrypt(salt: nat, digest: string)

  type Kdf = (nat, string) -> string

  /** `bcrypt.hash(password, 10)` with the salt it drew. */
  function HashPassword(password: string, salt: nat, kdf: Kdf): PasswordHash
  {
    Bcrypt(salt, kdf(salt, password))
  }

  /** `bcrypt.compare(password, hash)`: rehash with the stored salt and compare. */
  predicate Compare(password: string, hash: PasswordHash, kdf: Kdf)
  {
    hash.digest == kdf(hash.salt, password)
  }

  /** A password always matches the hash made from it, whatever the salt. */
  lemma CompareHashed(password: string, salt: nat, kdf: Kdf)
    ensures Compare(password, HashPassword(password, salt, kdf), kdf)
  {
  }

  datatype UserRow = UserRow(id: nat, username: string, passwordHash: PasswordHash, role: Role)

  /** What `toJSON` leaves of a user. */
  datatype UserJson = UserJson(id: nat, username: string, role: Role)

  /** `User.prototype.toJSON`: every column except `password_hash`. */
  function ToJson(u: UserRow): UserJson
  {
    UserJson(u.id, u.username, u.role)
  }

  /** The projection keeps the other columns and reveals nothing of the hash. */
  lemma ToJsonHidesHash(u: UserRow, h: PasswordHash)
    ensures ToJson(u.(passwordHash := h)) == ToJson(u)
    ensures ToJson(u).id == u.id && ToJson(u).username == u.username && ToJson(u).role == u.role
  {
  }

  /** A loaded `User` instance; `save` writes `Row()` back to the table. */
  class UserInstance {
    const id: nat
    var username: string
    var passwordHash: PasswordHash
    var role: Role

    constructor Load(row: UserRow)
      ensures Row() == row
    {
      id := row.id;
      username := row.username;
      passwordHash := row.passwordHash;
      role := row.role;
    }

    function Row(): UserRow
      reads this
    {
      UserRow(id, username, passwordHash, role)
    }

    /** `setPassword`: only `password_hash` changes. */
    method SetPassword(password: string, salt: nat, kdf: Kdf)
      modifies this
      ensures Row() == old(Row()).(passwordHash := HashPassword(password, salt, kdf))
      ensures CheckPassword(password, kdf)
    {
      passwordHash := HashPassword(password, salt, kdf);
    }

    /** `checkPassword`. */
    predicate CheckPassword(password: string, kdf: Kdf)
      reads this
    {
      Compare(password, passwordHash, kdf)
    }
  }

  /** Two different rows never hold the same username (`unique: true`). */
  ghost predicate UniqueNames(rows: map<nat, UserRow>)
  {
    forall a, b :: a in rows && b in rows && rows[a].username == rows[b].username ==> a == b
  }

  /** Someone other than user `self` holds `name`. */
  predicate NameTakenByOther(rows: map<nat, UserRow>, name: string, self: nat)
  {
    exists k :: k in rows && k != self && rows[k].username == name
  }

  predicate NameTaken(rows: map<nat, UserRow>, name: string)
  {
    exists k :: k in rows && rows[k].username == name
  }

  function AdminIds(rows: map<nat, UserRow>): set<nat>
  {
    set k | k in rows && rows[k].role == Admin
  }

  /** `User.count({ where: { role: 'admin' } })`. */
  function AdminCount(rows: map<nat, UserRow>): nat
  {
    |AdminIds(rows)|
  }

  /** The `users` table; `id` is the auto-incremented primary key. */
  class UserTable {
    var rows: map<nat, UserRow>
    var nextId: nat

    ghost predicate Valid()
      reads this
    {
      && (forall k :: k in rows ==> rows[k].id == k && k < nextId)
      && UniqueNames(rows)
    }

    constructor ()
      ensures Valid() && rows == map[]
    {
      rows := map[];
      nextId := 0;
    }

    /** `User.findOne({ where: { username } })`: exact, case-sensitive match. */
    method FindByUsername(name: string) returns (r: Option<UserRow>)
      requires Valid()
      ensures r.Some? <==> NameTaken(rows, name)
      ensures r.Some? ==> r.value.id in rows && rows[r.value.id] == r.value && r.value.username == name
    {
      if k :| k in rows && rows[k].username == name {
        r := Some(rows[k]);
      } else {
        r := None;
      }
    }

    /**
     * `User.create`: a fresh id, or `None` when the unique constraint on
     * `username` refuses the row.
     */
    method Create(username: string, hash: PasswordHash, role: Role) returns (r: Option<UserRow>)
      requires Valid()
      modifies this
      ensures Valid()
      ensures r.None? <==> old(NameTaken(rows, username))
      ensures r.None? ==> rows == old(rows)
      ensures r.Some? ==>
        && r.value == UserRow(old(nextId), username, hash, role)
        && old(nextId) !in old(rows)
        && rows == old(rows)[old(nextId) := r.value]
    {
      if NameTaken(rows, username) {
        r := None;
      } else {
        var row := UserRow(nextId, username, hash, role);
        rows := rows[nextId := row];
        nextId := nextId + 1;
        r := Some(row);
      }
    }

    /** `user.save()` for a row whose name no other row holds. */
    method Save(row: UserRow)
      requires Valid() && row.id in rows && !NameTakenByOther(rows, row.username, row.id)
      modifies this
      ensures Valid() && rows == old(rows)[row.id := row]
      ensures nextId == old(nextId)
    {
      rows := rows[row.id := row];
    }

    /** `user.destroy()`. */
    method Destroy(id: nat)
      requires Valid()
      modifies this
      ensures Valid() && rows == old(rows) - {id}
      ensures nextId == old(nextId)
    {
      rows := rows - {id};
    }
  }
}
