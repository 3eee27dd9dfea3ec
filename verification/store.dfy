/**
 * The rows of the hosted database that access control reads and writes
 * (the row types of lib/supabase.ts), and one fixed snapshot of that database
 * standing in for the query client. Every request the core sends is a
 * function of the snapshot: it answers with rows, or with the value a failed
 * request hands to the caller's catch block.
 */
module Store {

  type Id = string

  datatype Option<+T> = None | Some(value: T)

  datatype User = User(id: Id, email: string, fullName: Option<string>, roleId: Id)

  datatype Role = Role(
    id: Id,
    name: string,
    description: Option<string>,
    createdBy: Id,
    createdAt: string,
    updatedAt: string)

  datatype Permission = Permission(
    id: Id,
    name: string,
    description: Option<string>,
    resource: string,
    action: string)

  /** A row of the role_permissions join table. */
  datatype Grant = Grant(roleId: Id, permissionId: Id)

  /** What a catch block receives: an Error object with its message, or any other value. */
  datatype Thrown = ErrorObject(message: string) | OtherValue {
    /** `err instanceof Error ? err.message : fallback` */
    function MessageOr(fallback: string): string {
      if ErrorObject? then message else fallback
    }
  }

  /** The answer to one request. */
  datatype Reply<+T> = Ok(value: T) | Err(thrown: Thrown)

  /** The requests the core sends, one constructor per call site. */
  datatype Request =
    | UserRoleRequest     // a user's role id and role name, in getUserPermissions
    | CatalogRequest      // every permission, for a privileged role
    | RoleGrantsRequest   // a role's grant rows joined to their permissions
    | AdminRequest        // a user's role name, in isAdmin
    | RoleRequest         // one role by id, in getRole
    | ProfileRequest      // the signed-in user's profile, in fetchUser
    | GrantIdsRequest     // the permission ids granted to one role, in the role editor
    | DeleteGrantRequest  // delete the grant rows of one (role, permission) pair
    | InsertGrantRequest  // insert one grant row

  /**
   * One snapshot of the database. `down` names the requests that fail and what
   * they throw; `noRow` is what a `.single()` request reports when no row
   * matches; `duplicate` is what an insert reports when the (role, permission)
   * pair is already present (the join table's uniqueness constraint).
   */
  datatype Db = Db(
    users: map<Id, User>,
    roles: map<Id, Role>,
    catalog: seq<Permission>,
    grants: seq<Grant>,
    down: map<Request, Thrown>,
    noRow: Thrown,
    duplicate: Thrown)

  /** The reply to `request` when, had it succeeded, it would have returned `rows`. */
  function Answer<T>(db: Db, request: Request, rows: T): Reply<T> {
    if request in db.down then Err(db.down[request]) else Ok(rows)
  }

  /** `.from('users').select(...).eq('id', id).single()` */
  function SelectUser(db: Db, request: Request, id: Id): Reply<User> {
    if request in db.down then Err(db.down[request])
    else if id !in db.users then Err(db.noRow)
    else Ok(db.users[id])
  }

  /** The embedded `roles(name)` of a user row: absent when the role id names no role. */
  function RoleNameOf(db: Db, roleId: Id): Option<string> {
    if roleId in db.roles then Some(db.roles[roleId].name) else None
  }

  /** `.from('permissions').select('*')` */
  function SelectCatalog(db: Db): Reply<seq<Permission>> {
    Answer(db, CatalogRequest, db.catalog)
  }

  /** `.from('roles').select('*').eq('id', roleId).single()` */
  function SelectRole(db: Db, roleId: Id): Reply<Role> {
    if RoleRequest in db.down then Err(db.down[RoleRequest])
    else if roleId !in db.roles then Err(db.noRow)
    else Ok(db.roles[roleId])
  }

  /** The permission row a grant's permission id points at, if any: the first catalog entry with that id. */
  function FindPermission(catalog: seq<Permission>, id: Id): (found: Option<Permission>)
    ensures found.Some? ==> found.value in catalog && found.value.id == id
    ensures found.None? ==> forall p :: p in catalog ==> p.id != id
  {
    if catalog == [] then None
    else if catalog[0].id == id then Some(catalog[0])
    else FindPermission(catalog[1..], id)
  }

  /**
   * The grant rows of one role, in table order, each with its embedded
   * permission (None when the permission id points at no permission row).
   */
  function JoinRows(grants: seq<Grant>, catalog: seq<Permission>, roleId: Id): seq<Option<Permission>> {
    if grants == [] then []
    else (if grants[0].roleId == roleId then [FindPermission(catalog, grants[0].permissionId)] else [])
         + JoinRows(grants[1..], catalog, roleId)
  }

  /** `.from('role_permissions').select('permissions(...)').eq('role_id', roleId)` */
  function SelectRoleGrants(db: Db, roleId: Id): Reply<seq<Option<Permission>>> {
    Answer(db, RoleGrantsRequest, JoinRows(db.grants, db.catalog, roleId))
  }

  /** The permission ids of one role's grant rows, in table order. */
  function GrantIds(grants: seq<Grant>, roleId: Id): (ids: seq<Id>)
    ensures forall pid :: pid in ids <==> Grant(roleId, pid) in grants
  {
    if grants == [] then []
    else (if grants[0].roleId == roleId then [grants[0].permissionId] else [])
         + GrantIds(grants[1..], roleId)
  }

  /** `.from('role_permissions').select('permission_id').eq('role_id', roleId)` */
  function SelectGrantIds(db: Db, roleId: Id): Reply<seq<Id>> {
    Answer(db, GrantIdsRequest, GrantIds(db.grants, roleId))
  }

  /** `s.filter(y => y !== x)`: every occurrence of `x` removed, everything else kept in order. */
  function Without<T(==,!new)>(s: seq<T>, x: T): (r: seq<T>)
    ensures x !in r
    ensures forall y :: y != x ==> (y in r <==> y in s)
    ensures multiset(r) == multiset(s)[x := 0]
  {
    if s == [] then []
    else
      assert s == [s[0]] + s[1..];
      (if s[0] == x then [] else [s[0]]) + Without(s[1..], x)
  }

  /** Concatenation is associative (stated once so that callers need not re-derive it element by element). */
  lemma AppendAssociative<T>(a: seq<T>, b: seq<T>, c: seq<T>)
    ensures a + (b + c) == (a + b) + c
  {
  }

  /** `.delete().eq('role_id', roleId).eq('permission_id', pid)`: removes every matching row. */
  function DeleteGrant(db: Db, roleId: Id, pid: Id): Reply<Db> {
    Answer(db, DeleteGrantRequest, db.(grants := Without(db.grants, Grant(roleId, pid))))
  }

  /** `.insert([{ role_id, permission_id }])`, refused when the pair is already present. */
  function InsertGrant(db: Db, roleId: Id, pid: Id): Reply<Db> {
    if InsertGrantRequest in db.down then Err(db.down[InsertGrantRequest])
    else if Grant(roleId, pid) in db.grants then Err(db.duplicate)
    else Ok(db.(grants := db.grants + [Grant(roleId, pid)]))
  }

  /** The role carries `p`: some grant row of the role points at `p`. */
  ghost predicate Granted(db: Db, roleId: Id, p: Permission) {
    exists g :: g in db.grants && g.roleId == roleId && FindPermission(db.catalog, g.permissionId) == Some(p)
  }

  /** The joined rows of a role hold exactly the permissions its grant rows point at. */
  lemma {:induction false} JoinRowsExactly(grants: seq<Grant>, catalog: seq<Permission>, roleId: Id)
    ensures forall p :: Some(p) in JoinRows(grants, catalog, roleId) <==>
      exists g :: g in grants && g.roleId == roleId && FindPermission(catalog, g.permissionId) == Some(p)
  {
    if grants != [] {
      JoinRowsExactly(grants[1..], catalog, roleId);
      assert grants == [grants[0]] + grants[1..];
      forall p ensures Some(p) in JoinRows(grants, catalog, roleId) <==>
        exists g :: g in grants && g.roleId == roleId && FindPermission(catalog, g.permissionId) == Some(p)
      {
        if exists g :: g in grants && g.roleId == roleId && FindPermission(catalog, g.permissionId) == Some(p) {
          var g :| g in grants && g.roleId == roleId && FindPermission(catalog, g.permissionId) == Some(p);
          if g != grants[0] {
            assert g in grants[1..];
          }
        }
      }
    }
  }

  /**
   * Given that permission id `pid` names `p`, the role carries `p` exactly when
   * a grant row (roleId, pid) exists: permission ids are the join key.
   */
  lemma GrantedIffRow(db: Db, roleId: Id, pid: Id, p: Permission)
    requires FindPermission(db.catalog, pid) == Some(p)
    ensures Granted(db, roleId, p) <==> Grant(roleId, pid) in db.grants
  {
    if Granted(db, roleId, p) {
      var g :| g in db.grants && g.roleId == roleId && FindPermission(db.catalog, g.permissionId) == Some(p);
      assert g == Grant(roleId, pid);
    }
    if Grant(roleId, pid) in db.grants {
      var g := Grant(roleId, pid);
      assert g in db.grants && g.roleId == roleId && FindPermission(db.catalog, g.permissionId) == Some(p);
    }
  }
}
