/**
 * The permission resolver of lib/permissions.ts: resolving a user to a list
 * of permissions (full catalog for the privileged role names, the joined
 * grants otherwise, the empty list on any failure), the per-user and per-role
 * caches, the membership check, the privileged-name test and invalidation.
 */
module Permissions {
  import opened Store

  /** The protected role names, which carry every permission. */
  predicate IsPrivilegedName(name: string) {
    name == "CEO" || name == "Admin"
  }

  /** `name === 'CEO' || name === 'Admin'` on a role name that may be absent. */
  predicate IsPrivilegedRole(name: Option<string>) {
    name.Some? && IsPrivilegedName(name.value)
  }

  /** `perms.some(p => p.resource === resource && p.action === action)` */
  function AnyMatches(perms: seq<Permission>, resource: string, action: string): (b: bool)
    ensures b <==> exists p :: p in perms && p.resource == resource && p.action == action
  {
    if perms == [] then false
    else
      assert perms == [perms[0]] + perms[1..];
      (perms[0].resource == resource && perms[0].action == action) || AnyMatches(perms[1..], resource, action)
  }

  /** `rows.map(rp => rp.permissions).filter(Boolean)`: the embedded permissions that are present, in row order. */
  function Present(rows: seq<Option<Permission>>): (ps: seq<Permission>)
    ensures forall p :: p in ps <==> Some(p) in rows
    ensures |ps| <= |rows|
  {
    if rows == [] then []
    else
      assert rows == [rows[0]] + rows[1..];
      (if rows[0].Some? then [rows[0].value] else []) + Present(rows[1..])
  }

  /**
   * What resolving a user without a cache entry gives: the permission list,
   * whether it is written to the cache, and the requests sent, in order.
   */
  datatype Resolution = Resolution(perms: seq<Permission>, cacheable: bool, requests: seq<Request>)

  /** Resolution of `userId` against the database, with no cache entry for it. */
  function Resolve(db: Db, userId: Id): (r: Resolution)
    // A failed or empty user lookup denies everything and caches nothing.
    ensures SelectUser(db, UserRoleRequest, userId).Err? ==> r == Resolution([], false, [UserRoleRequest])
    // Whatever is not cached is the empty list.
    ensures !r.cacheable ==> r.perms == []
    // Privileged role names get the whole catalog ([] when it cannot be read), cached, and grants are never read.
    ensures SelectUser(db, UserRoleRequest, userId).Ok? && IsPrivilegedRole(RoleNameOf(db, db.users[userId].roleId)) ==>
      && r.cacheable
      && r.perms == (if CatalogRequest in db.down then [] else db.catalog)
      && r.requests == [UserRoleRequest, CatalogRequest]
    // Any other role gets exactly the permissions its grant rows point at, cached; [] uncached when grants cannot be read.
    ensures SelectUser(db, UserRoleRequest, userId).Ok? && !IsPrivilegedRole(RoleNameOf(db, db.users[userId].roleId)) ==>
      && r.requests == [UserRoleRequest, RoleGrantsRequest]
      && r.cacheable == (RoleGrantsRequest !in db.down)
      && (r.cacheable ==> forall p :: p in r.perms <==> Granted(db, db.users[userId].roleId, p))
  {
    match SelectUser(db, UserRoleRequest, userId)
    case Err(_) => Resolution([], false, [UserRoleRequest])
    case Ok(user) =>
      if IsPrivilegedRole(RoleNameOf(db, user.roleId)) then
        var all := SelectCatalog(db);
        Resolution(if all.Ok? then all.value else [], true, [UserRoleRequest, CatalogRequest])
      else
        match SelectRoleGrants(db, user.roleId)
        case Err(_) => Resolution([], false, [UserRoleRequest, RoleGrantsRequest])
        case Ok(rows) =>
          JoinRowsExactly(db.grants, db.catalog, user.roleId);
          Resolution(Present(rows), true, [UserRoleRequest, RoleGrantsRequest])
  }

  /** What getUserPermissions returns, given the per-user cache before the call. */
  function PermissionsFor(cache: map<Id, seq<Permission>>, db: Db, userId: Id): seq<Permission> {
    if userId in cache then cache[userId] else Resolve(db, userId).perms
  }

  /** The per-user cache after getUserPermissions. */
  function PermissionCacheAfter(cache: map<Id, seq<Permission>>, db: Db, userId: Id): (after: map<Id, seq<Permission>>)
    ensures after.Keys <= cache.Keys + {userId}
    ensures forall k :: k in cache ==> k in after && after[k] == cache[k]
    // The user is added exactly when the resolution is cacheable (a failed lookup caches nothing), with the resolved list.
    ensures userId in after <==> userId in cache || Resolve(db, userId).cacheable
    ensures userId !in cache && Resolve(db, userId).cacheable ==> after[userId] == Resolve(db, userId).perms
  {
    if userId in cache || !Resolve(db, userId).cacheable then cache
    else cache[userId := Resolve(db, userId).perms]
  }

  /** The requests getUserPermissions sends. */
  function PermissionRequests(cache: map<Id, seq<Permission>>, db: Db, userId: Id): seq<Request> {
    if userId in cache then [] else Resolve(db, userId).requests
  }

  /** isAdmin: the user's role name, read afresh, is a privileged name; any failure gives false. */
  function AdminStatus(db: Db, userId: Id): (b: bool)
    ensures b <==> SelectUser(db, AdminRequest, userId).Ok? && IsPrivilegedRole(RoleNameOf(db, db.users[userId].roleId))
    ensures AdminRequest in db.down || userId !in db.users ==> !b
  {
    match SelectUser(db, AdminRequest, userId)
    case Err(_) => false
    case Ok(user) => IsPrivilegedRole(RoleNameOf(db, user.roleId))
  }

  /** What getRole returns, given the per-role cache before the call. */
  function RoleFor(cache: map<Id, Role>, db: Db, roleId: Id): (role: Option<Role>)
    ensures roleId in cache ==> role == Some(cache[roleId])
    ensures roleId !in cache ==> (role.Some? <==> SelectRole(db, roleId).Ok?)
    ensures role.Some? && roleId !in cache ==> role.value == db.roles[roleId]
  {
    if roleId in cache then Some(cache[roleId])
    else match SelectRole(db, roleId)
      case Ok(found) => Some(found)
      case Err(_) => None
  }

  /** The per-role cache after getRole: only roles that were found are added. */
  function RoleCacheAfter(cache: map<Id, Role>, db: Db, roleId: Id): (after: map<Id, Role>)
    ensures after.Keys <= cache.Keys + {roleId}
    ensures forall k :: k in cache ==> k in after && after[k] == cache[k]
    ensures roleId in after <==> roleId in cache || SelectRole(db, roleId).Ok?
    ensures roleId !in cache && SelectRole(db, roleId).Ok? ==> after[roleId] == db.roles[roleId]
  {
    if roleId in cache then cache
    else match SelectRole(db, roleId)
      case Ok(found) => cache[roleId := found]
      case Err(_) => cache
  }

  /** The requests getRole sends. */
  function RoleRequests(cache: map<Id, Role>, roleId: Id): seq<Request> {
    if roleId in cache then [] else [RoleRequest]
  }

  /**
   * invalidateCache(userId?): a non-empty id drops that user's entry only;
   * no id, or the empty string (falsy), empties the whole per-user cache.
   */
  function Invalidated(cache: map<Id, seq<Permission>>, userId: Option<Id>): (after: map<Id, seq<Permission>>)
    ensures userId.Some? && userId.value != "" ==>
      forall k :: k in after <==> k in cache && k != userId.value
    ensures forall k :: k in after ==> k in cache && after[k] == cache[k]
    ensures userId.None? || userId.value == "" ==> after == map[]
  {
    if userId.Some? && userId.value != "" then cache - {userId.value} else map[]
  }

  /**
   * The module-level caches of lib/permissions.ts. `requests` records, for the
   * proofs only, every request the resolver has sent.
   */
  class PermissionResolver {
    var cachedPermissions: map<Id, seq<Permission>>
    var cachedRoles: map<Id, Role>
    ghost var requests: seq<Request>

    constructor ()
      ensures cachedPermissions == map[] && cachedRoles == map[] && requests == []
    {
      cachedPermissions := map[];
      cachedRoles := map[];
      requests := [];
    }

    /** getUserPermissions */
    method GetUserPermissions(db: Db, userId: Id) returns (perms: seq<Permission>)
      modifies this
      ensures perms == PermissionsFor(old(cachedPermissions), db, userId)
      ensures cachedPermissions == PermissionCacheAfter(old(cachedPermissions), db, userId)
      ensures requests == old(requests) + PermissionRequests(old(cachedPermissions), db, userId)
      ensures cachedRoles == old(cachedRoles)
    {
      if userId in cachedPermissions {
        return cachedPermissions[userId];
      }
      var userRow := SelectUser(db, UserRoleRequest, userId);
      requests := requests + [UserRoleRequest];
      if userRow.Err? {
        return [];
      }
      if IsPrivilegedRole(RoleNameOf(db, userRow.value.roleId)) {
        var all := SelectCatalog(db);
        requests := requests + [CatalogRequest];
        perms := if all.Ok? then all.value else [];
        cachedPermissions := cachedPermissions[userId := perms];
        return;
      }
      var rolePerms := SelectRoleGrants(db, userRow.value.roleId);
      requests := requests + [RoleGrantsRequest];
      if rolePerms.Err? {
        return [];
      }
      perms := Present(rolePerms.value);
      cachedPermissions := cachedPermissions[userId := perms];
    }

    /** hasPermission(userId, resource, action) */
    method HasPermission(db: Db, userId: Id, resource: string, action: string) returns (b: bool)
      modifies this
      ensures b <==> exists p :: p in PermissionsFor(old(cachedPermissions), db, userId)
                                && p.resource == resource && p.action == action
      ensures cachedPermissions == PermissionCacheAfter(old(cachedPermissions), db, userId)
      ensures requests == old(requests) + PermissionRequests(old(cachedPermissions), db, userId)
      ensures cachedRoles == old(cachedRoles)
    {
      var perms := GetUserPermissions(db, userId);
      b := AnyMatches(perms, resource, action);
    }

    /** isAdmin: reads the role name afresh and touches neither cache. */
    method IsAdmin(db: Db, userId: Id) returns (b: bool)
      modifies this`requests
      ensures b == AdminStatus(db, userId)
      ensures requests == old(requests) + [AdminRequest]
    {
      var row := SelectUser(db, AdminRequest, userId);
      requests := requests + [AdminRequest];
      b := row.Ok? && IsPrivilegedRole(RoleNameOf(db, row.value.roleId));
    }

    /** getRole */
    method GetRole(db: Db, roleId: Id) returns (role: Option<Role>)
      modifies this
      ensures role == RoleFor(old(cachedRoles), db, roleId)
      ensures cachedRoles == RoleCacheAfter(old(cachedRoles), db, roleId)
      ensures requests == old(requests) + RoleRequests(old(cachedRoles), roleId)
      ensures cachedPermissions == old(cachedPermissions)
    {
      if roleId in cachedRoles {
        return Some(cachedRoles[roleId]);
      }
      var row := SelectRole(db, roleId);
      requests := requests + [RoleRequest];
      if row.Ok? {
        cachedRoles := cachedRoles[roleId := row.value];
        role := Some(row.value);
      } else {
        role := None;
      }
    }

    /** invalidateCache(userId?) */
    method InvalidateCache(userId: Option<Id>)
      modifies this`cachedPermissions
      ensures cachedPermissions == Invalidated(old(cachedPermissions), userId)
    {
      if userId.Some? && userId.value != "" {
        cachedPermissions := cachedPermissions - {userId.value};
      } else {
        cachedPermissions := map[];
      }
    }
  }

  /**
   * A cache entry, even an empty list, is returned as is whatever the database
   * now holds, and no request is sent.
   */
  lemma CacheHitIgnoresDatabase(cache: map<Id, seq<Permission>>, db: Db, later: Db, userId: Id)
    requires userId in cache
    ensures PermissionsFor(cache, later, userId) == PermissionsFor(cache, db, userId) == cache[userId]
    ensures PermissionRequests(cache, later, userId) == []
    ensures PermissionCacheAfter(cache, later, userId) == cache
  {
  }

  /**
   * Resolving twice without a change in between gives the same list, and when
   * the first call cached it the second sends no request.
   */
  lemma RepeatedLookup(cache: map<Id, seq<Permission>>, db: Db, userId: Id)
    ensures var after := PermissionCacheAfter(cache, db, userId);
      && PermissionsFor(after, db, userId) == PermissionsFor(cache, db, userId)
      && (userId in cache || Resolve(db, userId).cacheable ==> PermissionRequests(after, db, userId) == [])
  {
  }

  /** After invalidating a user (or everyone), the next lookup reflects the database as it is then. */
  lemma InvalidationRefreshes(cache: map<Id, seq<Permission>>, userId: Id, db: Db)
    ensures PermissionsFor(Invalidated(cache, Some(userId)), db, userId) == Resolve(db, userId).perms
  {
  }

  /** When isAdmin says yes and the resolver can read the user, the resolver gives the whole catalog. */
  lemma AdminMeansCatalog(db: Db, userId: Id)
    requires AdminStatus(db, userId)
    requires UserRoleRequest !in db.down
    ensures Resolve(db, userId).perms == (if CatalogRequest in db.down then [] else db.catalog)
  {
  }

  /**
   * Fail-closed on a dangling role: a user whose role id names no role, and
   * which no grant row names, holds no permission and is not an admin.
   */
  lemma DanglingRoleDeniesAll(db: Db, userId: Id, resource: string, action: string)
    requires userId in db.users && db.users[userId].roleId !in db.roles
    requires forall g :: g in db.grants ==> g.roleId != db.users[userId].roleId
    ensures !AnyMatches(Resolve(db, userId).perms, resource, action)
    ensures !AdminStatus(db, userId)
  {
    var roleId := db.users[userId].roleId;
    assert forall p :: !Granted(db, roleId, p);
  }
}
