/**
 * The grant editor of components/RolePermissionManager.tsx: the local list of
 * permission ids granted to one role, the toggle that deletes or inserts one
 * grant row and flips the id in the list, the guard that makes the privileged
 * roles read-only, and the grouping of the catalog by resource.
 */
module RoleEditor {
  import opened Store
  import Permissions

  /** `['CEO', 'Admin'].includes(role.name)`: the same names the resolver treats as privileged. */
  predicate IsProtectedRole(role: Role) {
    Permissions.IsPrivilegedName(role.name)
  }

  /** The list shown after fetching: `data?.map(rp => rp.permission_id) || []`. */
  function LoadedIds(db: Db, roleId: Id): (ids: seq<Id>)
    ensures GrantIdsRequest in db.down ==> ids == []
    ensures GrantIdsRequest !in db.down ==> forall pid :: pid in ids <==> Grant(roleId, pid) in db.grants
  {
    match SelectGrantIds(db, roleId)
    case Ok(rows) => rows
    case Err(_) => []
  }

  /** The local list after the database accepted a toggle of `pid`. */
  function ToggledList(ids: seq<Id>, pid: Id): (next: seq<Id>)
    ensures pid in next <==> pid !in ids
    ensures forall other :: other != pid ==> (other in next <==> other in ids)
    ensures pid in ids ==> multiset(next) == multiset(ids)[pid := 0]
    ensures pid !in ids ==> |next| == |ids| + 1 && next[..|ids|] == ids
  {
    if pid in ids then Without(ids, pid) else ids + [pid]
  }

  /** The write a toggle sends: a delete when the list held the id, an insert otherwise. */
  function ToggleWrite(db: Db, roleId: Id, pid: Id, had: bool): Reply<Db> {
    if had then DeleteGrant(db, roleId, pid) else InsertGrant(db, roleId, pid)
  }

  /** The local list holds exactly the permission ids the database grants the role. */
  ghost predicate Agrees(ids: seq<Id>, db: Db, roleId: Id) {
    forall pid :: pid in ids <==> Grant(roleId, pid) in db.grants
  }

  /** A successful fetch leaves the local list in agreement with the database. */
  lemma LoadedIdsAgree(db: Db, roleId: Id)
    requires GrantIdsRequest !in db.down
    ensures Agrees(LoadedIds(db, roleId), db, roleId)
  {
  }

  /**
   * A toggle keeps the local list and the database in agreement: when the
   * write fails neither changes, and when it succeeds both flip the same id.
   */
  lemma ToggleKeepsAgreement(ids: seq<Id>, db: Db, roleId: Id, pid: Id)
    requires Agrees(ids, db, roleId)
    ensures ToggleWrite(db, roleId, pid, pid in ids).Ok? ==>
      Agrees(ToggledList(ids, pid), ToggleWrite(db, roleId, pid, pid in ids).value, roleId)
  {
    var write := ToggleWrite(db, roleId, pid, pid in ids);
    if write.Ok? {
      var next := write.value;
      forall x ensures x in ToggledList(ids, pid) <==> Grant(roleId, x) in next.grants {
        if x != pid {
          assert Grant(roleId, x) != Grant(roleId, pid);
        }
      }
    }
  }

  /**
   * A toggle reaches a user of the role once that user's cache entry is
   * invalidated: the permission the toggled id names is resolved for the user
   * afterwards exactly when it was not before.
   */
  lemma ToggleThenInvalidateFlips(ids: seq<Id>, db: Db, cache: map<Id, seq<Permission>>, userId: Id, pid: Id, p: Permission)
    requires userId in db.users
    requires Agrees(ids, db, db.users[userId].roleId)
    requires UserRoleRequest !in db.down && RoleGrantsRequest !in db.down
    requires !Permissions.IsPrivilegedRole(RoleNameOf(db, db.users[userId].roleId))
    requires FindPermission(db.catalog, pid) == Some(p)
    requires ToggleWrite(db, db.users[userId].roleId, pid, pid in ids).Ok?
    ensures var next := ToggleWrite(db, db.users[userId].roleId, pid, pid in ids).value;
      p in Permissions.PermissionsFor(Permissions.Invalidated(cache, Some(userId)), next, userId)
      <==> p !in Permissions.Resolve(db, userId).perms
  {
    var roleId := db.users[userId].roleId;
    var next := ToggleWrite(db, roleId, pid, pid in ids).value;
    assert next.users == db.users && next.roles == db.roles && next.catalog == db.catalog && next.down == db.down;
    GrantedIffRow(db, roleId, pid, p);
    GrantedIffRow(next, roleId, pid, p);
    assert Grant(roleId, pid) in next.grants <==> Grant(roleId, pid) !in db.grants;
  }

  /** The catalog entries whose resource is `resource`, in catalog order. */
  function ByResource(ps: seq<Permission>, resource: string): (group: seq<Permission>)
    ensures |group| <= |ps|
  {
    if ps == [] then []
    else ByResource(ps[..|ps| - 1], resource) + (if ps[|ps| - 1].resource == resource then [ps[|ps| - 1]] else [])
  }

  /** The distinct resources of the catalog in order of first appearance: the key order of the grouped object. */
  function Resources(ps: seq<Permission>): (keys: seq<string>)
    ensures |keys| <= |ps|
  {
    if ps == [] then []
    else
      var earlier := Resources(ps[..|ps| - 1]);
      earlier + (if ps[|ps| - 1].resource in earlier then [] else [ps[|ps| - 1].resource])
  }

  /** A group holds exactly the catalog entries with its resource. */
  lemma {:induction false} ByResourceMembers(ps: seq<Permission>, resource: string)
    ensures forall p :: p in ByResource(ps, resource) <==> p in ps && p.resource == resource
  {
    if ps != [] {
      ByResourceMembers(ps[..|ps| - 1], resource);
      assert ps == ps[..|ps| - 1] + [ps[|ps| - 1]];
    }
  }

  /** The keys are exactly the resources some catalog entry carries. */
  lemma {:induction false} ResourcesMembers(ps: seq<Permission>)
    ensures forall r :: r in Resources(ps) <==> exists p :: p in ps && p.resource == r
  {
    if ps != [] {
      var init, last := ps[..|ps| - 1], ps[|ps| - 1];
      ResourcesMembers(init);
      assert ps == init + [last];
      forall r ensures r in Resources(ps) <==> exists p :: p in ps && p.resource == r {
        if exists p :: p in ps && p.resource == r {
          var p :| p in ps && p.resource == r;
          if p != last {
            assert p in init;
          }
        }
      }
    }
  }

  /** No resource is a key twice. */
  lemma {:induction false} ResourcesDistinct(ps: seq<Permission>)
    ensures forall i, j :: 0 <= i < j < |Resources(ps)| ==> Resources(ps)[i] != Resources(ps)[j]
  {
    if ps != [] {
      var init, last := ps[..|ps| - 1], ps[|ps| - 1];
      ResourcesDistinct(init);
      var earlier, keys := Resources(init), Resources(ps);
      forall i, j | 0 <= i < j < |keys| ensures keys[i] != keys[j] {
        if j < |earlier| {
          assert keys[i] == earlier[i] && keys[j] == earlier[j];
        } else {
          assert keys[i] == earlier[i] && keys[j] == last.resource && last.resource !in earlier;
        }
      }
    }
  }

  /** Grouping keeps catalog order: the group of a concatenation is the concatenation of the groups. */
  lemma {:induction false} ByResourceSplits(a: seq<Permission>, b: seq<Permission>, resource: string)
    ensures ByResource(a + b, resource) == ByResource(a, resource) + ByResource(b, resource)
  {
    if b == [] {
      assert a + b == a;
    } else {
      var init, last := b[..|b| - 1], b[|b| - 1];
      var tail := if last.resource == resource then [last] else [];
      ByResourceSplits(a, init, resource);
      assert (a + b)[..|a + b| - 1] == a + init;
      assert (a + b)[|a + b| - 1] == last;
      assert ByResource(a + b, resource) == ByResource(a + init, resource) + tail;
      assert ByResource(b, resource) == ByResource(init, resource) + tail;
    }
  }

  /** A resource that no entry carries has an empty group. */
  lemma {:induction false} NoEntryNoGroup(ps: seq<Permission>, resource: string)
    requires forall p :: p in ps ==> p.resource != resource
    ensures ByResource(ps, resource) == []
  {
    if ps != [] {
      assert ps[|ps| - 1] in ps;
      NoEntryNoGroup(ps[..|ps| - 1], resource);
    }
  }

  /** The total size of the groups named by `keys`. */
  function GroupSizes(ps: seq<Permission>, keys: seq<string>): nat {
    if keys == [] then 0 else |ByResource(ps, keys[0])| + GroupSizes(ps, keys[1..])
  }

  lemma {:induction false} GroupSizesAppend(ps: seq<Permission>, keys: seq<string>, key: string)
    ensures GroupSizes(ps, keys + [key]) == GroupSizes(ps, keys) + |ByResource(ps, key)|
  {
    if keys != [] {
      assert (keys + [key])[1..] == keys[1..] + [key];
      GroupSizesAppend(ps, keys[1..], key);
    }
  }

  /** Adding one entry to the catalog adds one to the total of the groups whose key is its resource. */
  lemma {:induction false} GroupSizesGrow(init: seq<Permission>, last: Permission, keys: seq<string>)
    requires forall i, j :: 0 <= i < j < |keys| ==> keys[i] != keys[j]
    ensures GroupSizes(init + [last], keys) == GroupSizes(init, keys) + (if last.resource in keys then 1 else 0)
  {
    if keys != [] {
      assert (init + [last])[..|init + [last]| - 1] == init;
      GroupSizesGrow(init, last, keys[1..]);
      if keys[0] == last.resource {
        assert last.resource !in keys[1..] by {
          forall j | 0 <= j < |keys[1..]| ensures keys[1..][j] != keys[0] {
            assert keys[1..][j] == keys[j + 1];
          }
        }
      }
    }
  }

  /** Every catalog entry lands in exactly one group, so the group sizes add up to the catalog length. */
  lemma {:induction false} GroupSizesCoverCatalog(ps: seq<Permission>)
    ensures GroupSizes(ps, Resources(ps)) == |ps|
  {
    if ps != [] {
      var init, last := ps[..|ps| - 1], ps[|ps| - 1];
      assert ps == init + [last];
      GroupSizesCoverCatalog(init);
      var earlier := Resources(init);
      ResourcesDistinct(init);
      GroupSizesGrow(init, last, earlier);
      if last.resource !in earlier {
        assert Resources(ps) == earlier + [last.resource];
        GroupSizesAppend(ps, earlier, last.resource);
        ResourcesMembers(init);
        NoEntryNoGroup(init, last.resource);
        assert ByResource(ps, last.resource) == ByResource(init, last.resource) + [last];
      } else {
        assert Resources(ps) == earlier;
      }
    }
  }

  /** One more catalog entry joins the group of its resource and, if that resource is new, adds its key last. */
  lemma GroupsSnoc(ps: seq<Permission>, x: Permission)
    ensures Resources(ps + [x]) == Resources(ps) + (if x.resource in Resources(ps) then [] else [x.resource])
    ensures forall r :: ByResource(ps + [x], r) == ByResource(ps, r) + (if x.resource == r then [x] else [])
  {
    assert (ps + [x])[..|ps + [x]| - 1] == ps;
  }

  /**
   * The object the reduce builds, entry by entry: a missing key starts as an
   * empty group, then the entry is appended to its resource's group.
   */
  function GroupMap(ps: seq<Permission>): map<string, seq<Permission>> {
    if ps == [] then map[]
    else
      var groups, x := GroupMap(ps[..|ps| - 1]), ps[|ps| - 1];
      var started := if x.resource in groups then groups else groups[x.resource := []];
      started[x.resource := started[x.resource] + [x]]
  }

  /** A resource is a key of the object exactly when it is among the catalog's resources. */
  lemma {:induction false} GroupMapHasKey(ps: seq<Permission>, r: string)
    ensures r in GroupMap(ps) <==> r in Resources(ps)
  {
    if ps != [] {
      GroupMapHasKey(ps[..|ps| - 1], r);
      GroupMapHasKey(ps[..|ps| - 1], ps[|ps| - 1].resource);
    }
  }

  /** The object's keys are the catalog's resources and each key holds that resource's group. */
  lemma {:induction false} GroupMapGroups(ps: seq<Permission>)
    ensures forall r :: r in GroupMap(ps) <==> r in Resources(ps)
    ensures forall r :: r in GroupMap(ps) ==> GroupMap(ps)[r] == ByResource(ps, r)
  {
    if ps != [] {
      var init, x := ps[..|ps| - 1], ps[|ps| - 1];
      GroupMapGroups(init);
      assert ps == init + [x];
      GroupsSnoc(init, x);
      if x.resource !in GroupMap(init) {
        ResourcesMembers(init);
        NoEntryNoGroup(init, x.resource);
      }
    }
  }

  /** The `permissions.reduce(...)` that fills a dictionary of groups keyed by resource. */
  method GroupByResource(permissions: seq<Permission>) returns (groups: map<string, seq<Permission>>, keys: seq<string>)
    ensures keys == Resources(permissions)
    ensures forall r :: r in groups <==> r in keys
    ensures forall r :: r in groups ==> groups[r] == ByResource(permissions, r)
    ensures GroupSizes(permissions, keys) == |permissions|
  {
    groups, keys := map[], [];
    for i := 0 to |permissions|
      invariant groups == GroupMap(permissions[..i])
      invariant keys == Resources(permissions[..i])
    {
      var perm := permissions[i];
      assert permissions[..i + 1][..i] == permissions[..i];
      GroupMapHasKey(permissions[..i], perm.resource);
      if perm.resource !in groups {
        groups := groups[perm.resource := []];
        keys := keys + [perm.resource];
      }
      groups := groups[perm.resource := groups[perm.resource] + [perm]];
    }
    assert permissions[..|permissions|] == permissions;
    GroupMapGroups(permissions);
    GroupSizesCoverCatalog(permissions);
  }

  /** The component's state for one role. */
  class PermissionEditor {
    const role: Role
    var rolePermissions: seq<Id>
    var loading: bool
    var saving: bool
    var error: string

    constructor (role: Role)
      ensures this.role == role && rolePermissions == [] && loading && !saving && error == ""
    {
      this.role := role;
      rolePermissions, loading, saving, error := [], true, false, "";
    }

    /** fetchRolePermissions */
    method FetchRolePermissions(db: Db)
      modifies this`rolePermissions, this`loading
      ensures rolePermissions == LoadedIds(db, role.id) && !loading
    {
      var reply := SelectGrantIds(db, role.id);
      rolePermissions := if reply.Ok? then reply.value else [];
      loading := false;
    }

    /**
     * The state after toggling `pid` against `db`, starting from the list
     * `before`; `next` is the database afterwards.
     */
    ghost predicate ToggledFrom(db: Db, pid: Id, before: seq<Id>, next: Db)
      reads this
    {
      && !saving
      && match ToggleWrite(db, role.id, pid, pid in before)
         case Ok(written) => next == written && error == "" && rolePermissions == ToggledList(before, pid)
         case Err(thrown) =>
           next == db && error == thrown.MessageOr("Failed to update permissions") && rolePermissions == before
    }

    /** handlePermissionToggle; returns the database after the write. */
    method HandlePermissionToggle(db: Db, permissionId: Id) returns (next: Db)
      modifies this`rolePermissions, this`saving, this`error
      ensures ToggledFrom(db, permissionId, old(rolePermissions), next)
      ensures ToggleWrite(db, role.id, permissionId, permissionId in old(rolePermissions)).Ok? ==>
        (permissionId in rolePermissions <==> permissionId !in old(rolePermissions))
    {
      var hasPermission := permissionId in rolePermissions;
      saving := true;
      error := "";
      next := db;
      if hasPermission {
        var reply := DeleteGrant(db, role.id, permissionId);
        if reply.Err? {
          error := reply.thrown.MessageOr("Failed to update permissions");
        } else {
          next := reply.value;
          rolePermissions := Without(rolePermissions, permissionId);
        }
      } else {
        var reply := InsertGrant(db, role.id, permissionId);
        if reply.Err? {
          error := reply.thrown.MessageOr("Failed to update permissions");
        } else {
          next := reply.value;
          rolePermissions := rolePermissions + [permissionId];
        }
      }
      saving := false;
    }

    /**
     * A click on a permission button: ignored for a protected role, while a
     * save is in flight, and while loading (no button is rendered then).
     */
    method Click(db: Db, permissionId: Id) returns (next: Db)
      modifies this`rolePermissions, this`saving, this`error
      ensures IsProtectedRole(role) || old(saving) || loading ==>
        next == db && rolePermissions == old(rolePermissions) && error == old(error) && saving == old(saving)
      ensures !IsProtectedRole(role) && !old(saving) && !loading ==> ToggledFrom(db, permissionId, old(rolePermissions), next)
    {
      if IsProtectedRole(role) || saving || loading {
        return db;
      }
      next := HandlePermissionToggle(db, permissionId);
    }
  }
}
