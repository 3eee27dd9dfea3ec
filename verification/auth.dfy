/**
 * The session store of lib/authStore.ts: the current user, role, permission
 * list and admin flag, the synchronous permission check, and the transitions
 * written by login, logout, fetchUser, clearError and the auth-state listener.
 * The external sign-in service and session lookup are inputs: `SignIn` is how
 * signing in ended, a session is the signed-in user's id or none.
 */
module Auth {
  import opened Store
  import opened Permissions

  /** The store's state fields. */
  datatype AuthState = AuthState(
    user: Option<User>,
    role: Option<Role>,
    permissions: seq<Permission>,
    isAdmin: bool,
    isLoading: bool,
    error: Option<string>)

  /** How a call to the sign-in service ended. */
  datatype SignIn =
    | SignInFailed(thrown: Thrown)   // it threw, or returned an error that login rethrows
    | SignedIn(user: Option<Id>)     // it returned, with or without a user

  const Initial: AuthState := AuthState(None, None, [], false, true, None)

  /** hasPermission: admins pass every check; everyone else needs a stored permission with that resource and action. */
  function Allows(s: AuthState, resource: string, action: string): (b: bool)
    ensures s.isAdmin ==> b
    ensures !s.isAdmin ==> (b <==> exists p :: p in s.permissions && p.resource == resource && p.action == action)
  {
    s.isAdmin || AnyMatches(s.permissions, resource, action)
  }

  /** Without a signed-in user the store holds no role, no permission and no admin flag. */
  ghost predicate NoUserNoAuthority(s: AuthState) {
    s.user.None? ==> s.role.None? && s.permissions == [] && !s.isAdmin
  }

  /** The reset written by a successful logout and by fetchUser without a session. */
  function SignedOut(s: AuthState): (t: AuthState)
    ensures t.user.None? && !t.isLoading && t.error == s.error
    ensures NoUserNoAuthority(t)
    ensures forall resource, action :: !Allows(t, resource, action)
  {
    s.(user := None, role := None, permissions := [], isAdmin := false, isLoading := false)
  }

  /** The reset written by the auth-state listener when the session is gone: loading flag and error untouched. */
  function Cleared(s: AuthState): (t: AuthState)
    ensures t.user.None? && t.isLoading == s.isLoading && t.error == s.error
    ensures NoUserNoAuthority(t)
    ensures forall resource, action :: !Allows(t, resource, action)
  {
    s.(user := None, role := None, permissions := [], isAdmin := false)
  }

  /** The profile fetchUser reads for `session`, when there is a session and the read succeeds. */
  function ProfileOf(db: Db, session: Option<Id>): Option<User> {
    if session.Some? && SelectUser(db, ProfileRequest, session.value).Ok?
    then Some(db.users[session.value]) else None
  }

  /**
   * fetchUser, given the resolver's caches `pc` (per user) and `rc` (per role)
   * before the call.
   */
  function FetchUserStep(s: AuthState, pc: map<Id, seq<Permission>>, rc: map<Id, Role>, db: Db, session: Option<Id>): (t: AuthState)
    // It always ends loading.
    ensures !t.isLoading
    ensures NoUserNoAuthority(s) ==> NoUserNoAuthority(t)
    // No session: signed out, nothing allowed.
    ensures session.None? ==> t == SignedOut(s)
    // The profile read fails: the error is recorded and user, role, permissions and admin flag are kept.
    ensures session.Some? && SelectUser(db, ProfileRequest, session.value).Err? ==>
      && t.error.Some?
      && t.user == s.user && t.role == s.role && t.permissions == s.permissions && t.isAdmin == s.isAdmin
    // The profile is read: the resolver's answers are stored; the error is kept.
    ensures ProfileOf(db, session).Some? ==>
      var u := ProfileOf(db, session).value;
      && t.user == Some(u)
      && t.permissions == PermissionsFor(pc, db, u.id)
      && t.isAdmin == AdminStatus(db, u.id)
      && t.role == RoleFor(rc, db, u.roleId)
      && t.error == s.error
  {
    match session
    case None => SignedOut(s)
    case Some(uid) =>
      match SelectUser(db, ProfileRequest, uid)
      case Err(thrown) => s.(error := Some(thrown.MessageOr("Failed to fetch user")), isLoading := false)
      case Ok(u) =>
        s.(user := Some(u),
           role := RoleFor(rc, db, u.roleId),
           permissions := PermissionsFor(pc, db, u.id),
           isAdmin := AdminStatus(db, u.id),
           isLoading := false)
  }

  /** The per-user cache after fetchUser. */
  function PermissionCacheAfterFetch(pc: map<Id, seq<Permission>>, db: Db, session: Option<Id>): map<Id, seq<Permission>> {
    match ProfileOf(db, session)
    case Some(u) => PermissionCacheAfter(pc, db, u.id)
    case None => pc
  }

  /** The per-role cache after fetchUser. */
  function RoleCacheAfterFetch(rc: map<Id, Role>, db: Db, session: Option<Id>): map<Id, Role> {
    match ProfileOf(db, session)
    case Some(u) => RoleCacheAfter(rc, db, u.roleId)
    case None => rc
  }

  /** The session fetchUser sees after a sign-in: the returned user, if any. */
  function SessionAfter(signIn: SignIn): (session: Option<Id>)
    ensures session.Some? <==> signIn.SignedIn? && signIn.user.Some?
  {
    if signIn.SignedIn? then signIn.user else None
  }

  /** login */
  function LoginStep(s: AuthState, pc: map<Id, seq<Permission>>, rc: map<Id, Role>, db: Db, signIn: SignIn): (t: AuthState)
    ensures NoUserNoAuthority(s) ==> NoUserNoAuthority(t)
    // A failed sign-in records its message, ends loading and keeps user, role, permissions and admin flag.
    ensures signIn.SignInFailed? ==>
      && t.error == Some(signIn.thrown.MessageOr("Login failed"))
      && !t.isLoading
      && t.user == s.user && t.role == s.role && t.permissions == s.permissions && t.isAdmin == s.isAdmin
    // A sign-in that returns no user leaves the store loading with no error.
    ensures signIn == SignedIn(None) ==> t == s.(isLoading := true, error := None)
    // A sign-in that returns a user fetches it, starting from a cleared error.
    ensures signIn.SignedIn? && signIn.user.Some? ==>
      t == FetchUserStep(s.(isLoading := true, error := None), pc, rc, db, signIn.user)
  {
    var started := s.(isLoading := true, error := None);
    match signIn
    case SignInFailed(thrown) => started.(error := Some(thrown.MessageOr("Login failed")), isLoading := false)
    case SignedIn(None) => started
    case SignedIn(Some(uid)) => FetchUserStep(started, pc, rc, db, Some(uid))
  }

  /** logout; `signOut` is what the sign-out call threw, if anything. */
  function LogoutStep(s: AuthState, signOut: Option<Thrown>): (t: AuthState)
    ensures !t.isLoading
    ensures NoUserNoAuthority(s) ==> NoUserNoAuthority(t)
    // A successful logout is the sign-out reset: no user, no role, error kept, and nothing allowed.
    ensures signOut.None? ==> t == SignedOut(s)
    ensures signOut.None? ==> t.user.None? && forall resource, action :: !Allows(t, resource, action)
    // A failed logout records its message and keeps the user's authority.
    ensures signOut.Some? ==>
      && t.error == Some(signOut.value.MessageOr("Logout failed"))
      && t.user == s.user && t.role == s.role && t.permissions == s.permissions && t.isAdmin == s.isAdmin
  {
    var started := s.(isLoading := true);
    match signOut
    case None => SignedOut(started)
    case Some(thrown) => started.(error := Some(thrown.MessageOr("Logout failed")), isLoading := false)
  }

  /** The auth-state listener: a session triggers fetchUser, no session clears the authority. */
  function AuthChangeStep(s: AuthState, pc: map<Id, seq<Permission>>, rc: map<Id, Role>, db: Db, session: Option<Id>): (t: AuthState)
    ensures NoUserNoAuthority(s) ==> NoUserNoAuthority(t)
    ensures session.None? ==> t.user.None? && t.isLoading == s.isLoading && t.error == s.error
    ensures session.None? ==> forall resource, action :: !Allows(t, resource, action)
    ensures session.Some? ==> t == FetchUserStep(s, pc, rc, db, session)
    ensures session.None? ==> t == Cleared(s)
  {
    if session.Some? then FetchUserStep(s, pc, rc, db, session) else Cleared(s)
  }

  /**
   * After a successful fetchUser for a user the resolver has not cached, a
   * check passes exactly when isAdmin said yes or the freshly resolved list
   * holds that resource and action.
   */
  lemma FetchedUserAllows(s: AuthState, pc: map<Id, seq<Permission>>, rc: map<Id, Role>, db: Db, uid: Id, resource: string, action: string)
    requires ProfileOf(db, Some(uid)).Some?
    requires db.users[uid].id == uid  // users are keyed by their id
    requires uid !in pc
    ensures Allows(FetchUserStep(s, pc, rc, db, Some(uid)), resource, action) <==>
      AdminStatus(db, uid) || exists p :: p in Resolve(db, uid).perms && p.resource == resource && p.action == action
  {
  }

  /**
   * A failed profile read keeps whatever authority the store already had,
   * for every check (the store never enters a deny-everything state on it).
   */
  lemma FailedFetchKeepsAuthority(s: AuthState, pc: map<Id, seq<Permission>>, rc: map<Id, Role>, db: Db, uid: Id, resource: string, action: string)
    requires SelectUser(db, ProfileRequest, uid).Err?
    ensures Allows(FetchUserStep(s, pc, rc, db, Some(uid)), resource, action) == Allows(s, resource, action)
  {
  }

  /**
   * A role lookup that fails does not deny: the store holds no role, but the
   * permission list and admin flag come from their own lookups and every check
   * passes or fails as it would with the role.
   */
  lemma RoleFailureDoesNotDeny(s: AuthState, pc: map<Id, seq<Permission>>, rc: map<Id, Role>, db: Db, uid: Id, resource: string, action: string)
    requires ProfileOf(db, Some(uid)).Some?
    requires db.users[uid].roleId !in rc && RoleRequest in db.down
    ensures var t := FetchUserStep(s, pc, rc, db, Some(uid));
      && t.role.None?
      && (Allows(t, resource, action) <==>
          AdminStatus(db, db.users[uid].id) || AnyMatches(PermissionsFor(pc, db, db.users[uid].id), resource, action))
  {
  }

  /** The zustand store: its fields, the shared resolver it calls, and its actions. */
  class AuthStore {
    var user: Option<User>
    var role: Option<Role>
    var permissions: seq<Permission>
    var isAdmin: bool
    var isLoading: bool
    var error: Option<string>
    const resolver: PermissionResolver

    function State(): AuthState
      reads this
    {
      AuthState(user, role, permissions, isAdmin, isLoading, error)
    }

    constructor (resolver: PermissionResolver)
      ensures State() == Initial && this.resolver == resolver
      ensures NoUserNoAuthority(State())
    {
      user, role, permissions, isAdmin, isLoading, error := None, None, [], false, true, None;
      this.resolver := resolver;
    }

    /** hasPermission: a pure read of the fields. */
    function HasPermission(resource: string, action: string): (b: bool)
      reads this
      ensures isAdmin ==> b
      ensures !isAdmin ==> (b <==> exists p :: p in permissions && p.resource == resource && p.action == action)
    {
      Allows(State(), resource, action)
    }

    /** fetchUser, for the session the auth service reports. */
    method FetchUser(db: Db, session: Option<Id>)
      modifies this, resolver
      ensures State() == FetchUserStep(old(State()), old(resolver.cachedPermissions), old(resolver.cachedRoles), db, session)
      ensures resolver.cachedPermissions == PermissionCacheAfterFetch(old(resolver.cachedPermissions), db, session)
      ensures resolver.cachedRoles == RoleCacheAfterFetch(old(resolver.cachedRoles), db, session)
    {
      if session.None? {
        user, role, permissions, isAdmin, isLoading := None, None, [], false, false;
        return;
      }
      var userRow := SelectUser(db, ProfileRequest, session.value);
      if userRow.Err? {
        error, isLoading := Some(userRow.thrown.MessageOr("Failed to fetch user")), false;
        return;
      }
      var userData := userRow.value;
      var perms := resolver.GetUserPermissions(db, userData.id);
      var isAdminUser := resolver.IsAdmin(db, userData.id);
      var userRole := resolver.GetRole(db, userData.roleId);
      user, role, permissions, isAdmin, isLoading := Some(userData), userRole, perms, isAdminUser, false;
    }

    /** login */
    method Login(db: Db, signIn: SignIn)
      modifies this, resolver
      ensures State() == LoginStep(old(State()), old(resolver.cachedPermissions), old(resolver.cachedRoles), db, signIn)
      ensures resolver.cachedPermissions == PermissionCacheAfterFetch(old(resolver.cachedPermissions), db, SessionAfter(signIn))
      ensures resolver.cachedRoles == RoleCacheAfterFetch(old(resolver.cachedRoles), db, SessionAfter(signIn))
    {
      isLoading, error := true, None;
      match signIn {
        case SignInFailed(thrown) =>
          error, isLoading := Some(thrown.MessageOr("Login failed")), false;
        case SignedIn(None) =>
        case SignedIn(Some(uid)) =>
          FetchUser(db, Some(uid));
      }
    }

    /** logout */
    method Logout(signOut: Option<Thrown>)
      modifies this
      ensures State() == LogoutStep(old(State()), signOut)
    {
      isLoading := true;
      match signOut {
        case None =>
          user, role, permissions, isAdmin, isLoading := None, None, [], false, false;
        case Some(thrown) =>
          error, isLoading := Some(thrown.MessageOr("Logout failed")), false;
      }
    }

    /** clearError: only the error is reset. */
    method ClearError()
      modifies this`error
      ensures State() == old(State()).(error := None)
    {
      error := None;
    }

    /** The auth-state listener registered at load. */
    method OnAuthStateChange(db: Db, session: Option<Id>)
      modifies this, resolver
      ensures State() == AuthChangeStep(old(State()), old(resolver.cachedPermissions), old(resolver.cachedRoles), db, session)
      ensures resolver.cachedPermissions == PermissionCacheAfterFetch(old(resolver.cachedPermissions), db, session)
      ensures resolver.cachedRoles == RoleCacheAfterFetch(old(resolver.cachedRoles), db, session)
    {
      if session.Some? {
        FetchUser(db, session);
      } else {
        user, role, permissions, isAdmin := None, None, [], false;
      }
    }
  }
}
