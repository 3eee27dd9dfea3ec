# Role-based access control of Snail Studio Ops, in Dafny

This project models the access-control core of the operations dashboard:

- **Permission resolver** (`lib/permissions.ts`; module `Permissions`). It resolves a
  user to a permission list:
  - the role names `CEO` and `Admin` get the whole catalog;
  - any other role gets the permissions its grant rows point at;
  - any failure gives the empty list.
  It keeps a per-user permission cache and a per-role cache, and has the
  membership check, the admin test and cache invalidation.
- **Session store** (`lib/authStore.ts`; module `Auth`). It holds the signed-in
  user, role, permission list, admin flag, loading flag and error. It has the
  synchronous `hasPermission` check and the transitions made by `login`,
  `logout`, `fetchUser`, `clearError` and the auth-state listener.
- **Grant editor** (`components/RolePermissionManager.tsx`; module `RoleEditor`).
  This covers:
  - the local list of permission ids granted to one role, loaded from the join table;
  - the toggle that deletes or inserts one grant row and flips the id in the list;
  - the read-only guard on the `CEO` and `Admin` roles;
  - the grouping of the catalog by resource.
- **Navigation menu** (`components/Sidebar.tsx`; module `Navigation`). This is the
  fixed menu, the rule that hides an item from a user without access, and the
  active-link marking.

The hosted database is one value, `Store.Db`. It holds:
- the user, role, permission and grant rows;
- the requests that fail and what they throw (`down`);
- what a single-row select throws when no row matches (`noRow`);
- what an insert of an existing (role, permission) pair throws (`duplicate`).

Each query the program sends is a function of that snapshot. There is one
`Request` constructor per call site, so each call site can fail on its own.

Mutable state becomes classes:
- the module-level caches: `Permissions.PermissionResolver`;
- the zustand store: `Auth.AuthStore`;
- the component state: `RoleEditor.PermissionEditor`.

Each method is proved against a pure function of the old state and the
inputs: `Resolve`, `FetchUserStep`, `LoginStep`, `ToggledList`, `GroupMap` and
so on. The properties are proved about those functions. The resolver's ghost
`requests` trace records the requests it sends, so "a cache hit sends no
request" can be stated.

Behaviour of the code that the model keeps:

- A cached empty list is a cache hit: an empty array is truthy.
- A privileged user's list is cached even when the catalog read failed, so
  that user keeps `[]` until the cache is invalidated.
- `invalidateCache` with no id, or with the empty string (falsy), flushes every entry.
- Nothing in the application calls `invalidateCache`. A grant toggle therefore
  reaches a signed-in user only after an invalidation. `RoleEditor.ToggleThenInvalidateFlips`
  shows that it does reach them then, and `Permissions.CacheHitIgnoresDatabase`
  shows that it does not before.
- `login` with a sign-in that returns no user leaves `isLoading` true.

Failures that do not deny:

- A failed `fetchUser` records the error and keeps the previous user, role,
  permissions and admin flag (`Auth.FailedFetchKeepsAuthority`).
- A failed `getRole` leaves the role empty but keeps the permissions and admin
  flag, which come from their own lookups (`Auth.RoleFailureDoesNotDeny`).
- A click on a protected role is ignored, with no message
  (`RoleEditor.PermissionEditor.Click`).

## Model

| member | source | states |
|---|---|---|
| Store.FindPermission | lib/permissions.ts:30-33 | the permission embedded in a grant row is a catalog entry with the grant's permission id; absent exactly when no catalog entry has that id |
| Store.GrantIds | components/RolePermissionManager.tsx:31-36 | an id is in a role's id list exactly when a grant row (role, id) exists |
| Store.Without | components/RolePermissionManager.tsx:60 | the filter drops every copy of the id and keeps every other element with its multiplicity |
| Store.JoinRowsExactly | lib/permissions.ts:30-39 | a permission is among a role's joined rows exactly when some grant row of that role points at it |
| Store.GrantedIffRow | lib/permissions.ts:30-33 | when an id names a permission, the role carries that permission exactly when the grant row (role, id) exists |
| Permissions.AnyMatches | lib/permissions.ts:56 | `some` is true exactly when some listed permission has the resource and the action |
| Permissions.Present | lib/permissions.ts:37-39 | the filtered list holds exactly the embedded permissions that are present, and is no longer than the rows |
| Permissions.Resolve | lib/permissions.ts:13-46 | a failed user read gives [] uncached after one request; only [] is ever left uncached; CEO/Admin get the catalog ([] if unreadable), cached, without reading grants; any other role gets exactly its granted permissions, cached unless the grant read fails |
| Permissions.IsPrivilegedName | lib/permissions.ts:23 | the privileged role names are exactly "CEO" and "Admin" (also used by isAdmin at line 73 and the editor's guard) |
| Permissions.PermissionsFor | lib/permissions.ts:6-47 | what getUserPermissions returns: the cached list on a hit, the fresh resolution otherwise (properties in CacheHitIgnoresDatabase, RepeatedLookup, InvalidationRefreshes) |
| Permissions.PermissionCacheAfter | lib/permissions.ts:6-47 | a lookup never changes or drops an entry; the user is added exactly when the resolution is cacheable (a failed user or grant read caches nothing), holding the resolved list |
| Permissions.AdminStatus | lib/permissions.ts:63-78 | admin exactly when the user row is read and its role name is CEO or Admin; a failed read or unknown user gives false |
| Permissions.RoleFor | lib/permissions.ts:80-100 | a cached role is returned as is; otherwise a role is returned exactly when the read succeeds, and it is the stored row |
| Permissions.RoleCacheAfter | lib/permissions.ts:92-94 | only a role that was found is added, holding the stored row; no entry is changed or dropped |
| Permissions.Invalidated | lib/permissions.ts:102-108 | a non-empty id drops exactly that entry; no id or the empty id empties the cache; surviving entries are unchanged |
| Permissions.PermissionResolver.constructor | lib/permissions.ts:3-4 | both caches start empty |
| Permissions.PermissionResolver.GetUserPermissions | lib/permissions.ts:6-47 | returns the cached list or the resolution, updates the per-user cache and the request trace as specified, leaves the role cache alone |
| Permissions.PermissionResolver.HasPermission | lib/permissions.ts:49-61 | true exactly when the resolved list holds a permission with that resource and action |
| Permissions.PermissionResolver.IsAdmin | lib/permissions.ts:63-78 | returns the admin status after exactly one request and touches neither cache |
| Permissions.PermissionResolver.GetRole | lib/permissions.ts:80-100 | returns the role lookup, updates the role cache, sends a request only on a miss |
| Permissions.PermissionResolver.InvalidateCache | lib/permissions.ts:102-108 | the per-user cache becomes its invalidated form |
| Permissions.CacheHitIgnoresDatabase | lib/permissions.ts:9-11 | a cached entry, even [], is returned whatever the database holds, with no request and no cache change |
| Permissions.RepeatedLookup | lib/permissions.ts:6-47 | a second lookup gives the same list and, once cached, sends no request |
| Permissions.InvalidationRefreshes | lib/permissions.ts:102-108 | after invalidating a user the next lookup is the fresh resolution |
| Permissions.AdminMeansCatalog | lib/permissions.ts:22-27 | a user isAdmin approves resolves to the whole catalog ([] when unreadable) |
| Permissions.DanglingRoleDeniesAll | lib/permissions.ts:13-46 | a user whose role id names no role and no grant row passes no check and is not admin |
| Auth.Allows | lib/authStore.ts:100-104 | admins pass every check; anyone else passes exactly when a stored permission has the resource and action |
| Auth.SignedOut | lib/authStore.ts:66-68 | no user, not loading, error kept, and every check fails |
| Auth.Cleared | lib/authStore.ts:114-116 | no user, loading flag and error kept, and every check fails |
| Auth.FetchUserStep | lib/authStore.ts:59-98 | always ends loading; keeps "no user means no authority"; no session signs out; a failed profile read records an error and keeps the authority; a read profile stores the resolver's list, admin status and role |
| Auth.SessionAfter | lib/authStore.ts:37-41 | fetchUser runs exactly when the sign-in returned a user |
| Auth.LoginStep | lib/authStore.ts:29-46 | a failed sign-in records its message and keeps the authority; no user leaves loading on; a user is fetched from a cleared error |
| Auth.LogoutStep | lib/authStore.ts:48-57 | ends loading; success is the sign-out reset (no user, no role, no permissions, not admin, error kept) and fails every check; failure records the message and keeps the authority |
| Auth.AuthChangeStep | lib/authStore.ts:111-117 | a lost session is exactly the Cleared reset: no user, no role, no permissions, not admin, loading flag and error kept; a session gives exactly the fetchUser step |
| Auth.FetchedUserAllows | lib/authStore.ts:80-93 | after fetching an uncached user, a check passes exactly when isAdmin said yes or the resolved list holds the pair |
| Auth.FailedFetchKeepsAuthority | lib/authStore.ts:94-97 | a failed profile read changes no check's answer |
| Auth.RoleFailureDoesNotDeny | lib/authStore.ts:82-92 | a failed role read leaves the role empty and every check answered by the admin flag and permission list |
| Auth.AuthStore.constructor | lib/authStore.ts:21-27 | the store starts with no user, no permissions, not admin, loading, no error |
| Auth.AuthStore.HasPermission | lib/authStore.ts:100-104 | the store's check: admins pass, anyone else needs a stored permission with that resource and action |
| Auth.AuthStore.FetchUser | lib/authStore.ts:59-98 | the new state is the fetchUser step; the resolver's caches end as specified |
| Auth.AuthStore.Login | lib/authStore.ts:29-46 | the new state is the login step; the caches change only through the fetch |
| Auth.AuthStore.Logout | lib/authStore.ts:48-57 | the new state is the logout step |
| Auth.AuthStore.ClearError | lib/authStore.ts:106 | only the error is reset |
| Auth.AuthStore.OnAuthStateChange | lib/authStore.ts:111-117 | the new state is the listener step |
| RoleEditor.IsProtectedRole | components/RolePermissionManager.tsx:89 | a role is read-only exactly when its name is CEO or Admin, the resolver's privileged names |
| RoleEditor.LoadedIds | components/RolePermissionManager.tsx:29-42 | a failed read shows []; otherwise exactly the role's granted ids |
| RoleEditor.ToggledList | components/RolePermissionManager.tsx:51-69 | the toggled id's membership flips and no other id's does; a removal drops all copies, an addition appends one |
| RoleEditor.LoadedIdsAgree | components/RolePermissionManager.tsx:29-42 | a successful load agrees with the database |
| RoleEditor.ToggleKeepsAgreement | components/RolePermissionManager.tsx:44-78 | a successful toggle keeps the list in agreement with the database |
| RoleEditor.ToggleThenInvalidateFlips | components/RolePermissionManager.tsx:51-69 | after a toggle and an invalidation, a user of the role holds the toggled permission exactly when they did not before |
| RoleEditor.ByResource | components/RolePermissionManager.tsx:81-87 | the group of one resource, in catalog order; what it holds is stated by ByResourceMembers and ByResourceSplits |
| RoleEditor.Resources | components/RolePermissionManager.tsx:81-87 | the object's keys in first-appearance order; what they are is stated by ResourcesMembers and ResourcesDistinct |
| RoleEditor.ByResourceMembers | components/RolePermissionManager.tsx:81-87 | a group holds exactly the entries with its resource |
| RoleEditor.ResourcesMembers | components/RolePermissionManager.tsx:81-87 | the keys are exactly the resources present in the catalog |
| RoleEditor.ResourcesDistinct | components/RolePermissionManager.tsx:119-121 | no key repeats |
| RoleEditor.ByResourceSplits | components/RolePermissionManager.tsx:81-87 | grouping keeps catalog order |
| RoleEditor.NoEntryNoGroup | components/RolePermissionManager.tsx:82-84 | a resource no entry carries has an empty group |
| RoleEditor.GroupSizesCoverCatalog | components/RolePermissionManager.tsx:81-87 | every entry lands in exactly one group: the group sizes add up to the catalog length |
| RoleEditor.GroupsSnoc | components/RolePermissionManager.tsx:81-87 | one more entry joins its group and adds its key last when new |
| RoleEditor.GroupMap | components/RolePermissionManager.tsx:81-87 | the object the reduce builds, entry by entry; its meaning is stated by GroupMapHasKey and GroupMapGroups |
| RoleEditor.GroupMapHasKey | components/RolePermissionManager.tsx:82-84 | a key is present exactly when it is a catalog resource |
| RoleEditor.GroupMapGroups | components/RolePermissionManager.tsx:81-87 | the built object maps each catalog resource to its group |
| RoleEditor.GroupByResource | components/RolePermissionManager.tsx:81-87 | the keys are the resources in first-appearance order, each holding its group; the groups cover the catalog |
| RoleEditor.PermissionEditor.constructor | components/RolePermissionManager.tsx:20-23 | empty list, loading, not saving, no error |
| RoleEditor.PermissionEditor.FetchRolePermissions | components/RolePermissionManager.tsx:29-42 | the list becomes the loaded ids and loading ends |
| RoleEditor.PermissionEditor.HandlePermissionToggle | components/RolePermissionManager.tsx:44-78 | a successful write flips the id in the list and clears the error; a failed one keeps the list and records the message; saving ends false |
| RoleEditor.PermissionEditor.Click | components/RolePermissionManager.tsx:113-140 | a protected role, a save in flight, or a list still loading (no buttons rendered) ignores the click; otherwise it toggles |
| Navigation.MenuItems | components/Sidebar.tsx:28-36 | the seven menu entries in display order, with their public, admin, permission and action settings |
| Navigation.ActionOf | components/Sidebar.tsx:79 | never empty; a given non-empty action is kept; an absent or empty action means "view" |
| Navigation.HasAccess | components/Sidebar.tsx:76-79 | public items always pass; admin-only items pass for admins; every other case (including an admin-only item and a non-admin) passes exactly when the item names a non-empty permission and the user is admin or holds that resource with its action |
| Navigation.Visible | components/Sidebar.tsx:74-81 | the items shown, in menu order; which ones is stated by VisibleExactly and the order by VisibleAppend |
| Navigation.VisibleExactly | components/Sidebar.tsx:76-81 | an item is shown exactly when the user has access to it |
| Navigation.VisibleCons | components/Sidebar.tsx:74-81 | the first item is shown or hidden on its own, ahead of the rest |
| Navigation.VisibleAppend | components/Sidebar.tsx:74-81 | hiding items keeps the order of the rest |
| Navigation.Render | components/Sidebar.tsx:74-105 | one link per shown item, in order, with its href and title, active exactly when the path equals its href |
| Navigation.VisibleKeepsDistinct | components/Sidebar.tsx:87 | hiding items never makes two shown links share an href |
| Navigation.MenuHrefsDistinct | components/Sidebar.tsx:28-36 | the menu's hrefs are distinct |
| Navigation.IsActive | components/Sidebar.tsx:83 | a link is active when the path equals its href |
| Navigation.AtMostOneActive | components/Sidebar.tsx:83 | at most one rendered link is active |
| Navigation.PublicItemsAlwaysShown | components/Sidebar.tsx:29-34 | Mission Control, Tasks and Team are shown to everyone |
| Navigation.SettingsShownIffAdmin | components/Sidebar.tsx:35 | Settings is shown exactly to admins |
| Navigation.GatedItemShownIff | components/Sidebar.tsx:30-33 | Orders, Inventory and Payables are shown exactly to admins and to holders of "view" on that resource |
| Navigation.NoAuthorityShowsPublicOnly | components/Sidebar.tsx:76-81 | with no permission and no admin flag, the menu is exactly the three public items |

## Left out

- The database client is a fixed snapshot (`Store.Db`). The model does not
  cover network timing, the client library, or realtime change feeds.
- Row-level security is not modelled.
- The auth service is an input:
  - `SignIn` is how a sign-in ended;
  - a session is the signed-in user's id or none;
  - `signOut` is what the sign-out call threw, if anything.
  `login` hands the returned user to `fetchUser` as the session; the model
  does not read the session a second time.
- Every async operation is one atomic step. The listener's `fetchUser` racing
  a `login` or `logout`, and two toggles in flight, are not modelled.
- `onUpdate` after a toggle is the settings page's refetch, which catches its
  own errors and does not touch the editor's state. It is not part of this model.
- `console.error` logging is not modelled.
- The messages of data-layer errors are abstract `Thrown` values (`noRow`,
  `duplicate`, `down`); the model keeps only the program's fallback strings.
- The catch blocks of `getUserPermissions`, `hasPermission`, `isAdmin`,
  `getRole` and `fetchRolePermissions` handle exceptions thrown by the client
  itself. The client is not part of this model, so nothing throws there.
- Object keys that collide with `Object.prototype` members (a user id,
  role id or resource named `constructor`) make the program's truthiness
  tests misbehave. The caches and groups are modelled as maps without such keys.
- `Object.entries` lists integer-like keys before the others. The key order
  of the groups is first appearance, which matches the program only for
  resource names that are not array indices.
- Rendering (icons, animation, styling, the mobile overlay, the "n of m"
  counter) is not modelled. Only which items and links appear, and which
  link is active, is modelled.
- The sidebar only hides links. Route protection in pages is not part of this model.
- Permissions.PermissionResolver.HasPermission: does not model the catch
  returning false, because nothing under it throws in the model.
