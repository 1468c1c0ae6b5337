/** Lockout over whole runs: whatever serial sequence of requests is made, somebody
  * active still holds the recovery scope. */
module Recovery {
  import opened Results
  import opened Directory
  import opened Delegation
  import opened Lockout
  import opened Requests
  import opened Administration

  datatype Request = Request(op: Op, caller: Token)

  /** The database after a run of requests, one transaction at a time. */
  function Replay(rules: Rules, db: Db, run: seq<Request>): Db
    decreases |run|
  {
    if run == [] then db
    else Replay(rules, Committed(rules, run[0].op, run[0].caller, db), run[1..])
  }

  // ---- The catalogue: what no request can touch ----

  /** Integrity, and system scopes registered under system APIs only. Without the
    * latter, deleting an ordinary API would cascade to a system scope. */
  ghost predicate Sound(db: Db) {
    Integrity(db) && SystemScopesPlaced(db)
  }

  ghost predicate SystemScopesPlaced(db: Db) {
    forall s :: s in db.scopes && db.scopes[s].isSystem
                ==> db.scopes[s].api in db.apis && db.apis[db.scopes[s].api].isSystem
  }

  /** The same system scopes, each with the value it had. */
  ghost predicate SameSystemScopes(db: Db, after: Db) {
    && (forall s :: s in db.scopes && db.scopes[s].isSystem
                    ==> s in after.scopes && after.scopes[s].isSystem && after.scopes[s].value == db.scopes[s].value)
    && (forall s :: s in after.scopes && after.scopes[s].isSystem ==> s in db.scopes && db.scopes[s].isSystem)
  }

  lemma UsersKeepKeys(rules: Rules, op: UserOp, caller: Token, db: Db)
    requires UniqueKeys(db) && ChangeUsers(rules, op, caller, db).Success?
    ensures UniqueKeys(ChangeUsers(rules, op, caller, db).value)
  {
  }

  lemma RelinkedRefers(r: set<(Id, Id)>, x: Id, ys: set<Id>, left: set<Id>, right: set<Id>)
    requires Refers(r, left, right) && ys <= right
    ensures Refers(Relinked(r, x, ys), left + {x}, right)
  {
  }

  lemma WithoutLeftRefers(r: set<(Id, Id)>, x: Id, left: set<Id>, right: set<Id>)
    requires Refers(r, left, right)
    ensures Refers(WithoutLeft(r, x), left - {x}, right)
  {
  }

  lemma WithoutRightRefers(r: set<(Id, Id)>, xs: set<Id>, left: set<Id>, right: set<Id>)
    requires Refers(r, left, right)
    ensures Refers(WithoutRight(r, xs), left, right - xs)
  {
  }

  lemma RefersIntoMore(r: set<(Id, Id)>, left: set<Id>, right: set<Id>, x: Id)
    requires Refers(r, left, right)
    ensures Refers(r, left + {x}, right) && Refers(r, left, right + {x})
    ensures x in left ==> left + {x} == left
    ensures x in right ==> right + {x} == right
  {
  }

  lemma CreatingAUserKeepsReferences(db: Db, user: User, roles: set<Id>, groups: set<Id>)
    requires ForeignKeys(db) && roles <= db.roles.Keys && groups <= db.groups.Keys
    ensures ForeignKeys(db.(users := db.users[db.next := user],
                            userRoles := Relinked(db.userRoles, db.next, roles),
                            userGroups := Relinked(db.userGroups, db.next, groups),
                            next := db.next + 1))
  {
    RelinkedRefers(db.userRoles, db.next, roles, db.users.Keys, db.roles.Keys);
    RelinkedRefers(db.userGroups, db.next, groups, db.users.Keys, db.groups.Keys);
    RefersIntoMore(db.userScopes, db.users.Keys, db.scopes.Keys, db.next);
    assert db.users[db.next := user].Keys == db.users.Keys + {db.next};
  }

  lemma DeletingAUserKeepsReferences(db: Db, user: Id)
    requires ForeignKeys(db)
    ensures ForeignKeys(Directory.DeleteUser(db, user))
  {
    WithoutLeftRefers(db.userScopes, user, db.users.Keys, db.scopes.Keys);
    WithoutLeftRefers(db.userRoles, user, db.users.Keys, db.roles.Keys);
    WithoutLeftRefers(db.userGroups, user, db.users.Keys, db.groups.Keys);
  }

  lemma UsersKeepReferences(rules: Rules, op: UserOp, caller: Token, db: Db)
    requires ForeignKeys(db) && ChangeUsers(rules, op, caller, db).Success?
    ensures ForeignKeys(ChangeUsers(rules, op, caller, db).value)
  {
    match op
    case CreateUser(email, username, roles, groups) =>
      CreatingAUserKeepsReferences(db, User(email, username, true), roles, groups);
    case UpdateUser(user, _, _) =>
      assert ChangeUsers(rules, op, caller, db).value.users.Keys == db.users.Keys;
    case SetRoles(user, roles) =>
      RelinkedRefers(db.userRoles, user, roles, db.users.Keys, db.roles.Keys);
      RefersIntoMore(db.userRoles, db.users.Keys, db.roles.Keys, user);
    case SetDirectScopes(user, scopes) =>
      RelinkedRefers(db.userScopes, user, scopes, db.users.Keys, db.scopes.Keys);
      RefersIntoMore(db.userScopes, db.users.Keys, db.scopes.Keys, user);
    case DeleteUser(user) =>
      DeletingAUserKeepsReferences(db, user);
    case _ =>
  }

  lemma UsersKeepIds(rules: Rules, op: UserOp, caller: Token, db: Db)
    requires IdsIssued(db) && ChangeUsers(rules, op, caller, db).Success?
    ensures IdsIssued(ChangeUsers(rules, op, caller, db).value)
  {
  }

  lemma GroupsKeepKeys(rules: Rules, op: GroupOp, caller: Token, db: Db)
    requires UniqueKeys(db) && ChangeGroups(rules, op, caller, db).Success?
    ensures UniqueKeys(ChangeGroups(rules, op, caller, db).value)
  {
  }

  lemma DeletingAGroupKeepsReferences(db: Db, group: Id)
    requires ForeignKeys(db)
    ensures ForeignKeys(Directory.DeleteGroup(db, group))
  {
    WithoutRightRefers(db.userGroups, {group}, db.users.Keys, db.groups.Keys);
    WithoutLeftRefers(db.groupRoles, group, db.groups.Keys, db.roles.Keys);
  }

  lemma CreatingAGroupKeepsReferences(db: Db, group: Group)
    requires ForeignKeys(db)
    ensures ForeignKeys(db.(groups := db.groups[db.next := group], next := db.next + 1))
  {
    RefersIntoMore(db.userGroups, db.users.Keys, db.groups.Keys, db.next);
    RefersIntoMore(db.groupRoles, db.groups.Keys, db.roles.Keys, db.next);
    assert db.groups[db.next := group].Keys == db.groups.Keys + {db.next};
  }

  lemma GroupsKeepReferences(rules: Rules, op: GroupOp, caller: Token, db: Db)
    requires ForeignKeys(db) && ChangeGroups(rules, op, caller, db).Success?
    ensures ForeignKeys(ChangeGroups(rules, op, caller, db).value)
  {
    match op
    case CreateGroup(name, description) =>
      CreatingAGroupKeepsReferences(db, Group(name, description));
    case UpdateGroup(group, _, _) =>
      assert ChangeGroups(rules, op, caller, db).value.groups.Keys == db.groups.Keys;
    case SetGroupRoles(group, roles) =>
      RelinkedRefers(db.groupRoles, group, roles, db.groups.Keys, db.roles.Keys);
      RefersIntoMore(db.groupRoles, db.groups.Keys, db.roles.Keys, group);
    case DeleteGroup(group) =>
      DeletingAGroupKeepsReferences(db, group);
    case _ =>
  }

  lemma GroupsKeepIds(rules: Rules, op: GroupOp, caller: Token, db: Db)
    requires IdsIssued(db) && ChangeGroups(rules, op, caller, db).Success?
    ensures IdsIssued(ChangeGroups(rules, op, caller, db).value)
  {
  }

  lemma RolesKeepKeys(rules: Rules, op: RoleOp, caller: Token, db: Db)
    requires UniqueKeys(db) && ChangeRoles(rules, op, caller, db).Success?
    ensures UniqueKeys(ChangeRoles(rules, op, caller, db).value)
  {
  }

  lemma CreatingARoleKeepsReferences(db: Db, role: Role, scopes: set<Id>)
    requires ForeignKeys(db) && scopes <= db.scopes.Keys
    ensures ForeignKeys(db.(roles := db.roles[db.next := role],
                            roleScopes := Relinked(db.roleScopes, db.next, scopes),
                            next := db.next + 1))
  {
    RelinkedRefers(db.roleScopes, db.next, scopes, db.roles.Keys, db.scopes.Keys);
    RefersIntoMore(db.userRoles, db.users.Keys, db.roles.Keys, db.next);
    RefersIntoMore(db.groupRoles, db.groups.Keys, db.roles.Keys, db.next);
    assert db.roles[db.next := role].Keys == db.roles.Keys + {db.next};
  }

  lemma DeletingARoleKeepsReferences(db: Db, role: Id)
    requires ForeignKeys(db)
    ensures ForeignKeys(Directory.DeleteRole(db, role))
  {
    WithoutRightRefers(db.userRoles, {role}, db.users.Keys, db.roles.Keys);
    WithoutRightRefers(db.groupRoles, {role}, db.groups.Keys, db.roles.Keys);
    WithoutLeftRefers(db.roleScopes, role, db.roles.Keys, db.scopes.Keys);
  }

  lemma RolesKeepReferences(rules: Rules, op: RoleOp, caller: Token, db: Db)
    requires ForeignKeys(db) && ChangeRoles(rules, op, caller, db).Success?
    ensures ForeignKeys(ChangeRoles(rules, op, caller, db).value)
  {
    match op
    case CreateRole(name, description, scopes) =>
      CreatingARoleKeepsReferences(db, Role(name, description, false), scopes);
    case UpdateRole(role, _, _) =>
      assert ChangeRoles(rules, op, caller, db).value.roles.Keys == db.roles.Keys;
    case SetRoleScopes(role, scopes) =>
      RelinkedRefers(db.roleScopes, role, scopes, db.roles.Keys, db.scopes.Keys);
      RefersIntoMore(db.roleScopes, db.roles.Keys, db.scopes.Keys, role);
    case DeleteRole(role, _) =>
      DeletingARoleKeepsReferences(db, role);
  }

  lemma RolesKeepIds(rules: Rules, op: RoleOp, caller: Token, db: Db)
    requires IdsIssued(db) && ChangeRoles(rules, op, caller, db).Success?
    ensures IdsIssued(ChangeRoles(rules, op, caller, db).value)
  {
  }

  lemma CatalogueKeepsKeys(op: CatalogueOp, db: Db)
    requires UniqueKeys(db) && ChangeCatalogue(op, db).Success?
    ensures UniqueKeys(ChangeCatalogue(op, db).value)
  {
  }

  lemma ScopeDeletionKeepsReferences(db: Db, gone: set<Id>)
    requires ForeignKeys(db)
    ensures ForeignKeys(DeleteScopes(db, gone))
  {
  }

  lemma CatalogueKeepsReferences(op: CatalogueOp, db: Db)
    requires ForeignKeys(db) && IdsIssued(db) && ChangeCatalogue(op, db).Success?
    ensures ForeignKeys(ChangeCatalogue(op, db).value)
    ensures IdsIssued(ChangeCatalogue(op, db).value)
  {
    match op
    case DeleteApi(api, _) => ScopeDeletionKeepsReferences(db, ScopesOfApi(db, api));
    case DeleteScope(scope, _) => ScopeDeletionKeepsReferences(db, {scope});
    case _ =>
  }

  lemma CatalogueKeepsSystemScopes(op: CatalogueOp, db: Db)
    requires SystemScopesPlaced(db) && Issued(db.scopes.Keys, db.next) && Issued(db.apis.Keys, db.next)
    requires ChangeCatalogue(op, db).Success?
    ensures SystemScopesPlaced(ChangeCatalogue(op, db).value)
    ensures SameSystemScopes(db, ChangeCatalogue(op, db).value)
  {
  }

  lemma ChangesKeepIntegrity(rules: Rules, op: Op, caller: Token, db: Db)
    requires Integrity(db) && Change(rules, op, caller, db).Success?
    ensures Integrity(Change(rules, op, caller, db).value)
  {
    match op
    case OnUsers(u) =>
      UsersKeepKeys(rules, u, caller, db);
      UsersKeepReferences(rules, u, caller, db);
      UsersKeepIds(rules, u, caller, db);
    case OnGroups(g) =>
      GroupsKeepKeys(rules, g, caller, db);
      GroupsKeepReferences(rules, g, caller, db);
      GroupsKeepIds(rules, g, caller, db);
    case OnRoles(r) =>
      RolesKeepKeys(rules, r, caller, db);
      RolesKeepReferences(rules, r, caller, db);
      RolesKeepIds(rules, r, caller, db);
    case OnCatalogue(c) =>
      CatalogueKeepsKeys(c, db);
      CatalogueKeepsReferences(c, db);
  }

  lemma UsersLeaveTheCatalogue(rules: Rules, op: UserOp, caller: Token, db: Db)
    requires ChangeUsers(rules, op, caller, db).Success?
    ensures ChangeUsers(rules, op, caller, db).value.scopes == db.scopes
    ensures ChangeUsers(rules, op, caller, db).value.apis == db.apis
  {
  }

  lemma GroupsLeaveTheCatalogue(rules: Rules, op: GroupOp, caller: Token, db: Db)
    requires ChangeGroups(rules, op, caller, db).Success?
    ensures ChangeGroups(rules, op, caller, db).value.scopes == db.scopes
    ensures ChangeGroups(rules, op, caller, db).value.apis == db.apis
  {
  }

  lemma RolesLeaveTheCatalogue(rules: Rules, op: RoleOp, caller: Token, db: Db)
    requires ChangeRoles(rules, op, caller, db).Success?
    ensures ChangeRoles(rules, op, caller, db).value.scopes == db.scopes
    ensures ChangeRoles(rules, op, caller, db).value.apis == db.apis
  {
  }

  lemma ChangesKeepSystemScopes(rules: Rules, op: Op, caller: Token, db: Db)
    requires SystemScopesPlaced(db) && Issued(db.scopes.Keys, db.next) && Issued(db.apis.Keys, db.next)
    requires Change(rules, op, caller, db).Success?
    ensures SystemScopesPlaced(Change(rules, op, caller, db).value)
    ensures SameSystemScopes(db, Change(rules, op, caller, db).value)
  {
    match op
    case OnUsers(u) => UsersLeaveTheCatalogue(rules, u, caller, db);
    case OnGroups(g) => GroupsLeaveTheCatalogue(rules, g, caller, db);
    case OnRoles(r) => RolesLeaveTheCatalogue(rules, r, caller, db);
    case OnCatalogue(c) => CatalogueKeepsSystemScopes(c, db);
  }

  lemma CommitsTheChangeOrNothing(rules: Rules, op: Op, caller: Token, db: Db)
    ensures Committed(rules, op, caller, db) == db
         || Change(rules, op, caller, db) == Success(Committed(rules, op, caller, db))
  {
  }

  /** Every request, by anybody and under either rule or neither, keeps the database's
    * integrity and the system scopes exactly as they were. */
  lemma RequestsKeepTheCatalogue(rules: Rules, op: Op, caller: Token, db: Db)
    requires Sound(db)
    ensures Sound(Committed(rules, op, caller, db))
    ensures SameSystemScopes(db, Committed(rules, op, caller, db))
  {
    CommitsTheChangeOrNothing(rules, op, caller, db);
    if Change(rules, op, caller, db).Success? {
      ChangesKeepIntegrity(rules, op, caller, db);
      ChangesKeepSystemScopes(rules, op, caller, db);
    }
  }

  // ---- Who can restore everybody else ----

  /** The recovery scope is a system scope, and somebody active holds it. */
  ghost predicate Recoverable(db: Db) {
    && Sound(db)
    && (exists s :: s in db.scopes && db.scopes[s].isSystem && db.scopes[s].value == RECOVERY_SCOPE)
    && Administrators(db) != {}
  }

  /** Everything a path to `scope` runs along is still there. */
  ghost predicate PathsKept(db: Db, after: Db, scope: Id) {
    && (forall u :: u in db.users ==> u in after.users && (db.users[u].isActive ==> after.users[u].isActive))
    && (forall p :: p in db.userScopes && p.1 == scope ==> p in after.userScopes)
    && (forall p :: p in db.roleScopes && p.1 == scope ==> p in after.roleScopes)
    && db.userRoles <= after.userRoles && db.userGroups <= after.userGroups && db.groupRoles <= after.groupRoles
  }

  lemma UnguardedUsersKeepPaths(rules: Rules, op: UserOp, caller: Token, db: Db, scope: Id)
    requires ForeignKeys(db) && IdsIssued(db)
    requires !LockoutGuarded(OnUsers(op)) && ChangeUsers(rules, op, caller, db).Success?
    ensures PathsKept(db, ChangeUsers(rules, op, caller, db).value, scope)
  {
  }

  lemma UnguardedGroupsKeepPaths(rules: Rules, op: GroupOp, caller: Token, db: Db, scope: Id)
    requires !LockoutGuarded(OnGroups(op)) && ChangeGroups(rules, op, caller, db).Success?
    ensures PathsKept(db, ChangeGroups(rules, op, caller, db).value, scope)
  {
  }

  lemma UnguardedRolesKeepPaths(rules: Rules, op: RoleOp, caller: Token, db: Db, scope: Id)
    requires ForeignKeys(db) && IdsIssued(db)
    requires !LockoutGuarded(OnRoles(op)) && ChangeRoles(rules, op, caller, db).Success?
    ensures PathsKept(db, ChangeRoles(rules, op, caller, db).value, scope)
  {
  }

  lemma CatalogueKeepsPaths(op: CatalogueOp, db: Db, scope: Id)
    requires SystemScopesPlaced(db) && scope in db.scopes && db.scopes[scope].isSystem
    requires ChangeCatalogue(op, db).Success?
    ensures PathsKept(db, ChangeCatalogue(op, db).value, scope)
  {
  }

  lemma UnguardedRequestsKeepPaths(rules: Rules, op: Op, caller: Token, db: Db, scope: Id)
    requires Sound(db) && scope in db.scopes && db.scopes[scope].isSystem
    requires !LockoutGuarded(op) && Change(rules, op, caller, db).Success?
    ensures PathsKept(db, Change(rules, op, caller, db).value, scope)
  {
    match op
    case OnUsers(u) => UnguardedUsersKeepPaths(rules, u, caller, db, scope);
    case OnGroups(g) => UnguardedGroupsKeepPaths(rules, g, caller, db, scope);
    case OnRoles(r) => UnguardedRolesKeepPaths(rules, r, caller, db, scope);
    case OnCatalogue(c) => CatalogueKeepsPaths(c, db, scope);
  }

  lemma KeptPathsKeepHolders(db: Db, after: Db, scope: Id, user: Id)
    requires PathsKept(db, after, scope) && scope in ScopesOfUser(db, user)
    ensures scope in ScopesOfUser(after, user)
  {
    HoldsExactlyWhatReaches(db, user, scope);
    HoldsExactlyWhatReaches(after, user, scope);
  }

  /** The operations that do not ask the guard need not: creating, renaming, adding
    * members and deleting catalogue entries lose no administrator. */
  lemma UnguardedRequestsLoseNobody(rules: Rules, op: Op, caller: Token, db: Db)
    requires Recoverable(db) && !LockoutGuarded(op)
    ensures Administrators(db) <= Administrators(Committed(rules, op, caller, db))
    ensures AdministratorsRemaining(db) <= AdministratorsRemaining(Committed(rules, op, caller, db))
  {
    var after := Committed(rules, op, caller, db);
    CommitsTheChangeOrNothing(rules, op, caller, db);
    if after != db {
      forall u | u in Administrators(db)
        ensures u in Administrators(after)
      {
        AdministratorSurvives(rules, op, caller, db, u);
      }
    }
    Cardinality(Administrators(db), Administrators(after));
    RequestsKeepTheCatalogue(rules, op, caller, db);
    CountsEachAdministratorOnce(db);
    CountsEachAdministratorOnce(after);
  }

  lemma AdministratorSurvives(rules: Rules, op: Op, caller: Token, db: Db, user: Id)
    requires Recoverable(db) && !LockoutGuarded(op) && user in Administrators(db)
    requires Change(rules, op, caller, db).Success?
    ensures user in Administrators(Change(rules, op, caller, db).value)
  {
    var after := Change(rules, op, caller, db).value;
    var scope :| scope in RecoveryIds(db) && scope in ScopesOfUser(db, user);
    RecoveryScopeIsSystem(db, scope);
    UnguardedRequestsKeepPaths(rules, op, caller, db, scope);
    KeptPathsKeepHolders(db, after, scope, user);
    ChangesKeepSystemScopes(rules, op, caller, db);
    assert scope in RecoveryIds(after);
  }

  lemma RecoveryScopeIsSystem(db: Db, scope: Id)
    requires Recoverable(db) && scope in RecoveryIds(db)
    ensures db.scopes[scope].isSystem
  {
  }

  lemma Cardinality(a: set<Id>, b: set<Id>)
    requires a <= b
    ensures |a| <= |b|
  {
    assert b == a + (b - a);
  }

  /** What a guarded request commits is never a world without an administrator. */
  lemma GuardedRequestsLeaveSomebody(rules: Rules, op: Op, caller: Token, db: Db)
    requires LockoutGuarded(op) && Outcome(rules, op, caller, db).Success?
    ensures var after := Outcome(rules, op, caller, db).value;
            ScopeValued(after, RECOVERY_SCOPE) ==> Administrators(after) != {}
  {
    CountsEachAdministratorOnce(Outcome(rules, op, caller, db).value);
  }

  lemma RecoveryScopeSurvives(db: Db, after: Db)
    requires SameSystemScopes(db, after)
    requires exists s :: s in db.scopes && db.scopes[s].isSystem && db.scopes[s].value == RECOVERY_SCOPE
    ensures exists s :: s in after.scopes && after.scopes[s].isSystem && after.scopes[s].value == RECOVERY_SCOPE
  {
    var s :| s in db.scopes && db.scopes[s].isSystem && db.scopes[s].value == RECOVERY_SCOPE;
    assert s in after.scopes;
  }

  /** One request, guarded or not, leaves the deployment recoverable. */
  lemma RequestsStayRecoverable(rules: Rules, op: Op, caller: Token, db: Db)
    requires Recoverable(db)
    ensures Recoverable(Committed(rules, op, caller, db))
  {
    var after := Committed(rules, op, caller, db);
    RequestsKeepTheCatalogue(rules, op, caller, db);
    RecoveryScopeSurvives(db, after);
    if !LockoutGuarded(op) {
      UnguardedRequestsLoseNobody(rules, op, caller, db);
    } else if Outcome(rules, op, caller, db).Success? {
      GuardedRequestsLeaveSomebody(rules, op, caller, db);
    }
  }

  /** After any serial run of requests, by any callers, somebody active holds the
    * recovery scope. Taking every prefix of a run, so it is after each commit. */
  lemma {:induction false} NobodyIsLockedOut(rules: Rules, db: Db, run: seq<Request>)
    requires Recoverable(db)
    ensures Recoverable(Replay(rules, db, run))
    ensures AdministratorsRemaining(Replay(rules, db, run)) >= 1
    decreases |run|
  {
    if run == [] {
      CountsEachAdministratorOnce(db);
    } else {
      RequestsStayRecoverable(rules, run[0].op, run[0].caller, db);
      NobodyIsLockedOut(rules, Committed(rules, run[0].op, run[0].caller, db), run[1..]);
    }
  }

  /** Why system scopes must sit under system APIs: the guard is not asked when an API
    * is deleted, and a recovery scope deleted with its API leaves the guard switched off. */
  lemma AnOrdinaryApiWouldTakeTheRecoveryScopeWithIt(db: Db, api: Id, scope: Id, caller: Token)
    requires UniqueScopes(db.scopes)
    requires scope in db.scopes && db.scopes[scope].value == RECOVERY_SCOPE && db.scopes[scope].api == api
    requires api in db.apis && !db.apis[api].isSystem && "admin:apis:write" in caller.scopes
    ensures AdministratorsRemaining(Committed(BOTH, OnCatalogue(DeleteApi(api, true)), caller, db)) == -1
  {
    var after := Committed(BOTH, OnCatalogue(DeleteApi(api, true)), caller, db);
    assert after == Directory.DeleteApi(db, api);
    assert scope in ScopesOfApi(db, api);
    CountsEachAdministratorOnce(after);
  }
}
