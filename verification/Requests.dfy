/** What the administrative API can be asked, what each request achieves and what speaks against
  * it, in terms of the rows alone. */
module Requests {
  import opened Results
  import opened Directory
  import opened Delegation
  import opened Lockout

  /** An access token: whose it is (nobody's, for a client's own), and what it carries. */
  datatype Token = Token(subject: Option<Id>, scopes: set<string>)

  datatype UserOp =
    | CreateUser(email: string, username: string, roles: set<Id>, groups: set<Id>)
    | UpdateUser(user: Id, newName: Option<string>, active: Option<bool>)
    | SetRoles(user: Id, roles: set<Id>)
    | SetDirectScopes(user: Id, scopes: set<Id>)
    | ResetPassword(user: Id)
    | ClearTotp(user: Id)
    | ClearFace(user: Id)
    | DeleteUser(user: Id)

  datatype GroupOp =
    | CreateGroup(name: string, description: string)
    | UpdateGroup(group: Id, newName: Option<string>, newDescription: Option<string>)
    | SetGroupRoles(group: Id, roles: set<Id>)
    | AddMembers(group: Id, users: set<Id>)
    | RemoveMember(group: Id, user: Id)
    | DeleteGroup(group: Id)

  datatype RoleOp =
    | CreateRole(name: string, description: string, scopes: set<Id>)
    | UpdateRole(role: Id, newName: Option<string>, newDescription: Option<string>)
    | SetRoleScopes(role: Id, scopes: set<Id>)
    | DeleteRole(role: Id, force: bool)

  datatype CatalogueOp =
    | CreateApi(name: string, audience: string, description: string)
    | UpdateApi(api: Id, newName: Option<string>, newDescription: Option<string>)
    | DeleteApi(api: Id, force: bool)
    | CreateScope(api: Id, value: string, description: string)
    | UpdateScope(scope: Id, newDescription: Option<string>)
    | DeleteScope(scope: Id, force: bool)

  datatype Op = OnUsers(u: UserOp) | OnGroups(g: GroupOp) | OnRoles(r: RoleOp) | OnCatalogue(c: CatalogueOp)

  /** The scope the route demands before the handler runs. */
  function RequiredScope(op: Op): string {
    match op
    case OnUsers(SetRoles(_, _)) => "admin:grants:write"
    case OnUsers(SetDirectScopes(_, _)) => "admin:grants:write"
    case OnUsers(_) => "admin:users:write"
    case OnGroups(_) => "admin:groups:write"
    case OnRoles(_) => "admin:roles:write"
    case OnCatalogue(CreateApi(_, _, _)) => "admin:apis:write"
    case OnCatalogue(UpdateApi(_, _, _)) => "admin:apis:write"
    case OnCatalogue(DeleteApi(_, _)) => "admin:apis:write"
    case OnCatalogue(_) => "admin:scopes:write"
  }

  /** The nine operations that ask the lockout guard before they commit. */
  predicate LockoutGuarded(op: Op) {
    match op
    case OnUsers(UpdateUser(_, _, active)) => active == Some(false)
    case OnUsers(SetRoles(_, _)) => true
    case OnUsers(SetDirectScopes(_, _)) => true
    case OnUsers(DeleteUser(_)) => true
    case OnGroups(SetGroupRoles(_, _)) => true
    case OnGroups(RemoveMember(_, _)) => true
    case OnGroups(DeleteGroup(_)) => true
    case OnRoles(SetRoleScopes(_, _)) => true
    case OnRoles(DeleteRole(_, _)) => true
    case _ => false
  }

  // ---- What a request achieves ----

  /** `x` is linked to exactly these, and everything else as before. */
  ghost predicate LinkedTo(before: set<(Id, Id)>, after: set<(Id, Id)>, x: Id, ys: set<Id>) {
    forall p :: p in after <==> if p.0 == x then p.1 in ys else p in before
  }

  /** The rows are those there were, but for these. */
  ghost predicate AllBut<K(!new), V>(before: map<K, V>, after: map<K, V>, gone: iset<K>) {
    && (forall k :: k in after <==> k in before && k !in gone)
    && (forall k :: k in after && k in before ==> after[k] == before[k])
  }

  ghost predicate LinksBut(before: set<(Id, Id)>, after: set<(Id, Id)>, gone: iset<(Id, Id)>) {
    forall p :: p in after <==> p in before && p !in gone
  }

  ghost predicate UserOpAchieves(op: UserOp, db: Db, after: Db) {
    match op
    case CreateUser(email, username, roles, groups) =>
      && after == db.(users := after.users, userRoles := after.userRoles, userGroups := after.userGroups,
                      next := db.next + 1)
      && after.users == db.users[db.next := User(email, username, true)]
      && LinkedTo(db.userRoles, after.userRoles, db.next, roles)
      && LinkedTo(db.userGroups, after.userGroups, db.next, groups)
    case UpdateUser(user, newName, active) =>
      && user in db.users && after == db.(users := after.users)
      && var was := db.users[user];
         after.users == db.users[user := User(was.email, if newName.Some? then newName.value else was.username,
                                              if active.Some? then active.value else was.isActive)]
    case SetRoles(user, roles) =>
      after == db.(userRoles := after.userRoles) && LinkedTo(db.userRoles, after.userRoles, user, roles)
    case SetDirectScopes(user, scopes) =>
      after == db.(userScopes := after.userScopes) && LinkedTo(db.userScopes, after.userScopes, user, scopes)
    case ResetPassword(_) => after == db
    case ClearTotp(_) => after == db
    case ClearFace(_) => after == db
    case DeleteUser(user) =>
      && after == db.(users := after.users, userScopes := after.userScopes, userRoles := after.userRoles,
                      userGroups := after.userGroups)
      && AllBut(db.users, after.users, iset{user})
      && var theirs := iset p: (Id, Id) | p.0 == user;
         && LinksBut(db.userScopes, after.userScopes, theirs)
         && LinksBut(db.userRoles, after.userRoles, theirs)
         && LinksBut(db.userGroups, after.userGroups, theirs)
  }

  ghost predicate GroupOpAchieves(op: GroupOp, db: Db, after: Db) {
    match op
    case CreateGroup(name, description) =>
      && after == db.(groups := after.groups, next := db.next + 1)
      && after.groups == db.groups[db.next := Group(name, description)]
    case UpdateGroup(group, newName, newDescription) =>
      && group in db.groups && after == db.(groups := after.groups)
      && var was := db.groups[group];
         after.groups == db.groups[group := Group(if newName.Some? then newName.value else was.name,
                                                  if newDescription.Some? then newDescription.value
                                                  else was.description)]
    case SetGroupRoles(group, roles) =>
      after == db.(groupRoles := after.groupRoles) && LinkedTo(db.groupRoles, after.groupRoles, group, roles)
    case AddMembers(group, users) =>
      && after == db.(userGroups := after.userGroups)
      && forall p :: p in after.userGroups <==> p in db.userGroups || (p.0 in users && p.1 == group)
    case RemoveMember(group, user) =>
      after == db.(userGroups := after.userGroups) && LinksBut(db.userGroups, after.userGroups, iset{(user, group)})
    case DeleteGroup(group) =>
      && after == db.(groups := after.groups, userGroups := after.userGroups, groupRoles := after.groupRoles)
      && AllBut(db.groups, after.groups, iset{group})
      && LinksBut(db.userGroups, after.userGroups, iset p: (Id, Id) | p.1 == group)
      && LinksBut(db.groupRoles, after.groupRoles, iset p: (Id, Id) | p.0 == group)
  }

  ghost predicate RoleOpAchieves(op: RoleOp, db: Db, after: Db) {
    match op
    case CreateRole(name, description, scopes) =>
      && after == db.(roles := after.roles, roleScopes := after.roleScopes, next := db.next + 1)
      && after.roles == db.roles[db.next := Role(name, description, false)]
      && LinkedTo(db.roleScopes, after.roleScopes, db.next, scopes)
    case UpdateRole(role, newName, newDescription) =>
      && role in db.roles && after == db.(roles := after.roles)
      && var was := db.roles[role];
         after.roles == db.roles[role := Role(if newName.Some? then newName.value else was.name,
                                              if newDescription.Some? then newDescription.value
                                              else was.description, was.isSystem)]
    case SetRoleScopes(role, scopes) =>
      after == db.(roleScopes := after.roleScopes) && LinkedTo(db.roleScopes, after.roleScopes, role, scopes)
    case DeleteRole(role, _) =>
      && after == db.(roles := after.roles, userRoles := after.userRoles, groupRoles := after.groupRoles,
                      roleScopes := after.roleScopes)
      && AllBut(db.roles, after.roles, iset{role})
      && LinksBut(db.userRoles, after.userRoles, iset p: (Id, Id) | p.1 == role)
      && LinksBut(db.groupRoles, after.groupRoles, iset p: (Id, Id) | p.1 == role)
      && LinksBut(db.roleScopes, after.roleScopes, iset p: (Id, Id) | p.0 == role)
  }

  /** These scopes are gone, and every link to one of them. */
  ghost predicate ScopesGone(db: Db, after: Db, gone: iset<Id>) {
    && AllBut(db.scopes, after.scopes, gone)
    && LinksBut(db.userScopes, after.userScopes, iset p: (Id, Id) | p.1 in gone)
    && LinksBut(db.roleScopes, after.roleScopes, iset p: (Id, Id) | p.1 in gone)
    && AllBut(db.clientScopes, after.clientScopes, iset p: (Id, Id) | p.1 in gone)
  }

  ghost predicate CatalogueOpAchieves(op: CatalogueOp, db: Db, after: Db) {
    match op
    case CreateApi(name, audience, description) =>
      && after == db.(apis := after.apis, next := db.next + 1)
      && after.apis == db.apis[db.next := Api(name, audience, description, false)]
    case UpdateApi(api, newName, newDescription) =>
      && api in db.apis && after == db.(apis := after.apis)
      && var was := db.apis[api];
         after.apis == db.apis[api := Api(if newName.Some? then newName.value else was.name, was.audience,
                                          if newDescription.Some? then newDescription.value else was.description,
                                          was.isSystem)]
    case DeleteApi(api, _) =>
      && after == db.(apis := after.apis, scopes := after.scopes, userScopes := after.userScopes,
                      roleScopes := after.roleScopes, clientScopes := after.clientScopes)
      && AllBut(db.apis, after.apis, iset{api})
      && ScopesGone(db, after, iset s | s in db.scopes && db.scopes[s].api == api)
    case CreateScope(api, value, description) =>
      && after == db.(scopes := after.scopes, next := db.next + 1)
      && after.scopes == db.scopes[db.next := Scope(api, value, description, false)]
    case UpdateScope(scope, newDescription) =>
      && scope in db.scopes && after == db.(scopes := after.scopes)
      && var was := db.scopes[scope];
         after.scopes == db.scopes[scope := Scope(was.api, was.value,
                                                  if newDescription.Some? then newDescription.value
                                                  else was.description, was.isSystem)]
    case DeleteScope(scope, _) =>
      && after == db.(scopes := after.scopes, userScopes := after.userScopes, roleScopes := after.roleScopes,
                      clientScopes := after.clientScopes)
      && ScopesGone(db, after, iset{scope})
  }

  /** What is asked is done: these rows are as asked for, and no other is touched. */
  ghost predicate Achieves(op: Op, db: Db, after: Db) {
    match op
    case OnUsers(u) => UserOpAchieves(u, db, after)
    case OnGroups(g) => GroupOpAchieves(g, db, after)
    case OnRoles(r) => RoleOpAchieves(r, db, after)
    case OnCatalogue(c) => CatalogueOpAchieves(c, db, after)
  }

  // ---- What speaks against a request ----

  /** Its route asks for this scope. */
  ghost predicate AsksFor(op: Op, required: string) {
    || (required == "admin:grants:write" && op.OnUsers? && (op.u.SetRoles? || op.u.SetDirectScopes?))
    || (required == "admin:users:write" && op.OnUsers? && !op.u.SetRoles? && !op.u.SetDirectScopes?)
    || (required == "admin:groups:write" && op.OnGroups?)
    || (required == "admin:roles:write" && op.OnRoles?)
    || (required == "admin:apis:write" && op.OnCatalogue? && (op.c.CreateApi? || op.c.UpdateApi? || op.c.DeleteApi?))
    || (required == "admin:scopes:write" && op.OnCatalogue?
        && (op.c.CreateScope? || op.c.UpdateScope? || op.c.DeleteScope?))
  }

  /** What it is about is not there. */
  ghost predicate IsMissing(op: Op, db: Db) {
    match op
    case OnUsers(CreateUser(_, _, _, _)) => false
    case OnUsers(u) => u.user !in db.users
    case OnGroups(CreateGroup(_, _)) => false
    case OnGroups(g) => g.group !in db.groups
    case OnRoles(CreateRole(_, _, _)) => false
    case OnRoles(r) => r.role !in db.roles
    case OnCatalogue(CreateApi(_, _, _)) => false
    case OnCatalogue(CreateScope(api, _, _)) => api !in db.apis
    case OnCatalogue(UpdateApi(api, _, _)) => api !in db.apis
    case OnCatalogue(DeleteApi(api, _)) => api !in db.apis
    case OnCatalogue(UpdateScope(scope, _)) => scope !in db.scopes
    case OnCatalogue(DeleteScope(scope, _)) => scope !in db.scopes
  }

  /** It is about a row the system owns, which cannot be edited or deleted. */
  ghost predicate IsOfTheSystem(op: Op, db: Db) {
    match op
    case OnRoles(CreateRole(_, _, _)) => false
    case OnRoles(r) => r.role in db.roles && db.roles[r.role].isSystem
    case OnCatalogue(UpdateApi(api, _, _)) => api in db.apis && db.apis[api].isSystem
    case OnCatalogue(DeleteApi(api, _)) => api in db.apis && db.apis[api].isSystem
    case OnCatalogue(UpdateScope(scope, _)) => scope in db.scopes && db.scopes[scope].isSystem
    case OnCatalogue(DeleteScope(scope, _)) => scope in db.scopes && db.scopes[scope].isSystem
    case _ => false
  }

  /** A name or value it asks for is another row's. */
  ghost predicate IsTaken(op: Op, db: Db) {
    match op
    case OnUsers(CreateUser(email, username, _, _)) =>
      exists u :: u in db.users && (db.users[u].email == email || db.users[u].username == username)
    case OnUsers(UpdateUser(user, newName, _)) =>
      newName.Some? && user in db.users && db.users[user].username != newName.value
      && exists u :: u in db.users && db.users[u].username == newName.value
    case OnGroups(CreateGroup(name, _)) => exists g :: g in db.groups && db.groups[g].name == name
    case OnGroups(UpdateGroup(group, newName, _)) =>
      newName.Some? && group in db.groups && db.groups[group].name != newName.value
      && exists g :: g in db.groups && db.groups[g].name == newName.value
    case OnRoles(CreateRole(name, _, _)) => exists r :: r in db.roles && db.roles[r].name == name
    case OnRoles(UpdateRole(role, newName, _)) =>
      newName.Some? && role in db.roles && db.roles[role].name != newName.value
      && exists r :: r in db.roles && db.roles[r].name == newName.value
    case OnCatalogue(CreateApi(name, audience, _)) =>
      exists a :: a in db.apis && (db.apis[a].name == name || db.apis[a].audience == audience)
    case OnCatalogue(UpdateApi(api, newName, _)) =>
      newName.Some? && api in db.apis && db.apis[api].name != newName.value
      && exists a :: a in db.apis && db.apis[a].name == newName.value
    case OnCatalogue(CreateScope(_, value, _)) => exists s :: s in db.scopes && db.scopes[s].value == value
    case _ => false
  }

  /** Something it would delete is in use, and it does not insist. */
  ghost predicate IsInUse(op: Op, db: Db) {
    match op
    case OnRoles(DeleteRole(role, force)) =>
      !force && exists x :: (x, role) in db.userRoles || (x, role) in db.groupRoles
    case OnCatalogue(DeleteApi(api, force)) =>
      !force && exists s :: s in db.scopes && db.scopes[s].api == api && ScopeInUse(db, s)
    case OnCatalogue(DeleteScope(scope, force)) => !force && ScopeInUse(db, scope)
    case _ => false
  }

  ghost predicate ScopeInUse(db: Db, s: Id) {
    exists x :: (x, s) in db.roleScopes || (x, s) in db.userScopes || (x, s) in db.clientScopes
  }

  /** These rows, all that are missing of those it names. */
  ghost predicate Names(op: Op, db: Db, missing: set<Id>) {
    match op
    case OnUsers(CreateUser(_, _, roles, groups)) =>
      missing == roles - db.roles.Keys || missing == groups - db.groups.Keys
    case OnUsers(SetRoles(_, roles)) => missing == roles - db.roles.Keys
    case OnUsers(SetDirectScopes(_, scopes)) => missing == scopes - db.scopes.Keys
    case OnGroups(SetGroupRoles(_, roles)) => missing == roles - db.roles.Keys
    case OnGroups(AddMembers(_, users)) => missing == users - db.users.Keys
    case OnRoles(CreateRole(_, _, scopes)) => missing == scopes - db.scopes.Keys
    case OnRoles(SetRoleScopes(_, scopes)) => missing == scopes - db.scopes.Keys
    case _ => false
  }

  /** It closes the caller's own account. */
  ghost predicate IsOwnAccount(op: Op, caller: Token) {
    match op
    case OnUsers(UpdateUser(user, _, active)) => active == Some(false) && caller.subject == Some(user)
    case OnUsers(DeleteUser(user)) => caller.subject == Some(user)
    case _ => false
  }

  ghost predicate ReachesThroughRoles(db: Db, roles: set<Id>, scope: Id) {
    exists role :: role in roles && (role, scope) in db.roleScopes
  }

  /** It confers this scope on somebody. */
  ghost predicate Confers(op: Op, db: Db, scope: Id) {
    match op
    case OnUsers(CreateUser(_, _, roles, groups)) =>
      || ReachesThroughRoles(db, roles, scope)
      || exists group, role :: group in groups && (group, role) in db.groupRoles && (role, scope) in db.roleScopes
    case OnUsers(SetRoles(_, roles)) => ReachesThroughRoles(db, roles, scope)
    case OnUsers(SetDirectScopes(_, scopes)) => scope in scopes
    case OnGroups(SetGroupRoles(_, roles)) => ReachesThroughRoles(db, roles, scope)
    case OnGroups(AddMembers(group, _)) =>
      exists role :: (group, role) in db.groupRoles && (role, scope) in db.roleScopes
    case OnRoles(CreateRole(_, _, scopes)) => scope in scopes
    case OnRoles(SetRoleScopes(_, scopes)) => scope in scopes
    case _ => false
  }

  /** It acts on an account that holds this scope. */
  ghost predicate ActsOnHolder(op: Op, db: Db, scope: Id) {
    op.OnUsers? && !op.u.CreateUser? && op.u.user in db.users && Reaches(db, op.u.user, scope)
  }

  /** A system scope of the provider's own administration or of its biometrics. */
  ghost predicate IsGuarded(db: Db, scope: Id, value: string) {
    && scope in db.scopes && db.scopes[scope].isSystem && db.scopes[scope].value == value
    && (value == "admin" || "admin:" <= value || value == "biometric" || "biometric:" <= value)
  }

  /** This, when true, speaks against the request. */
  ghost predicate Objection(rules: Rules, op: Op, caller: Token, db: Db, error: Error) {
    match error
    case MissingScope(required) => required !in caller.scopes && AsksFor(op, required)
    case NotFound => IsMissing(op, db)
    case Unknown(missing) => missing != {} && Names(op, db, missing)
    case Taken => IsTaken(op, db)
    case SystemImmutable => IsOfTheSystem(op, db)
    case InUse => IsInUse(op, db)
    case OwnAccount => IsOwnAccount(op, caller)
    case CannotDelegate(beyond) =>
      && rules.granting && beyond != {}
      && forall v :: v in beyond <==> v !in caller.scopes && exists s :: Confers(op, db, s) && IsGuarded(db, s, v)
    case CannotAdminister(beyond) =>
      && rules.borrowing && beyond != {}
      && forall v :: v in beyond <==> v !in caller.scopes && exists s :: ActsOnHolder(op, db, s) && IsGuarded(db, s, v)
    case WouldLockEveryoneOut => false
  }

  /** The recovery scope is there, and nobody active holds it. */
  ghost predicate LockedOut(db: Db) {
    ScopeValued(db, RECOVERY_SCOPE) && Administrators(db) == {}
  }

  /** Carried out where nothing speaks against it and nobody is locked out by it; and otherwise
    * refused, for a reason that is true. */
  ghost predicate Settles(rules: Rules, op: Op, caller: Token, db: Db, result: Result<Db, Error>) {
    match result
    case Success(after) =>
      && (forall e :: !Objection(rules, op, caller, db, e))
      && Achieves(op, db, after) && !(LockoutGuarded(op) && LockedOut(after))
    case Failure(e) =>
      || Objection(rules, op, caller, db, e)
      || (e == WouldLockEveryoneOut && LockoutGuarded(op)
          && exists after :: Achieves(op, db, after) && LockedOut(after))
  }
}
