/** The administrative API's writes, each as one transaction: change, check against
  * the world the commit would create, then commit or roll back. */
module Administration {
  import opened Results
  import opened Directory
  import opened Delegation
  import opened Lockout
  import opened Requests

  function Resolve(wanted: set<Id>, known: set<Id>): (r: Check<Error>)
    ensures r.Broken? <==> wanted - known != {}
  {
    assert wanted <= known <==> wanted - known == {} by {
      assert forall i :: i in wanted && i !in known ==> i in wanted - known;
    }
    Need(wanted <= known, Unknown(wanted - known))
  }

  // ---- users/service.py ----

  function GetUserToModify(rules: Rules, db: Db, user: Id, caller: Token): Check<Error> {
    if user !in db.users then Broken(NotFound) else RefuseIfOutranked(rules, caller.scopes, db, user)
  }

  function NotOwnAccount(user: Id, caller: Token): Check<Error> {
    Need(caller.subject != Some(user), OwnAccount)
  }

  function ChangeUsers(rules: Rules, op: UserOp, caller: Token, db: Db): Result<Db, Error> {
    match op
    case CreateUser(email, username, roles, groups) =>
      :- Need(!UsernameUsed(db, username), Taken);
      :- Need(!EmailUsed(db, email), Taken);
      :- Resolve(roles, db.roles.Keys);
      :- Resolve(groups, db.groups.Keys);
      :- RefuseUndelegatable(rules, caller.scopes, db, ScopesOfRoles(db, roles) + ScopesOfGroups(db, groups));
      var id := db.next;
      Success(db.(users := db.users[id := User(email, username, true)],
                  userRoles := Relinked(db.userRoles, id, roles),
                  userGroups := Relinked(db.userGroups, id, groups),
                  next := id + 1))

    case UpdateUser(user, newName, active) =>
      :- GetUserToModify(rules, db, user, caller);
      :- if active == Some(false) then NotOwnAccount(user, caller) else Holds;
      var row := db.users[user];
      :- Need(newName.None? || newName.value == row.username || !UsernameUsed(db, newName.value), Taken);
      var renamed := if newName.Some? then row.(username := newName.value) else row;
      Success(db.(users := db.users[user := if active.Some? then renamed.(isActive := active.value) else renamed]))

    case SetRoles(user, roles) =>
      :- GetUserToModify(rules, db, user, caller);
      :- Resolve(roles, db.roles.Keys);
      :- RefuseUndelegatable(rules, caller.scopes, db, ScopesOfRoles(db, roles));
      Success(db.(userRoles := Relinked(db.userRoles, user, roles)))

    case SetDirectScopes(user, scopes) =>
      :- GetUserToModify(rules, db, user, caller);
      :- Resolve(scopes, db.scopes.Keys);
      :- RefuseUndelegatable(rules, caller.scopes, db, scopes);
      Success(db.(userScopes := Relinked(db.userScopes, user, scopes)))

    // The password, the authenticator and the face are not columns of this model.
    case ResetPassword(user) =>
      :- GetUserToModify(rules, db, user, caller);
      Success(db)
    case ClearTotp(user) =>
      :- GetUserToModify(rules, db, user, caller);
      Success(db)
    case ClearFace(user) =>
      :- GetUserToModify(rules, db, user, caller);
      Success(db)

    case DeleteUser(user) =>
      :- GetUserToModify(rules, db, user, caller);
      :- NotOwnAccount(user, caller);
      Success(Directory.DeleteUser(db, user))
  }

  // ---- groups/service.py ----

  function ChangeGroups(rules: Rules, op: GroupOp, caller: Token, db: Db): Result<Db, Error> {
    match op
    case CreateGroup(name, description) =>
      :- Need(!GroupNamed(db, name), Taken);
      Success(db.(groups := db.groups[db.next := Group(name, description)], next := db.next + 1))

    case UpdateGroup(group, newName, newDescription) =>
      :- Need(group in db.groups, NotFound);
      var row := db.groups[group];
      :- Need(newName.None? || newName.value == row.name || !GroupNamed(db, newName.value), Taken);
      var renamed := if newName.Some? then row.(name := newName.value) else row;
      Success(db.(groups := db.groups[group :=
                                        if newDescription.Some? then renamed.(description := newDescription.value)
                                        else renamed]))

    case SetGroupRoles(group, roles) =>
      :- Need(group in db.groups, NotFound);
      :- Resolve(roles, db.roles.Keys);
      :- RefuseUndelegatable(rules, caller.scopes, db, ScopesOfRoles(db, roles));
      Success(db.(groupRoles := Relinked(db.groupRoles, group, roles)))

    case AddMembers(group, users) =>
      :- Need(group in db.groups, NotFound);
      :- RefuseUndelegatable(rules, caller.scopes, db, ScopesOfRoles(db, Linked(db.groupRoles, group)));
      :- Resolve(users, db.users.Keys);
      Success(db.(userGroups := db.userGroups + FromEach(users, group)))

    case RemoveMember(group, user) =>
      :- Need(group in db.groups, NotFound);
      Success(db.(userGroups := db.userGroups - {(user, group)}))

    case DeleteGroup(group) =>
      :- Need(group in db.groups, NotFound);
      Success(Directory.DeleteGroup(db, group))
  }

  // ---- roles/service.py ----

  predicate RoleInUse(db: Db, role: Id) {
    (exists p :: p in db.userRoles && p.1 == role) || (exists p :: p in db.groupRoles && p.1 == role)
  }

  function ChangeRoles(rules: Rules, op: RoleOp, caller: Token, db: Db): Result<Db, Error> {
    match op
    case CreateRole(name, description, scopes) =>
      :- Need(!RoleNamed(db, name), Taken);
      :- Resolve(scopes, db.scopes.Keys);
      :- RefuseUndelegatable(rules, caller.scopes, db, scopes);
      var id := db.next;
      Success(db.(roles := db.roles[id := Role(name, description, false)],
                  roleScopes := Relinked(db.roleScopes, id, scopes),
                  next := id + 1))

    case UpdateRole(role, newName, newDescription) =>
      :- Need(role in db.roles, NotFound);
      var row := db.roles[role];
      :- Need(!row.isSystem, SystemImmutable);
      :- Need(newName.None? || newName.value == row.name || !RoleNamed(db, newName.value), Taken);
      var renamed := if newName.Some? then row.(name := newName.value) else row;
      Success(db.(roles := db.roles[role :=
                                      if newDescription.Some? then renamed.(description := newDescription.value)
                                      else renamed]))

    case SetRoleScopes(role, scopes) =>
      :- Need(role in db.roles, NotFound);
      :- Need(!db.roles[role].isSystem, SystemImmutable);
      :- Resolve(scopes, db.scopes.Keys);
      :- RefuseUndelegatable(rules, caller.scopes, db, scopes);
      Success(db.(roleScopes := Relinked(db.roleScopes, role, scopes)))

    case DeleteRole(role, force) =>
      :- Need(role in db.roles, NotFound);
      :- Need(!db.roles[role].isSystem, SystemImmutable);
      :- Need(force || !RoleInUse(db, role), InUse);
      Success(Directory.DeleteRole(db, role))
  }

  // ---- apis/service.py and scopes/service.py ----

  predicate AnyInUse(db: Db, scopes: set<Id>) {
    || (exists p :: p in db.roleScopes && p.1 in scopes)
    || (exists p :: p in db.userScopes && p.1 in scopes)
    || (exists k :: k in db.clientScopes && k.1 in scopes)
  }

  function ChangeCatalogue(op: CatalogueOp, db: Db): Result<Db, Error> {
    match op
    case CreateApi(name, audience, description) =>
      :- Need(!ApiNamed(db, name), Taken);
      :- Need(!AudienceUsed(db, audience), Taken);
      Success(db.(apis := db.apis[db.next := Api(name, audience, description, false)], next := db.next + 1))

    case UpdateApi(api, newName, newDescription) =>
      :- Need(api in db.apis, NotFound);
      var row := db.apis[api];
      :- Need(!row.isSystem, SystemImmutable);
      :- Need(newName.None? || newName.value == row.name || !ApiNamed(db, newName.value), Taken);
      var renamed := if newName.Some? then row.(name := newName.value) else row;
      Success(db.(apis := db.apis[api :=
                                    if newDescription.Some? then renamed.(description := newDescription.value)
                                    else renamed]))

    case DeleteApi(api, force) =>
      :- Need(api in db.apis, NotFound);
      :- Need(!db.apis[api].isSystem, SystemImmutable);
      :- Need(force || !AnyInUse(db, ScopesOfApi(db, api)), InUse);
      Success(Directory.DeleteApi(db, api))

    case CreateScope(api, value, description) =>
      :- Need(api in db.apis, NotFound);
      :- Need(!ScopeValued(db, value), Taken);
      Success(db.(scopes := db.scopes[db.next := Scope(api, value, description, false)], next := db.next + 1))

    case UpdateScope(scope, newDescription) =>
      :- Need(scope in db.scopes, NotFound);
      :- Need(!db.scopes[scope].isSystem, SystemImmutable);
      var was := db.scopes[scope];
      var row := if newDescription.Some? then was.(description := newDescription.value) else was;
      Success(db.(scopes := db.scopes[scope := row]))

    case DeleteScope(scope, force) =>
      :- Need(scope in db.scopes, NotFound);
      :- Need(!db.scopes[scope].isSystem, SystemImmutable);
      :- Need(force || !AnyInUse(db, {scope}), InUse);
      Success(DeleteScopes(db, {scope}))
  }

  // ---- The transaction ----

  function Change(rules: Rules, op: Op, caller: Token, db: Db): Result<Db, Error> {
    var required := RequiredScope(op);
    :- Need(required in caller.scopes, MissingScope(required));
    match op
    case OnUsers(u) => ChangeUsers(rules, u, caller, db)
    case OnGroups(g) => ChangeGroups(rules, g, caller, db)
    case OnRoles(r) => ChangeRoles(rules, r, caller, db)
    case OnCatalogue(c) => ChangeCatalogue(c, db)
  }

  /** What one request leaves committed, or why it was refused. */
  function Outcome(rules: Rules, op: Op, caller: Token, db: Db): Result<Db, Error> {
    var after :- Change(rules, op, caller, db);
    :- if LockoutGuarded(op) then RefuseIfLast(after) else Holds;
    Success(after)
  }

  /** The database after a request: unchanged when it was refused. */
  function Committed(rules: Rules, op: Op, caller: Token, db: Db): Db {
    match Outcome(rules, op, caller, db)
    case Success(after) => after
    case Failure(_) => db
  }

  // ---- A request does what it is asked for ----

  lemma UserOpsAchieve(rules: Rules, op: UserOp, caller: Token, db: Db)
    requires ChangeUsers(rules, op, caller, db).Success?
    ensures UserOpAchieves(op, db, ChangeUsers(rules, op, caller, db).value)
  {
  }

  lemma GroupOpsAchieve(rules: Rules, op: GroupOp, caller: Token, db: Db)
    requires ChangeGroups(rules, op, caller, db).Success?
    ensures GroupOpAchieves(op, db, ChangeGroups(rules, op, caller, db).value)
  {
  }

  lemma RoleOpsAchieve(rules: Rules, op: RoleOp, caller: Token, db: Db)
    requires ChangeRoles(rules, op, caller, db).Success?
    ensures RoleOpAchieves(op, db, ChangeRoles(rules, op, caller, db).value)
  {
  }

  lemma CatalogueOpsAchieve(op: CatalogueOp, db: Db)
    requires ChangeCatalogue(op, db).Success?
    ensures CatalogueOpAchieves(op, db, ChangeCatalogue(op, db).value)
  {
  }

  /** Row by row: what was asked for is there, and nothing else has changed. */
  lemma RequestsDoWhatIsAsked(rules: Rules, op: Op, caller: Token, db: Db)
    requires Change(rules, op, caller, db).Success?
    ensures Achieves(op, db, Change(rules, op, caller, db).value)
  {
    match op
    case OnUsers(u) => UserOpsAchieve(rules, u, caller, db);
    case OnGroups(g) => GroupOpsAchieve(rules, g, caller, db);
    case OnRoles(r) => RoleOpsAchieve(rules, r, caller, db);
    case OnCatalogue(c) => CatalogueOpsAchieve(c, db);
  }

  // ---- And is refused for a reason, and only for one ----

  lemma GuardedExactly(db: Db, s: Id, value: string)
    ensures IsGuarded(db, s, value) <==> s in db.scopes && IsRestricted(db.scopes[s]) && db.scopes[s].value == value
  {
    PrefixIs("admin", value);
    PrefixIs("biometric", value);
  }

  lemma RestrictedExactly(db: Db, ids: set<Id>, value: string)
    ensures value in Restricted(db, ids) <==> exists s :: s in ids && IsGuarded(db, s, value)
  {
    forall s ensures IsGuarded(db, s, value)
                <==> s in db.scopes && IsRestricted(db.scopes[s]) && db.scopes[s].value == value {
      GuardedExactly(db, s, value);
    }
  }

  /** Everything the rule would measure of these scopes. */
  lemma BeyondExactly(db: Db, ids: set<Id>, caller: set<string>, beyond: set<string>)
    requires beyond == Restricted(db, ids) - caller
    ensures forall v :: v in beyond <==> v !in caller && exists s :: s in ids && IsGuarded(db, s, v)
  {
    forall v ensures v in Restricted(db, ids) <==> exists s :: s in ids && IsGuarded(db, s, v) {
      RestrictedExactly(db, ids, v);
    }
  }

  lemma UndelegatableExactly(rules: Rules, op: Op, caller: Token, db: Db, conferring: set<Id>)
    requires forall s :: s in conferring <==> Confers(op, db, s)
    ensures match RefuseUndelegatable(rules, caller.scopes, db, conferring)
            case Broken(e) => e.CannotDelegate? && Objection(rules, op, caller, db, e)
            case Holds => forall beyond :: !Objection(rules, op, caller, db, CannotDelegate(beyond))
  {
    var beyond := Restricted(db, conferring) - caller.scopes;
    BeyondExactly(db, conferring, caller.scopes, beyond);
    forall other | Objection(rules, op, caller, db, CannotDelegate(other)) ensures other == beyond {
      assert forall v :: v in other <==> v in beyond;
    }
  }

  lemma OutrankedExactly(rules: Rules, op: Op, caller: Token, db: Db, user: Id)
    requires user in db.users && forall s :: ActsOnHolder(op, db, s) <==> s in ScopesOfUser(db, user)
    ensures match RefuseIfOutranked(rules, caller.scopes, db, user)
            case Broken(e) => e.CannotAdminister? && Objection(rules, op, caller, db, e)
            case Holds => forall beyond :: !Objection(rules, op, caller, db, CannotAdminister(beyond))
  {
    var beyond := Restricted(db, ScopesOfUser(db, user)) - caller.scopes;
    BeyondExactly(db, ScopesOfUser(db, user), caller.scopes, beyond);
    forall other | Objection(rules, op, caller, db, CannotAdminister(other)) ensures other == beyond {
      assert forall v :: v in other <==> v in beyond;
    }
  }

  lemma RolesConfer(db: Db, roles: set<Id>, scope: Id)
    ensures scope in ScopesOfRoles(db, roles) <==> ReachesThroughRoles(db, roles, scope)
  {
    if ReachesThroughRoles(db, roles, scope) {
      var role :| role in roles && (role, scope) in db.roleScopes;
      assert (role, scope).1 in ScopesOfRoles(db, roles);
    }
  }

  lemma GroupsConfer(db: Db, groups: set<Id>, scope: Id)
    ensures scope in ScopesOfGroups(db, groups) <==>
      exists group, role :: group in groups && (group, role) in db.groupRoles && (role, scope) in db.roleScopes
  {
    RolesConfer(db, RolesOfGroups(db, groups), scope);
    if group, role :| group in groups && (group, role) in db.groupRoles && (role, scope) in db.roleScopes {
      assert (group, role).1 in RolesOfGroups(db, groups);
    }
    if scope in ScopesOfGroups(db, groups) {
      var role :| role in RolesOfGroups(db, groups) && (role, scope) in db.roleScopes;
      var p :| p in db.groupRoles && p.0 in groups && p.1 == role;
      assert (p.0, role) in db.groupRoles;
    }
  }

  /** The scopes a request is measured on before it may confer them. */
  function Conferring(op: Op, db: Db): set<Id> {
    match op
    case OnUsers(CreateUser(_, _, roles, groups)) => ScopesOfRoles(db, roles) + ScopesOfGroups(db, groups)
    case OnUsers(SetRoles(_, roles)) => ScopesOfRoles(db, roles)
    case OnUsers(SetDirectScopes(_, scopes)) => scopes
    case OnGroups(SetGroupRoles(_, roles)) => ScopesOfRoles(db, roles)
    case OnGroups(AddMembers(group, _)) => ScopesOfRoles(db, Linked(db.groupRoles, group))
    case OnRoles(CreateRole(_, _, scopes)) => scopes
    case OnRoles(SetRoleScopes(_, scopes)) => scopes
    case _ => {}
  }

  /** The delegation rule measures exactly what a request confers. */
  lemma MeasuredIsConferred(op: Op, db: Db)
    ensures forall s :: s in Conferring(op, db) <==> Confers(op, db, s)
  {
    forall s ensures s in Conferring(op, db) <==> Confers(op, db, s) {
      match op
      case OnUsers(CreateUser(_, _, roles, groups)) =>
        RolesConfer(db, roles, s);
        GroupsConfer(db, groups, s);
      case OnUsers(SetRoles(_, roles)) => RolesConfer(db, roles, s);
      case OnGroups(SetGroupRoles(_, roles)) => RolesConfer(db, roles, s);
      case OnGroups(AddMembers(group, _)) =>
        RolesConfer(db, Linked(db.groupRoles, group), s);
        forall role ensures role in Linked(db.groupRoles, group) <==> (group, role) in db.groupRoles {
          assert (group, role).1 == role;
        }
      case _ =>
    }
  }

  /** Refused for a reason that is true, or else nothing speaks against it. */
  ghost predicate Justified(rules: Rules, op: Op, caller: Token, db: Db, result: Result<Db, Error>) {
    match result
    case Failure(e) => Objection(rules, op, caller, db, e)
    case Success(_) => forall e :: !Objection(rules, op, caller, db, e)
  }

  lemma NewUsersAreJustified(rules: Rules, u: UserOp, caller: Token, db: Db)
    requires u.CreateUser? && RequiredScope(OnUsers(u)) in caller.scopes
    ensures Justified(rules, OnUsers(u), caller, db, ChangeUsers(rules, u, caller, db))
  {
    MeasuredIsConferred(OnUsers(u), db);
    UndelegatableExactly(rules, OnUsers(u), caller, db, Conferring(OnUsers(u), db));
  }

  lemma ModifyingExactly(rules: Rules, u: UserOp, caller: Token, db: Db)
    requires !u.CreateUser?
    ensures match GetUserToModify(rules, db, u.user, caller)
            case Broken(e) => Objection(rules, OnUsers(u), caller, db, e)
            case Holds =>
              u.user in db.users && forall beyond :: !Objection(rules, OnUsers(u), caller, db, CannotAdminister(beyond))
  {
    if u.user in db.users {
      forall s ensures ActsOnHolder(OnUsers(u), db, s) <==> s in ScopesOfUser(db, u.user) {
        HoldsExactlyWhatReaches(db, u.user, s);
      }
      OutrankedExactly(rules, OnUsers(u), caller, db, u.user);
    }
  }

  lemma GrantsAreJustified(rules: Rules, u: UserOp, caller: Token, db: Db)
    requires (u.SetRoles? || u.SetDirectScopes?) && RequiredScope(OnUsers(u)) in caller.scopes
    ensures Justified(rules, OnUsers(u), caller, db, ChangeUsers(rules, u, caller, db))
  {
    ModifyingExactly(rules, u, caller, db);
    MeasuredIsConferred(OnUsers(u), db);
    UndelegatableExactly(rules, OnUsers(u), caller, db, Conferring(OnUsers(u), db));
  }

  lemma UserChangesAreJustified(rules: Rules, u: UserOp, caller: Token, db: Db)
    requires !u.CreateUser? && !u.SetRoles? && !u.SetDirectScopes? && RequiredScope(OnUsers(u)) in caller.scopes
    ensures Justified(rules, OnUsers(u), caller, db, ChangeUsers(rules, u, caller, db))
  {
    ModifyingExactly(rules, u, caller, db);
    forall s ensures !Confers(OnUsers(u), db, s) {
    }
  }

  lemma UserOpsAreJustified(rules: Rules, u: UserOp, caller: Token, db: Db)
    requires RequiredScope(OnUsers(u)) in caller.scopes
    ensures Justified(rules, OnUsers(u), caller, db, ChangeUsers(rules, u, caller, db))
  {
    match u
    case CreateUser(_, _, _, _) => NewUsersAreJustified(rules, u, caller, db);
    case SetRoles(_, _) => GrantsAreJustified(rules, u, caller, db);
    case SetDirectScopes(_, _) => GrantsAreJustified(rules, u, caller, db);
    case _ => UserChangesAreJustified(rules, u, caller, db);
  }

  lemma GroupOpsAreJustified(rules: Rules, g: GroupOp, caller: Token, db: Db)
    requires RequiredScope(OnGroups(g)) in caller.scopes
    ensures Justified(rules, OnGroups(g), caller, db, ChangeGroups(rules, g, caller, db))
  {
    MeasuredIsConferred(OnGroups(g), db);
    UndelegatableExactly(rules, OnGroups(g), caller, db, Conferring(OnGroups(g), db));
  }

  lemma RoleOpsAreJustified(rules: Rules, r: RoleOp, caller: Token, db: Db)
    requires RequiredScope(OnRoles(r)) in caller.scopes
    ensures Justified(rules, OnRoles(r), caller, db, ChangeRoles(rules, r, caller, db))
  {
    MeasuredIsConferred(OnRoles(r), db);
    UndelegatableExactly(rules, OnRoles(r), caller, db, Conferring(OnRoles(r), db));
  }

  lemma CatalogueOpsAreJustified(rules: Rules, c: CatalogueOp, caller: Token, db: Db)
    requires RequiredScope(OnCatalogue(c)) in caller.scopes
    ensures Justified(rules, OnCatalogue(c), caller, db, ChangeCatalogue(c, db))
  {
  }

  /** A request is refused only for a reason that is true, and carried out only where there is none. */
  lemma RequestsAreJustified(rules: Rules, op: Op, caller: Token, db: Db)
    ensures Justified(rules, op, caller, db, Change(rules, op, caller, db))
    ensures RequiredScope(op) !in caller.scopes
            <==> Change(rules, op, caller, db) == Failure(MissingScope(RequiredScope(op)))
  {
    if RequiredScope(op) in caller.scopes {
      match op
      case OnUsers(u) => UserOpsAreJustified(rules, u, caller, db);
      case OnGroups(g) => GroupOpsAreJustified(rules, g, caller, db);
      case OnRoles(r) => RoleOpsAreJustified(rules, r, caller, db);
      case OnCatalogue(c) => CatalogueOpsAreJustified(rules, c, caller, db);
    }
  }

  /** So a request is either carried out to the letter or refused for good reason. */
  lemma RequestsAreSettled(rules: Rules, op: Op, caller: Token, db: Db)
    ensures Settles(rules, op, caller, db, Outcome(rules, op, caller, db))
  {
    RequestsAreJustified(rules, op, caller, db);
    if Change(rules, op, caller, db).Success? {
      var after := Change(rules, op, caller, db).value;
      RequestsDoWhatIsAsked(rules, op, caller, db);
      CountsEachAdministratorOnce(after);
      assert Achieves(op, db, after) && (LockedOut(after) <==> RefuseIfLast(after).Broken?);
    }
  }

  /** A database session: what is committed, and what the open transaction sees. */
  class Session {
    var committed: Db
    var pending: Db

    ghost predicate Idle()
      reads this
    {
      pending == committed
    }

    constructor (db: Db)
      ensures Idle() && committed == db
    {
      committed := db;
      pending := db;
    }

    method Rollback()
      modifies this`pending
      ensures Idle()
    {
      pending := committed;
    }

    method Commit()
      modifies this`committed
      ensures Idle() && committed == old(pending)
    {
      committed := pending;
    }

    /** The guard reads through the pending change: a query flushes it first. It refuses exactly
      * where the recovery scope would be left without an active holder. */
    method AskLockoutGuard() returns (refusal: Check<Error>)
      ensures refusal.Broken? <==> ScopeValued(pending, RECOVERY_SCOPE) && Administrators(pending) == {}
      ensures refusal.Broken? ==> refusal.error == WouldLockEveryoneOut
      ensures refusal == RefuseIfLast(pending)
    {
      CountsEachAdministratorOnce(pending);
      refusal := RefuseIfLast(pending);
    }

    /** One request: carried out to the letter, or refused and nothing of it applied. */
    method Perform(op: Op, caller: Token) returns (refused: Option<Error>)
      requires Idle()
      modifies this
      ensures Idle()
      ensures Settles(BOTH, op, caller, old(committed),
                      if refused.Some? then Failure(refused.value) else Success(committed))
      ensures committed == Committed(BOTH, op, caller, old(committed))
      ensures refused.Some? <==> Outcome(BOTH, op, caller, old(committed)).Failure?
      ensures refused.Some?
              ==> committed == old(committed) && refused.value == Outcome(BOTH, op, caller, old(committed)).error
    {
      RequestsAreSettled(BOTH, op, caller, committed);
      var change := Change(BOTH, op, caller, pending);
      if change.Failure? {
        Rollback();
        return Some(change.error);
      }
      pending := change.value;
      if LockoutGuarded(op) {
        var refusal := AskLockoutGuard();
        if refusal.Broken? {
          Rollback();
          return Some(refusal.error);
        }
      }
      Commit();
      return None;
    }
  }
}
