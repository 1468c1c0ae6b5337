/** A deployment in use: requests and further runs of the seed, in any order. */
module Upkeep {
  import opened Results
  import opened Directory
  import opened Delegation
  import opened Lockout
  import opened Requests
  import opened Administration
  import opened Recovery
  import opened Seeding
  import opened Bootstrap

  // ---- No request touches what the seed owns ----

  /** System APIs, scopes and roles keep their rows, system roles their bundles of system scopes,
    * and clients everything but their links to ordinary scopes. */
  ghost predicate SystemRowsStay(db: Db, after: Db) {
    && (forall i :: i in db.apis && db.apis[i].isSystem ==> i in after.apis && after.apis[i] == db.apis[i])
    && (forall s :: s in db.scopes && db.scopes[s].isSystem ==> s in after.scopes && after.scopes[s] == db.scopes[s])
    && (forall r :: r in db.roles && db.roles[r].isSystem ==> r in after.roles && after.roles[r] == db.roles[r])
    && BundlesStay(db, after)
    && after.clients == db.clients
    && LinksStay(db, after)
  }

  ghost predicate BundlesStay(db: Db, after: Db) {
    forall r, s :: r in db.roles && db.roles[r].isSystem ==>
      && ((r, s) in after.roleScopes ==> (r, s) in db.roleScopes)
      && ((r, s) in db.roleScopes && s in db.scopes && db.scopes[s].isSystem ==> (r, s) in after.roleScopes)
  }

  ghost predicate LinksStay(db: Db, after: Db) {
    forall p :: p in db.clientScopes && p.1 in db.scopes && db.scopes[p.1].isSystem ==>
      p in after.clientScopes && after.clientScopes[p] == db.clientScopes[p]
  }

  lemma UsersLeaveSystemRows(rules: Rules, op: UserOp, caller: Token, db: Db)
    requires ChangeUsers(rules, op, caller, db).Success?
    ensures SystemRowsStay(db, ChangeUsers(rules, op, caller, db).value)
  {
  }

  lemma GroupsLeaveSystemRows(rules: Rules, op: GroupOp, caller: Token, db: Db)
    requires ChangeGroups(rules, op, caller, db).Success?
    ensures SystemRowsStay(db, ChangeGroups(rules, op, caller, db).value)
  {
  }

  lemma RolesLeaveSystemRows(rules: Rules, op: RoleOp, caller: Token, db: Db)
    requires IdsIssued(db) && ChangeRoles(rules, op, caller, db).Success?
    ensures SystemRowsStay(db, ChangeRoles(rules, op, caller, db).value)
  {
  }

  lemma CatalogueLeavesSystemRows(op: CatalogueOp, db: Db)
    requires IdsIssued(db) && SystemScopesPlaced(db) && ChangeCatalogue(op, db).Success?
    ensures SystemRowsStay(db, ChangeCatalogue(op, db).value)
  {
  }

  lemma RequestsLeaveSystemRows(rules: Rules, op: Op, caller: Token, db: Db)
    requires Sound(db)
    ensures SystemRowsStay(db, Committed(rules, op, caller, db))
  {
    CommitsTheChangeOrNothing(rules, op, caller, db);
    if Change(rules, op, caller, db).Success? {
      match op
      case OnUsers(u) => UsersLeaveSystemRows(rules, u, caller, db);
      case OnGroups(g) => GroupsLeaveSystemRows(rules, g, caller, db);
      case OnRoles(r) => RolesLeaveSystemRows(rules, r, caller, db);
      case OnCatalogue(c) => CatalogueLeavesSystemRows(c, db);
    }
  }

  // ---- So the catalogue stays as seeded ----

  /** All that the catalogue says, but for the administrator's account. */
  ghost predicate Catalogued(db: Db, cat: Catalogue) {
    var known := AllValues(cat.apis);
    ApisSeeded(db, cat.apis) && RolesSeeded(db, known, cat.roles) && ClientSeeded(db, known, cat.client)
  }

  lemma ApisStay(db: Db, after: Db, specs: seq<ApiSpec>)
    requires ApisSeeded(db, specs) && SystemRowsStay(db, after)
    ensures ApisSeeded(after, specs)
  {
    forall k | 0 <= k < |specs| ensures ApiSeeded(after, specs[k]) {
      var i :| ApiSeededAt(db, specs[k], i);
      forall m | 0 <= m < |specs[k].scopes| ensures ScopeSeeded(after, i, specs[k].scopes[m]) {
        var s :| ScopeSeededAt(db, i, specs[k].scopes[m], s);
        assert ScopeSeededAt(after, i, specs[k].scopes[m], s);
      }
      assert ApiSeededAt(after, specs[k], i);
    }
  }

  /** The catalogue's values are those of the same system scopes before and after. */
  lemma SameScopesFor(db: Db, after: Db, specs: seq<ApiSpec>, values: seq<string>)
    requires ApisSeeded(db, specs) && SystemRowsStay(db, after)
    requires UniqueScopes(db.scopes) && UniqueScopes(after.scopes)
    ensures ScopesFor(after, AllValues(specs), values) == ScopesFor(db, AllValues(specs), values)
    ensures forall s :: s in ScopesFor(db, AllValues(specs), values) ==>
      s in db.scopes && db.scopes[s].isSystem && s in after.scopes && after.scopes[s] == db.scopes[s]
  {
    var known := AllValues(specs);
    forall s | s in ScopesFor(db, known, values) ensures db.scopes[s].isSystem {
      var t := SeededValueIsSystem(db, specs, db.scopes[s].value);
    }
    forall s | s in ScopesFor(after, known, values) ensures s in ScopesFor(db, known, values) {
      var t := SeededValueIsSystem(db, specs, after.scopes[s].value);
      assert after.scopes[t].value == after.scopes[s].value;
    }
  }

  lemma RolesStay(db: Db, after: Db, specs: seq<ApiSpec>, roles: seq<RoleSpec>)
    requires ApisSeeded(db, specs) && RolesSeeded(db, AllValues(specs), roles) && SystemRowsStay(db, after)
    requires UniqueScopes(db.scopes) && UniqueScopes(after.scopes)
    ensures RolesSeeded(after, AllValues(specs), roles)
  {
    forall k | 0 <= k < |roles| ensures RoleSeeded(after, AllValues(specs), roles[k]) {
      var r :| RoleSeededAt(db, AllValues(specs), roles[k], r);
      SameScopesFor(db, after, specs, roles[k].scopes);
      SameBundle(db, after, r);
      assert RoleSeededAt(after, AllValues(specs), roles[k], r);
    }
  }

  lemma SameBundle(db: Db, after: Db, r: Id)
    requires SystemRowsStay(db, after) && r in db.roles && db.roles[r].isSystem
    requires forall s :: s in Linked(db.roleScopes, r) ==> s in db.scopes && db.scopes[s].isSystem
    ensures Linked(after.roleScopes, r) == Linked(db.roleScopes, r)
  {
    forall s ensures s in Linked(after.roleScopes, r) <==> s in Linked(db.roleScopes, r) {
      assert s in Linked(after.roleScopes, r) <==> (r, s) in after.roleScopes;
      assert s in Linked(db.roleScopes, r) <==> (r, s) in db.roleScopes;
    }
  }

  lemma ClientStays(db: Db, after: Db, specs: seq<ApiSpec>, spec: ClientSpec)
    requires ApisSeeded(db, specs) && ClientSeeded(db, AllValues(specs), spec) && SystemRowsStay(db, after)
    requires UniqueScopes(db.scopes) && UniqueScopes(after.scopes)
    ensures ClientSeeded(after, AllValues(specs), spec)
  {
    var c :| ClientSeededAt(db, AllValues(specs), spec, c);
    SameScopesFor(db, after, specs, spec.grantable + spec.granted);
    assert ClientSeededAt(after, AllValues(specs), spec, c);
  }

  /** Whatever is asked, by anybody and under either delegation rule or neither, the database
    * goes on saying what the catalogue says. */
  lemma RequestsKeepTheSeed(rules: Rules, op: Op, caller: Token, db: Db, cat: Catalogue)
    requires Sound(db) && Catalogued(db, cat)
    ensures Catalogued(Committed(rules, op, caller, db), cat)
  {
    var after := Committed(rules, op, caller, db);
    RequestsKeepTheCatalogue(rules, op, caller, db);
    RequestsLeaveSystemRows(rules, op, caller, db);
    ApisStay(db, after, cat.apis);
    RolesStay(db, after, cat.apis, cat.roles);
    ClientStays(db, after, cat.apis, cat.client);
  }

  // ---- And another run of the seed only ever restores the administrator ----

  /** Where the catalogue is said already, a run comes down to the administrator's account. */
  lemma ReseedingOnlyAddsTheAdministrator(db: Db, cat: Catalogue)
    requires Integrity(db) && Catalogued(db, cat)
    ensures Seed(db, cat) == match SeedAdmin(db, cat.email)
                             case Failure(e) => Failure(e)
                             case Success(after) => Success(Seeded(after, false, !EmailUsed(db, cat.email)))
  {
    SeededApisStay(db, cat.apis);
    SeededRolesStay(db, AllValues(cat.apis), cat.roles);
    SeededClientStays(db, AllValues(cat.apis), cat.client);
  }

  datatype Step = Asked(request: Request) | Reseeded

  /** The database after a request, or after a run of the seed, which leaves it be where it fails. */
  ghost function AfterStep(rules: Rules, cat: Catalogue, db: Db, step: Step): Db {
    match step
    case Asked(request) => Committed(rules, request.op, request.caller, db)
    case Reseeded =>
      match Seed(db, cat)
      case Failure(_) => db
      case Success(seeded) => seeded.db
  }

  ghost function AfterSteps(rules: Rules, cat: Catalogue, db: Db, steps: seq<Step>): Db
    decreases |steps|
  {
    if steps == [] then db else AfterSteps(rules, cat, AfterStep(rules, cat, db, steps[0]), steps[1..])
  }

  lemma NewLinksKeepOld(r: set<(Id, Id)>, x: Id, ys: set<Id>)
    requires forall p :: p in r ==> p.0 != x
    ensures r <= Relinked(r, x, ys)
  {
  }

  lemma AddingTheAdministratorKeepsPaths(db: Db, email: string, scope: Id)
    requires Refers(db.userRoles, db.users.Keys, db.roles.Keys) && Issued(db.users.Keys, db.next)
    ensures PathsKept(db, WithAdmin(db, email), scope)
  {
    NewLinksKeepOld(db.userRoles, db.next, {RoleAt(db, ADMINISTRATOR)});
  }

  lemma KeptPathsKeepAdministrators(db: Db, after: Db)
    requires Administrators(db) != {} && after.scopes == db.scopes && forall scope :: PathsKept(db, after, scope)
    ensures Administrators(after) != {}
  {
    var admin :| admin in Administrators(db);
    var s :| s in RecoveryIds(db) && s in ScopesOfUser(db, admin);
    assert PathsKept(db, after, s);
    KeptPathsKeepHolders(db, after, s, admin);
    assert s in RecoveryIds(after);
    assert admin in Administrators(after);
  }

  lemma AddingTheAdministratorStaysRecoverable(db: Db, email: string)
    requires Recoverable(db) && Integrity(WithAdmin(db, email))
    ensures Recoverable(WithAdmin(db, email))
  {
    forall scope ensures PathsKept(db, WithAdmin(db, email), scope) {
      AddingTheAdministratorKeepsPaths(db, email, scope);
    }
    KeptPathsKeepAdministrators(db, WithAdmin(db, email));
  }

  lemma StaysCatalogued(db: Db, after: Db, cat: Catalogue)
    requires Catalogued(db, cat)
    requires after.apis == db.apis && after.scopes == db.scopes && after.roles == db.roles
    requires after.roleScopes == db.roleScopes && after.clients == db.clients && after.clientScopes == db.clientScopes
    ensures Catalogued(after, cat)
  {
    ApisStaySeeded(db, after, cat.apis);
    RolesStaySeeded(db, after, AllValues(cat.apis), cat.roles);
    ClientStaysSeeded(db, after, AllValues(cat.apis), cat.client);
  }

  lemma SeedingTheAdministratorStaysRecoverable(db: Db, email: string)
    requires Recoverable(db) && RoleAt(db, ADMINISTRATOR) in db.roles && SeedAdmin(db, email).Success?
    ensures Recoverable(SeedAdmin(db, email).value)
  {
    SeedAdminEffects(db, email);
    if !EmailUsed(db, email) {
      AddingTheAdministratorStaysRecoverable(db, email);
    }
  }

  lemma AdministratorRoleIsThere(db: Db, cat: Catalogue)
    requires UniqueRoles(db.roles) && RolesSeeded(db, AllValues(cat.apis), cat.roles) && Consistent(cat)
    ensures RoleAt(db, ADMINISTRATOR) in db.roles
  {
    var k :| 0 <= k < |cat.roles| && cat.roles[k].name == ADMINISTRATOR;
    SeededRoleExists(db, AllValues(cat.apis), cat.roles, k);
  }

  lemma SeedingTheAdministratorStaysCatalogued(db: Db, cat: Catalogue)
    requires Catalogued(db, cat) && SeedAdmin(db, cat.email).Success?
    ensures Catalogued(SeedAdmin(db, cat.email).value, cat)
  {
    if !EmailUsed(db, cat.email) {
      StaysCatalogued(db, WithAdmin(db, cat.email), cat);
    }
  }

  lemma ReseedingComesTo(db: Db, cat: Catalogue, rules: Rules)
    requires Integrity(db) && Catalogued(db, cat)
    ensures AfterStep(rules, cat, db, Reseeded)
         == if SeedAdmin(db, cat.email).Success? then SeedAdmin(db, cat.email).value else db
  {
    ReseedingOnlyAddsTheAdministrator(db, cat);
  }

  lemma ReseedingKeepsUp(db: Db, cat: Catalogue, rules: Rules)
    requires Recoverable(db) && Catalogued(db, cat) && Consistent(cat)
    ensures Recoverable(AfterStep(rules, cat, db, Reseeded)) && Catalogued(AfterStep(rules, cat, db, Reseeded), cat)
  {
    ReseedingComesTo(db, cat, rules);
    if SeedAdmin(db, cat.email).Success? {
      AdministratorRoleIsThere(db, cat);
      SeedingTheAdministratorStaysRecoverable(db, cat.email);
      SeedingTheAdministratorStaysCatalogued(db, cat);
    }
  }

  /** Through any run of requests and re-runs of the seed, in any order, somebody active holds the
    * recovery scope and the database says what the catalogue says. */
  lemma {:induction false} DeploymentsKeepUp(rules: Rules, cat: Catalogue, db: Db, steps: seq<Step>)
    requires Recoverable(db) && Catalogued(db, cat) && Consistent(cat)
    ensures Recoverable(AfterSteps(rules, cat, db, steps)) && Catalogued(AfterSteps(rules, cat, db, steps), cat)
    decreases |steps|
  {
    if steps != [] {
      match steps[0] {
        case Asked(request) =>
          RequestsStayRecoverable(rules, request.op, request.caller, db);
          RequestsKeepTheSeed(rules, request.op, request.caller, db, cat);
        case Reseeded =>
          ReseedingKeepsUp(db, cat, rules);
      }
      DeploymentsKeepUp(rules, cat, AfterStep(rules, cat, db, steps[0]), steps[1..]);
    }
  }

  /** From the first run that makes the administrator on. */
  lemma SeededDeploymentsKeepUp(rules: Rules, cat: Catalogue, db: Db, steps: seq<Step>)
    requires Sound(db) && Consistent(cat) && GivesRecovery(cat)
    requires Seed(db, cat).Success? && Seed(db, cat).value.password
    ensures var now := AfterSteps(rules, cat, Seed(db, cat).value.db, steps);
            AdministratorsRemaining(now) >= 1 && Catalogued(now, cat)
  {
    SeededDeploymentIsRecoverable(db, cat);
    SeedingSays(db, cat);
    DeploymentsKeepUp(rules, cat, Seed(db, cat).value.db, steps);
    NobodyIsLockedOut(rules, AfterSteps(rules, cat, Seed(db, cat).value.db, steps), []);
  }
}
