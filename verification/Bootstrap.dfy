/** A deployment that was seeded can always be administered. */
module Bootstrap {
  import opened Directory
  import opened Delegation
  import opened Lockout
  import opened Recovery
  import opened Seeding

  // ---- System scopes stay under system APIs ----

  lemma UpsertScopePlaces(db: Db, api: Id, spec: ScopeSpec)
    requires SystemScopesPlaced(db) && api in db.apis && db.apis[api].isSystem && UpsertScope(db, api, spec).Success?
    ensures SystemScopesPlaced(UpsertScope(db, api, spec).value)
  {
  }

  lemma {:induction false} UpsertScopesPlace(db: Db, api: Id, specs: seq<ScopeSpec>)
    requires Integrity(db) && SystemScopesPlaced(db) && api in db.apis && db.apis[api].isSystem
    requires UpsertScopes(db, api, specs).Success?
    ensures SystemScopesPlaced(UpsertScopes(db, api, specs).value)
  {
    if specs != [] {
      var n := |specs| - 1;
      UpsertScopesPlace(db, api, specs[..n]);
      UpsertScopesSpare(db, api, specs[..n]);
      UpsertScopePlaces(UpsertScopes(db, api, specs[..n]).value, api, specs[n]);
    }
  }

  lemma UpsertApiPlaces(db: Db, spec: ApiSpec)
    requires SystemScopesPlaced(db) && UpsertApi(db, spec).Success?
    ensures SystemScopesPlaced(UpsertApi(db, spec).value)
  {
  }

  lemma {:induction false} SeedApisPlace(db: Db, specs: seq<ApiSpec>)
    requires Sound(db) && SeedApis(db, specs).Success? && DistinctSpecs(specs)
    ensures SystemScopesPlaced(SeedApis(db, specs).value)
  {
    if specs != [] {
      var n := |specs| - 1;
      var before := SeedApis(db, specs[..n]).value;
      SeedApisPlace(db, specs[..n]);
      SeedApisSpare(db, specs[..n]);
      UpsertApiPlaces(before, specs[n]);
      UpsertApiEffects(before, specs[n]);
      UpsertScopesPlace(UpsertApi(before, specs[n]).value, ApiAt(before, specs[n].name), specs[n].scopes);
    }
  }

  // ---- The administrator can recover ----

  /** The administrator role bundles the recovery scope, and the catalogue has it. */
  ghost predicate GivesRecovery(cat: Catalogue) {
    && RECOVERY_SCOPE in AllValues(cat.apis)
    && exists k :: 0 <= k < |cat.roles| && cat.roles[k].name == ADMINISTRATOR && RECOVERY_SCOPE in cat.roles[k].scopes
  }

  lemma SeededValueIsSystem(db: Db, specs: seq<ApiSpec>, value: string) returns (s: Id)
    requires ApisSeeded(db, specs) && value in AllValues(specs)
    ensures s in db.scopes && db.scopes[s].value == value && db.scopes[s].isSystem
  {
    var spec, scope :| spec in specs && scope in spec.scopes && scope.value == value;
    var k :| 0 <= k < |specs| && specs[k] == spec;
    assert ApiSeeded(db, specs[k]);
    var i :| ApiSeededAt(db, spec, i);
    var m :| 0 <= m < |spec.scopes| && spec.scopes[m] == scope;
    assert ScopeSeeded(db, i, spec.scopes[m]);
    s :| ScopeSeededAt(db, i, scope, s);
  }

  lemma AdministratorHoldsRecovery(db: Db, cat: Catalogue, s: Id)
    requires UniqueRoles(db.roles) && RolesSeeded(db, AllValues(cat.apis), cat.roles) && DistinctRoles(cat.roles)
    requires GivesRecovery(cat) && s in db.scopes && db.scopes[s].value == RECOVERY_SCOPE
    ensures (RoleAt(db, ADMINISTRATOR), s) in db.roleScopes
  {
    var k :| 0 <= k < |cat.roles| && cat.roles[k].name == ADMINISTRATOR && RECOVERY_SCOPE in cat.roles[k].scopes;
    SeededRoleExists(db, AllValues(cat.apis), cat.roles, k);
    assert s in ScopesFor(db, AllValues(cat.apis), cat.roles[k].scopes);
    assert s in Linked(db.roleScopes, RoleAt(db, ADMINISTRATOR));
  }

  lemma NewAdministratorIsOne(db: Db, email: string, s: Id)
    requires !EmailUsed(db, email) && SeedAdmin(db, email).Success?
    requires s in RecoveryIds(db) && (RoleAt(db, ADMINISTRATOR), s) in db.roleScopes
    ensures Administrators(SeedAdmin(db, email).value) != {}
  {
    var after := SeedAdmin(db, email).value;
    var role := RoleAt(db, ADMINISTRATOR);
    assert (db.next, role) in after.userRoles && (role, s) in after.roleScopes;
    assert Reaches(after, db.next, s);
    HoldsExactlyWhatReaches(after, db.next, s);
    assert s in RecoveryIds(after);
    assert db.next in Administrators(after);
  }

  ghost function BeforeTheAdministrator(db: Db, cat: Catalogue): Db
    requires SeedApis(db, cat.apis).Success?
  {
    UpsertClient(WithRoles(db, cat), AllValues(cat.apis), cat.client)
  }

  lemma SeedingPlaces(db: Db, cat: Catalogue)
    requires Sound(db) && Consistent(cat) && Seed(db, cat).Success?
    ensures SystemScopesPlaced(Seed(db, cat).value.db)
  {
    SeedApisPlace(db, cat.apis);
    SeedApisSpare(db, cat.apis);
    SeedRolesSpare(SeedApis(db, cat.apis).value, AllValues(cat.apis), cat.roles);
  }

  /** Where seeding creates the administrator, somebody can restore everybody else. */
  lemma SeededDeploymentIsRecoverable(db: Db, cat: Catalogue)
    requires Sound(db) && Consistent(cat) && GivesRecovery(cat)
    requires Seed(db, cat).Success? && Seed(db, cat).value.password
    ensures Recoverable(Seed(db, cat).value.db)
  {
    var done, before := Seed(db, cat).value.db, BeforeTheAdministrator(db, cat);
    SeedingSays(db, cat);
    SeedingPlaces(db, cat);
    WithRolesSays(db, cat);
    RolesStaySeeded(WithRoles(db, cat), before, AllValues(cat.apis), cat.roles);
    var s := SeededValueIsSystem(WithRoles(db, cat), cat.apis, RECOVERY_SCOPE);
    AdministratorHoldsRecovery(before, cat, s);
    NewAdministratorIsOne(before, cat.email, s);
    assert done.scopes == before.scopes;
  }

  /** And so after any serial run of requests from there. */
  lemma NobodyIsLockedOutOfASeededDeployment(rules: Rules, db: Db, cat: Catalogue, run: seq<Request>)
    requires Sound(db) && Consistent(cat) && GivesRecovery(cat)
    requires Seed(db, cat).Success? && Seed(db, cat).value.password
    ensures AdministratorsRemaining(Replay(rules, Seed(db, cat).value.db, run)) >= 1
  {
    SeededDeploymentIsRecoverable(db, cat);
    NobodyIsLockedOut(rules, Seed(db, cat).value.db, run);
  }
}
