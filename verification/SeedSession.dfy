/** The bootstrap as it runs: rows looked up, created and filled in, one session and one commit. */
module SeedSession {
  import opened Results
  import opened Directory
  import opened Seeding
  import opened SeededRows

  class Session {
    var db: Db

    constructor (db: Db)
      ensures this.db == db
    {
      this.db := db;
    }

    method WriteApi(spec: ApiSpec) returns (result: Result<Id, Conflict>)
      requires Integrity(db)
      modifies this
      ensures match UpsertApi(old(db), spec)
              case Failure(e) => result == Failure(e)
              case Success(after) => result == Success(ApiAt(old(db), spec.name)) && db == after
    {
      var at := db.next;
      if i: Id :| i in db.apis && db.apis[i].name == spec.name {
        assert ApiIs(db, spec.name, i);
        at := i;
      }
      assert at == ApiAt(db, spec.name);
      if j: Id :| j in db.apis && j != at && db.apis[j].audience == spec.audience {
        return Failure(AudienceTaken);
      }
      db := PutApi(db, at, ApiFrom(spec));
      result := Success(at);
    }

    method WriteScope(api: Id, spec: ScopeSpec) returns (result: Result<Id, Conflict>)
      requires Integrity(db)
      modifies this
      ensures match UpsertScope(old(db), api, spec)
              case Failure(e) => result == Failure(e)
              case Success(after) => result == Success(ScopeAt(old(db), api, spec.value)) && db == after
    {
      var at := db.next;
      if s: Id :| s in db.scopes && db.scopes[s].api == api && db.scopes[s].value == spec.value {
        assert ScopeIs(db, api, spec.value, s);
        at := s;
      }
      assert at == ScopeAt(db, api, spec.value);
      if t: Id :| t in db.scopes && t != at && db.scopes[t].value == spec.value {
        return Failure(ScopeTaken);
      }
      db := PutScope(db, at, ScopeFrom(api, spec));
      result := Success(at);
    }

    method WriteScopes(api: Id, specs: seq<ScopeSpec>) returns (failure: Option<Conflict>)
      requires Integrity(db) && api in db.apis
      modifies this
      ensures match UpsertScopes(old(db), api, specs)
              case Failure(e) => failure == Some(e)
              case Success(after) => failure.None? && db == after
    {
      for k := 0 to |specs|
        invariant UpsertScopes(old(db), api, specs[..k]) == Success(db) && Integrity(db) && db.apis == old(db).apis
      {
        UpsertScopesFailAlike(old(db), api, specs, k + 1);
        assert specs[..k + 1][..k] == specs[..k];
        ghost var before := db;
        var written := WriteScope(api, specs[k]);
        if written.Failure? {
          return Some(written.error);
        }
        UpsertScopeEffects(before, api, specs[k]);
      }
      assert specs[..|specs|] == specs;
      failure := None;
    }

    method SeedCatalogue(specs: seq<ApiSpec>) returns (result: Result<set<string>, Conflict>)
      requires Integrity(db) && DistinctSpecs(specs)
      modifies this
      ensures match SeedApis(old(db), specs)
              case Failure(e) => result == Failure(e)
              case Success(after) => result == Success(AllValues(specs)) && db == after
    {
      var known: set<string> := {};
      for k := 0 to |specs|
        invariant SeedApis(old(db), specs[..k]) == Success(db) && Integrity(db) && known == AllValues(specs[..k])
      {
        SeedApisFailAlike(old(db), specs, k + 1);
        assert specs[..k + 1][..k] == specs[..k];
        NamesOfMore(specs[..k + 1]);
        ghost var before := db;
        var written := WriteApi(specs[k]);
        if written.Failure? {
          return Failure(written.error);
        }
        UpsertApiEffects(before, specs[k]);
        var failure := WriteScopes(written.value, specs[k].scopes);
        if failure.Some? {
          return Failure(failure.value);
        }
        SeedApiEffects(before, specs[k]);
        known := known + ValuesOf(specs[k].scopes);
      }
      assert specs[..|specs|] == specs;
      result := Success(known);
    }

    method WriteRoles(known: set<string>, specs: seq<RoleSpec>)
      requires Integrity(db)
      modifies this
      ensures db == SeedRoles(old(db), known, specs)
      ensures DistinctRoles(specs) ==> AllBundled(db, known, specs)
    {
      ghost var before := db;
      for k := 0 to |specs|
        invariant db == SeedRoles(old(db), known, specs[..k]) && Integrity(db)
      {
        assert specs[..k + 1][..k] == specs[..k];
        UpsertRoleEffects(db, known, specs[k]);
        var at := db.next;
        if r: Id :| r in db.roles && db.roles[r].name == specs[k].name {
          assert RoleIs(db, specs[k].name, r);
          at := r;
        }
        assert at == RoleAt(db, specs[k].name);
        db := db.(roles := db.roles[at := Role(specs[k].name, specs[k].description, true)],
                  roleScopes := Relinked(db.roleScopes, at, ScopesFor(db, known, specs[k].scopes)),
                  next := Past(db.next, at));
      }
      assert specs[..|specs|] == specs;
      RolesAreBundled(before, known, specs);
    }

    method SeedClient(known: set<string>, spec: ClientSpec) returns (secret: bool)
      requires Integrity(db)
      modifies this
      ensures db == UpsertClient(old(db), known, spec) && secret == MakesSecret(old(db), spec)
    {
      ClientFoundOrNew(db, spec.clientId);
      var at, existing := db.next, None;
      if c: Id :| c in db.clients && db.clients[c].clientId == spec.clientId {
        at, existing := c, Some(db.clients[c]);
      }
      secret := existing.None? && spec.clientType.Confidential?;
      assert at == ClientAt(db, spec.clientId) && existing == OldClient(db, spec.clientId);
      db := db.(clients := db.clients[at := ClientFrom(existing, spec)],
                clientScopes := db.clientScopes + LinksFor(db, known, spec, at),
                next := Past(db.next, at));
    }

    method SeedAdminUser(email: string) returns (result: Result<bool, Conflict>)
      requires Integrity(db) && RoleAt(db, ADMINISTRATOR) in db.roles
      modifies this
      ensures match SeedAdmin(old(db), email)
              case Failure(e) => result == Failure(e)
              case Success(after) => result == Success(!EmailUsed(old(db), email)) && db == after
    {
      if EmailUsed(db, email) {
        return Success(false);
      }
      if UsernameUsed(db, ADMIN) {
        return Failure(UsernameTaken);
      }
      var role: Id :| role in db.roles && db.roles[role].name == ADMINISTRATOR;
      assert RoleIs(db, ADMINISTRATOR, role) && role == RoleAt(db, ADMINISTRATOR);
      db := db.(users := db.users[db.next := User(email, ADMIN, true)],
                userRoles := Relinked(db.userRoles, db.next, {role}),
                next := db.next + 1);
      result := Success(true);
    }

    /** One transaction: all of it, or none. */
    method Run(cat: Catalogue) returns (result: Result<(bool, bool), Conflict>)
      requires Integrity(db) && Consistent(cat)
      modifies this
      ensures match Seed(old(db), cat)
              case Failure(e) => result == Failure(e) && db == old(db)
              case Success(seeded) => result == Success((seeded.secret, seeded.password)) && db == seeded.db
      ensures result.Success? ==> Leaves(old(db), cat, Seeded(db, result.value.0, result.value.1))
    {
      var before := db;
      var catalogued := SeedCatalogue(cat.apis);
      if catalogued.Failure? {
        db := before;
        return Failure(catalogued.error);
      }
      SeedApisSpare(before, cat.apis);
      WriteRoles(catalogued.value, cat.roles);
      WithRolesSays(before, cat);
      ghost var roles := db;
      var secret := SeedClient(catalogued.value, cat.client);
      AdministratorStands(roles, db, cat);
      UpsertClientKeepsIntegrity(roles, catalogued.value, cat.client);
      var password := SeedAdminUser(cat.email);
      if password.Failure? {
        db := before;
        return Failure(password.error);
      }
      result := Success((secret, password.value));
      SeedingLeaves(before, cat);
    }
  }

  lemma RolesAreBundled(db: Db, known: set<string>, specs: seq<RoleSpec>)
    requires Integrity(db)
    ensures DistinctRoles(specs) ==> AllBundled(SeedRoles(db, known, specs), known, specs)
  {
    if DistinctRoles(specs) {
      SeedRolesSeed(db, known, specs);
      SeededRolesBundle(SeedRoles(db, known, specs), known, specs);
    }
  }

  lemma AdministratorStands(db: Db, after: Db, cat: Catalogue)
    requires Consistent(cat) && RolesSeeded(db, AllValues(cat.apis), cat.roles) && UniqueRoles(db.roles)
    requires after.roles == db.roles && after.roleScopes == db.roleScopes && after.scopes == db.scopes
    ensures RoleAt(after, ADMINISTRATOR) in after.roles
  {
    RolesStaySeeded(db, after, AllValues(cat.apis), cat.roles);
    var k :| 0 <= k < |cat.roles| && cat.roles[k].name == ADMINISTRATOR;
    SeededRoleExists(after, AllValues(cat.apis), cat.roles, k);
  }

  /** What fails once fails for good. */
  lemma {:induction false} UpsertScopesFailAlike(db: Db, api: Id, specs: seq<ScopeSpec>, k: nat)
    requires k <= |specs|
    ensures UpsertScopes(db, api, specs[..k]).Failure?
            ==> UpsertScopes(db, api, specs) == UpsertScopes(db, api, specs[..k])
  {
    if k < |specs| {
      assert specs[..|specs| - 1][..k] == specs[..k];
      UpsertScopesFailAlike(db, api, specs[..|specs| - 1], k);
    } else {
      assert specs[..k] == specs;
    }
  }

  lemma {:induction false} SeedApisFailAlike(db: Db, specs: seq<ApiSpec>, k: nat)
    requires k <= |specs|
    ensures SeedApis(db, specs[..k]).Failure? ==> SeedApis(db, specs) == SeedApis(db, specs[..k])
  {
    if k < |specs| {
      assert specs[..|specs| - 1][..k] == specs[..k];
      SeedApisFailAlike(db, specs[..|specs| - 1], k);
    } else {
      assert specs[..k] == specs;
    }
  }
}
