/** What a run of the seed leaves, row by row. */
module SeededRows {
  import opened Results
  import opened Directory
  import opened Seeding

  // ---- In plain rows ----

  /** Some API of the catalogue has a scope of this value. */
  ghost predicate Listed(cat: Catalogue, value: string) {
    exists j, k :: 0 <= j < |cat.apis| && 0 <= k < |cat.apis[j].scopes| && cat.apis[j].scopes[k].value == value
  }

  ghost predicate ScopeRow(after: Db, api: Id, spec: ScopeSpec, s: Id) {
    s in after.scopes && after.scopes[s] == Scope(api, spec.value, spec.description, true)
  }

  ghost predicate ApiRow(after: Db, spec: ApiSpec, i: Id) {
    && i in after.apis && after.apis[i] == Api(spec.name, spec.audience, spec.description, true)
    && forall m :: 0 <= m < |spec.scopes| ==> HasScopeRow(after, i, spec.scopes[m])
  }

  ghost predicate HasScopeRow(after: Db, api: Id, spec: ScopeSpec) {
    exists s :: ScopeRow(after, api, spec, s)
  }

  ghost predicate HasApiRow(after: Db, spec: ApiSpec) {
    exists i :: ApiRow(after, spec, i)
  }

  /** A system role, and exactly the listed scopes it names. */
  ghost predicate RoleRow(after: Db, cat: Catalogue, spec: RoleSpec, r: Id) {
    && r in after.roles && after.roles[r] == Role(spec.name, spec.description, true)
    && forall s: Id :: (r, s) in after.roleScopes <==> IsBundled(after, cat, spec, s)
  }

  ghost predicate HasRoleRow(after: Db, cat: Catalogue, spec: RoleSpec) {
    exists r :: RoleRow(after, cat, spec, r)
  }

  ghost predicate IsBundled(after: Db, cat: Catalogue, spec: RoleSpec, s: Id) {
    s in after.scopes && after.scopes[s].value in spec.scopes && Listed(cat, after.scopes[s].value)
  }

  /** The client; one that was there keeps its redirect URIs and its secret, and a new one gets the
    * catalogue's, and a secret where it can keep one. */
  ghost predicate ClientRow(before: Db, after: Db, spec: ClientSpec, c: Id) {
    && c in after.clients
    && var row := after.clients[c];
       && row.clientId == spec.clientId && row.name == spec.name && row.clientType == spec.clientType
       && row.allowedGrants == spec.grants && row.skipConsent == spec.skipConsent && row.isSystem
       && if c in before.clients
          then row.redirectUris == before.clients[c].redirectUris && row.hasSecret == before.clients[c].hasSecret
          else row.redirectUris == spec.redirectUris && row.hasSecret == (spec.clientType == Confidential)
  }

  /** A listed scope that the client's specification names, to be asked for or held, is linked so;
    * every other link is as it was. */
  ghost predicate ClientLinks(before: Db, after: Db, cat: Catalogue, c: Id) {
    && (forall s :: s in after.scopes && IsLinked(after, cat, s) ==>
          && (c, s) in after.clientScopes
          && after.clientScopes[(c, s)] == Link(after.scopes[s].value in cat.client.grantable,
                                                after.scopes[s].value in cat.client.granted))
    && (forall p: (Id, Id) :: !(p.0 == c && p.1 in after.scopes && IsLinked(after, cat, p.1)) ==>
          && (p in after.clientScopes <==> p in before.clientScopes)
          && (p in before.clientScopes && p in after.clientScopes ==> after.clientScopes[p] == before.clientScopes[p]))
  }

  ghost predicate IsLinked(after: Db, cat: Catalogue, s: Id)
    requires s in after.scopes
  {
    var value := after.scopes[s].value;
    (value in cat.client.grantable || value in cat.client.granted) && Listed(cat, value)
  }

  ghost predicate HasEmail(db: Db, email: string) {
    exists u :: u in db.users && db.users[u].email == email
  }

  ghost predicate HasClient(db: Db, clientId: string) {
    exists c :: c in db.clients && db.clients[c].clientId == clientId
  }

  /** A new administrator, who holds the administrator role and nothing else is given to anybody. */
  ghost predicate NewAdministrator(before: Db, after: Db, email: string, u: Id) {
    && u !in before.users && after.users == before.users[u := User(email, "admin", true)]
    && forall p :: p in after.userRoles
              <==> p in before.userRoles || (p.0 == u && p.1 in after.roles && after.roles[p.1].name == "administrator")
  }

  // ---- It is so ----

  lemma ListedExactly(cat: Catalogue, value: string)
    ensures Listed(cat, value) <==> value in AllValues(cat.apis)
  {
    if value in AllValues(cat.apis) {
      var spec, scope :| spec in cat.apis && scope in spec.scopes && scope.value == value;
      var j :| 0 <= j < |cat.apis| && cat.apis[j] == spec;
      var k :| 0 <= k < |spec.scopes| && spec.scopes[k] == scope;
      assert cat.apis[j].scopes[k].value == value;
    }
  }

  lemma ApisAreThere(after: Db, cat: Catalogue, k: nat)
    requires ApisSeeded(after, cat.apis) && k < |cat.apis|
    ensures HasApiRow(after, cat.apis[k])
  {
    assert ApiSeeded(after, cat.apis[k]);
    var i: Id :| ApiSeededAt(after, cat.apis[k], i);
    forall m | 0 <= m < |cat.apis[k].scopes| ensures HasScopeRow(after, i, cat.apis[k].scopes[m]) {
      assert ScopeSeeded(after, i, cat.apis[k].scopes[m]);
      var s: Id :| ScopeSeededAt(after, i, cat.apis[k].scopes[m], s);
      assert ScopeRow(after, i, cat.apis[k].scopes[m], s);
    }
    assert ApiRow(after, cat.apis[k], i);
  }

  lemma RolesBundleWhatTheyName(after: Db, cat: Catalogue, k: nat)
    requires RolesSeeded(after, AllValues(cat.apis), cat.roles) && k < |cat.roles|
    ensures HasRoleRow(after, cat, cat.roles[k])
  {
    SeededRolesBundle(after, AllValues(cat.apis), cat.roles);
    assert IsBundledIn(after, AllValues(cat.apis), cat.roles[k]);
    var r: Id :| Bundles(after, AllValues(cat.apis), cat.roles[k], r);
    forall s: Id ensures (r, s) in after.roleScopes <==> IsBundled(after, cat, cat.roles[k], s) {
      if s in after.scopes {
        ListedExactly(cat, after.scopes[s].value);
      }
    }
    assert RoleRow(after, cat, cat.roles[k], r);
  }

  lemma WantedExactly(db: Db, cat: Catalogue, s: Id)
    ensures s in Wanted(db, AllValues(cat.apis), cat.client) <==> s in db.scopes && IsLinked(db, cat, s)
  {
    if s in db.scopes {
      ListedExactly(cat, db.scopes[s].value);
    }
  }

  lemma ClientIsThere(db: Db, cat: Catalogue) returns (c: Id)
    requires Integrity(db)
    ensures var after := UpsertClient(db, AllValues(cat.apis), cat.client);
            && ClientRow(db, after, cat.client, c) && ClientLinks(db, after, cat, c)
            && (c in db.clients <==> HasClient(db, cat.client.clientId))
            && (c in db.clients ==> db.clients[c].clientId == cat.client.clientId)
            && after.clients == db.clients[c := after.clients[c]]
    ensures MakesSecret(db, cat.client)
       <==> !HasClient(db, cat.client.clientId) && cat.client.clientType == Confidential
  {
    c := ClientAt(db, cat.client.clientId);
    ClientFoundOrNew(db, cat.client.clientId);
    forall s ensures s in Wanted(db, AllValues(cat.apis), cat.client) <==> s in db.scopes && IsLinked(db, cat, s) {
      WantedExactly(db, cat, s);
    }
  }

  lemma AdministratorIsThere(db: Db, email: string)
    requires Integrity(db) && RoleAt(db, ADMINISTRATOR) in db.roles && SeedAdmin(db, email).Success?
    ensures var after := SeedAdmin(db, email).value;
            if HasEmail(db, email) then after == db else NewAdministrator(db, after, email, db.next)
  {
    var role := RoleAt(db, ADMINISTRATOR);
    assert RoleIs(db, ADMINISTRATOR, role);
    forall r | RoleIs(db, ADMINISTRATOR, r) ensures r == role {
    }
  }

  /** What is not of the catalogue is as it was. */
  ghost predicate Elsewhere(before: Db, after: Db, cat: Catalogue) {
    && after.groups == before.groups && after.userScopes == before.userScopes
    && after.userGroups == before.userGroups && after.groupRoles == before.groupRoles
    && (forall i :: i in before.apis ==> i in after.apis)
    && (forall i :: i in after.apis && (forall k :: 0 <= k < |cat.apis| ==> after.apis[i].name != cat.apis[k].name) ==>
          i in before.apis && after.apis[i] == before.apis[i])
    && (forall s :: s in before.scopes ==> s in after.scopes)
    && (forall s :: s in after.scopes && !Listed(cat, after.scopes[s].value) ==>
          s in before.scopes && after.scopes[s] == before.scopes[s])
    && (forall r :: r in before.roles ==> r in after.roles)
    && (forall r :: r in after.roles && !IsNamed(cat, after.roles[r].name) ==>
          && r in before.roles && after.roles[r] == before.roles[r]
          && forall s :: (r, s) in after.roleScopes <==> (r, s) in before.roleScopes)
  }

  /** Some role of the catalogue has this name. */
  ghost predicate IsNamed(cat: Catalogue, name: string) {
    exists k :: 0 <= k < |cat.roles| && cat.roles[k].name == name
  }

  lemma CatalogueIsElsewhereAsBefore(db: Db, after: Db, cat: Catalogue)
    requires Spares(db, after, NamesOf(cat.apis), AllValues(cat.apis))
    ensures Elsewhere(db, after, cat)
  {
    forall i | i in after.apis && forall k :: 0 <= k < |cat.apis| ==> after.apis[i].name != cat.apis[k].name
      ensures i in db.apis && after.apis[i] == db.apis[i]
    {
      NotNamed(cat, after.apis[i].name);
    }
    forall s | s in after.scopes && !Listed(cat, after.scopes[s].value)
      ensures s in db.scopes && after.scopes[s] == db.scopes[s]
    {
      ListedExactly(cat, after.scopes[s].value);
    }
  }

  lemma NotNamed(cat: Catalogue, name: string)
    requires forall k :: 0 <= k < |cat.apis| ==> name != cat.apis[k].name
    ensures name !in NamesOf(cat.apis)
  {
  }

  lemma RolesAreElsewhereAsBefore(db: Db, catalogued: Db, after: Db, cat: Catalogue)
    requires Elsewhere(db, catalogued, cat) && catalogued.roles == db.roles && catalogued.roleScopes == db.roleScopes
    requires SparesRoles(catalogued, after, RoleNames(cat.roles))
    ensures Elsewhere(db, after, cat)
  {
    forall r | r in after.roles && !IsNamed(cat, after.roles[r].name)
      ensures r in db.roles && after.roles[r] == db.roles[r]
              && forall s: Id :: (r, s) in after.roleScopes <==> (r, s) in db.roleScopes
    {
      assert after.roles[r].name !in RoleNames(cat.roles);
      forall s: Id ensures (r, s) in after.roleScopes <==> (r, s) in db.roleScopes {
        assert (r, s) in after.roleScopes <==> s in Linked(after.roleScopes, r);
        assert (r, s) in db.roleScopes <==> s in Linked(db.roleScopes, r);
      }
    }
  }

  /** What a run leaves: the catalogue's APIs, scopes and roles, each role with exactly the listed
    * scopes it names; the client and its links; the administrator, newly made where nobody had the
    * email; everything else as it was; and which credentials it shows. */
  ghost predicate Leaves(db: Db, cat: Catalogue, run: Seeded) {
    && (forall k :: 0 <= k < |cat.apis| ==> HasApiRow(run.db, cat.apis[k]))
    && (forall k :: 0 <= k < |cat.roles| ==> HasRoleRow(run.db, cat, cat.roles[k]))
    && HasClientLeft(db, run.db, cat)
    && (run.secret <==> !HasClient(db, cat.client.clientId) && cat.client.clientType == Confidential)
    && AdministratorLeft(db, run.db, cat.email)
    && (run.password <==> !HasEmail(db, cat.email))
    && Elsewhere(db, run.db, cat)
  }

  ghost predicate AdministratorLeft(db: Db, after: Db, email: string) {
    if HasEmail(db, email) then after.users == db.users && after.userRoles == db.userRoles
    else exists u :: NewAdministrator(db, after, email, u)
  }

  ghost predicate HasClientLeft(db: Db, after: Db, cat: Catalogue) {
    exists c :: ClientLeft(db, after, cat, c)
  }

  ghost predicate ClientLeft(db: Db, after: Db, cat: Catalogue, c: Id) {
    && ClientRow(db, after, cat.client, c) && ClientLinks(db, after, cat, c)
    && (c in db.clients <==> HasClient(db, cat.client.clientId))
    && (c in db.clients ==> db.clients[c].clientId == cat.client.clientId)
    && after.clients == db.clients[c := after.clients[c]]
  }

  lemma ClientIsLeft(db: Db, roles: Db, withClient: Db, done: Db, cat: Catalogue)
    requires Integrity(roles) && withClient == UpsertClient(roles, AllValues(cat.apis), cat.client)
    requires roles.clients == db.clients && roles.clientScopes == db.clientScopes
    requires done.clients == withClient.clients && done.clientScopes == withClient.clientScopes
    requires done.scopes == roles.scopes
    ensures HasClientLeft(db, done, cat)
    ensures MakesSecret(roles, cat.client)
       <==> !HasClient(db, cat.client.clientId) && cat.client.clientType == Confidential
  {
    var c := ClientIsThere(roles, cat);
    assert withClient.scopes == roles.scopes;
    assert ClientLinks(db, done, cat, c);
    assert ClientRow(db, done, cat.client, c);
    assert ClientLeft(db, done, cat, c);
  }

  lemma AdministratorIsLeft(db: Db, before: Db, done: Db, cat: Catalogue)
    requires Integrity(before) && RoleAt(before, ADMINISTRATOR) in before.roles
    requires SeedAdmin(before, cat.email) == Success(done)
    requires before.users == db.users && before.userRoles == db.userRoles
    ensures AdministratorLeft(db, done, cat.email)
    ensures EmailUsed(before, cat.email) <==> HasEmail(db, cat.email)
  {
    AdministratorIsThere(before, cat.email);
    if !HasEmail(db, cat.email) {
      assert NewAdministrator(db, done, cat.email, before.next);
    }
  }

  /** How a run comes about: the catalogue, the roles, the client, and at last the administrator. */
  ghost predicate ComesAbout(db: Db, catalogued: Db, roles: Db, withClient: Db, run: Seeded, cat: Catalogue) {
    && Spares(db, catalogued, NamesOf(cat.apis), AllValues(cat.apis))
    && SparesRoles(catalogued, roles, RoleNames(cat.roles)) && Integrity(roles)
    && withClient == UpsertClient(roles, AllValues(cat.apis), cat.client) && Integrity(withClient)
    && RoleAt(withClient, ADMINISTRATOR) in withClient.roles
    && SeedAdmin(withClient, cat.email) == Success(run.db)
    && run.secret == MakesSecret(roles, cat.client) && run.password == !EmailUsed(withClient, cat.email)
  }

  /** The roles stand on the catalogue. */
  lemma RolesComeAbout(db: Db, cat: Catalogue)
    requires Integrity(db) && Consistent(cat) && SeedApis(db, cat.apis).Success?
    ensures var catalogued, roles := SeedApis(db, cat.apis).value, WithRoles(db, cat);
            && Spares(db, catalogued, NamesOf(cat.apis), AllValues(cat.apis))
            && SparesRoles(catalogued, roles, RoleNames(cat.roles)) && Integrity(roles)
            && RolesSeeded(roles, AllValues(cat.apis), cat.roles)
  {
    SeedApisSpare(db, cat.apis);
    SeedRolesSpare(SeedApis(db, cat.apis).value, AllValues(cat.apis), cat.roles);
    WithRolesSays(db, cat);
  }

  lemma RunsComeAbout(db: Db, cat: Catalogue)
    requires Integrity(db) && Consistent(cat) && Seed(db, cat).Success?
    ensures var roles := WithRoles(db, cat);
            ComesAbout(db, SeedApis(db, cat.apis).value, roles, UpsertClient(roles, AllValues(cat.apis), cat.client),
                       Seed(db, cat).value, cat)
  {
    var known, roles := AllValues(cat.apis), WithRoles(db, cat);
    RolesComeAbout(db, cat);
    UpsertClientKeepsIntegrity(roles, known, cat.client);
    AdministratorRoleStays(roles, UpsertClient(roles, known, cat.client), cat);
  }

  lemma WhatComesAboutIsLeft(db: Db, catalogued: Db, roles: Db, withClient: Db, run: Seeded, cat: Catalogue)
    requires ComesAbout(db, catalogued, roles, withClient, run, cat) && Says(run.db, cat)
    ensures Leaves(db, cat, run)
  {
    RowsAreThere(run.db, cat);
    ClientIsLeft(db, roles, withClient, run.db, cat);
    AdministratorIsLeft(db, withClient, run.db, cat);
    RestIsElsewhereAsBefore(db, catalogued, roles, run.db, cat);
  }

  /** A run of the seed leaves just that. */
  lemma SeedingLeaves(db: Db, cat: Catalogue)
    requires Integrity(db) && Consistent(cat) && Seed(db, cat).Success?
    ensures Leaves(db, cat, Seed(db, cat).value)
  {
    var roles := WithRoles(db, cat);
    SeedingSays(db, cat);
    RunsComeAbout(db, cat);
    WhatComesAboutIsLeft(db, SeedApis(db, cat.apis).value, roles,
                         UpsertClient(roles, AllValues(cat.apis), cat.client), Seed(db, cat).value, cat);
  }

  lemma RestIsElsewhereAsBefore(db: Db, catalogued: Db, roles: Db, done: Db, cat: Catalogue)
    requires Spares(db, catalogued, NamesOf(cat.apis), AllValues(cat.apis))
    requires SparesRoles(catalogued, roles, RoleNames(cat.roles))
    requires done == roles.(users := done.users, userRoles := done.userRoles, clients := done.clients,
                            clientScopes := done.clientScopes, next := done.next)
    ensures Elsewhere(db, done, cat)
  {
    CatalogueIsElsewhereAsBefore(db, catalogued, cat);
    RolesAreElsewhereAsBefore(db, catalogued, roles, cat);
  }

  lemma RowsAreThere(after: Db, cat: Catalogue)
    requires Says(after, cat)
    ensures forall k :: 0 <= k < |cat.apis| ==> HasApiRow(after, cat.apis[k])
    ensures forall k :: 0 <= k < |cat.roles| ==> HasRoleRow(after, cat, cat.roles[k])
  {
    forall k | 0 <= k < |cat.apis| ensures HasApiRow(after, cat.apis[k]) {
      ApisAreThere(after, cat, k);
    }
    forall k | 0 <= k < |cat.roles| ensures HasRoleRow(after, cat, cat.roles[k]) {
      RolesBundleWhatTheyName(after, cat, k);
    }
  }

  lemma AdministratorRoleStays(roles: Db, after: Db, cat: Catalogue)
    requires Integrity(roles) && Consistent(cat) && RolesSeeded(roles, AllValues(cat.apis), cat.roles)
    requires after.roles == roles.roles && after.roleScopes == roles.roleScopes && after.scopes == roles.scopes
    ensures RoleAt(after, ADMINISTRATOR) in after.roles
  {
    RolesStaySeeded(roles, after, AllValues(cat.apis), cat.roles);
    var k :| 0 <= k < |cat.roles| && cat.roles[k].name == ADMINISTRATOR;
    SeededRoleExists(after, AllValues(cat.apis), cat.roles, k);
  }
}
