/** The idempotent bootstrap: the system catalogue, its roles, one client and one administrator. */
module Seeding {
  import opened Results
  import opened Directory

  datatype ScopeSpec = ScopeSpec(value: string, description: string)
  datatype ApiSpec = ApiSpec(name: string, audience: string, description: string, scopes: seq<ScopeSpec>)
  datatype RoleSpec = RoleSpec(name: string, description: string, scopes: seq<string>)
  datatype ClientSpec = ClientSpec(
    clientId: string, name: string, clientType: ClientType, grants: seq<string>,
    redirectUris: seq<string>, skipConsent: bool, grantable: seq<string>, granted: seq<string>)

  /** A unique key the database will not hold twice. */
  datatype Conflict = AudienceTaken | ScopeTaken | UsernameTaken

  // ---- Lookups ----

  ghost predicate ApiIs(db: Db, name: string, i: Id) {
    i in db.apis && db.apis[i].name == name
  }

  ghost predicate ScopeIs(db: Db, api: Id, value: string, s: Id) {
    s in db.scopes && db.scopes[s].api == api && db.scopes[s].value == value
  }

  ghost predicate RoleIs(db: Db, name: string, r: Id) {
    r in db.roles && db.roles[r].name == name
  }

  ghost predicate ClientIs(db: Db, clientId: string, c: Id) {
    c in db.clients && db.clients[c].clientId == clientId
  }

  /** The row's id, or the one it would be given. */
  ghost function ApiAt(db: Db, name: string): Id {
    if exists i: Id :: ApiIs(db, name, i) then var i: Id :| ApiIs(db, name, i); i else db.next
  }

  ghost function ScopeAt(db: Db, api: Id, value: string): Id {
    if exists s: Id :: ScopeIs(db, api, value, s) then var s: Id :| ScopeIs(db, api, value, s); s else db.next
  }

  ghost function RoleAt(db: Db, name: string): Id {
    if exists r: Id :: RoleIs(db, name, r) then var r: Id :| RoleIs(db, name, r); r else db.next
  }

  ghost function ClientAt(db: Db, clientId: string): Id {
    if exists c: Id :: ClientIs(db, clientId, c) then var c: Id :| ClientIs(db, clientId, c); c else db.next
  }

  function Past(next: Id, id: Id): Id {
    if id < next then next else id + 1
  }

  // ---- The catalogue ----

  function ApiFrom(spec: ApiSpec): Api {
    Api(spec.name, spec.audience, spec.description, true)
  }

  function ScopeFrom(api: Id, spec: ScopeSpec): Scope {
    Scope(api, spec.value, spec.description, true)
  }

  ghost predicate AudienceElsewhere(db: Db, audience: string, at: Id) {
    exists j :: j in db.apis && j != at && db.apis[j].audience == audience
  }

  ghost predicate ValueElsewhere(db: Db, value: string, at: Id) {
    exists s :: s in db.scopes && s != at && db.scopes[s].value == value
  }

  function PutApi(db: Db, at: Id, api: Api): Db {
    db.(apis := db.apis[at := api], next := Past(db.next, at))
  }

  function PutScope(db: Db, at: Id, scope: Scope): Db {
    db.(scopes := db.scopes[at := scope], next := Past(db.next, at))
  }

  ghost function UpsertApi(db: Db, spec: ApiSpec): Result<Db, Conflict> {
    var at := ApiAt(db, spec.name);
    if AudienceElsewhere(db, spec.audience, at) then Failure(AudienceTaken)
    else Success(PutApi(db, at, ApiFrom(spec)))
  }

  ghost function UpsertScope(db: Db, api: Id, spec: ScopeSpec): Result<Db, Conflict> {
    var at := ScopeAt(db, api, spec.value);
    if ValueElsewhere(db, spec.value, at) then Failure(ScopeTaken)
    else Success(PutScope(db, at, ScopeFrom(api, spec)))
  }

  ghost function UpsertScopes(db: Db, api: Id, specs: seq<ScopeSpec>): Result<Db, Conflict> {
    if specs == [] then Success(db)
    else
      var before :- UpsertScopes(db, api, specs[..|specs| - 1]);
      UpsertScope(before, api, specs[|specs| - 1])
  }

  ghost function SeedApi(db: Db, spec: ApiSpec): Result<Db, Conflict> {
    var with :- UpsertApi(db, spec);
    UpsertScopes(with, ApiAt(db, spec.name), spec.scopes)
  }

  ghost function SeedApis(db: Db, specs: seq<ApiSpec>): Result<Db, Conflict> {
    if specs == [] then Success(db)
    else
      var before :- SeedApis(db, specs[..|specs| - 1]);
      SeedApi(before, specs[|specs| - 1])
  }

  // ---- Already as the catalogue says ----

  ghost predicate ScopeSeededAt(db: Db, api: Id, spec: ScopeSpec, s: Id) {
    s in db.scopes && db.scopes[s] == ScopeFrom(api, spec)
  }

  ghost predicate ScopeSeeded(db: Db, api: Id, spec: ScopeSpec) {
    exists s :: ScopeSeededAt(db, api, spec, s)
  }

  ghost predicate ScopesSeeded(db: Db, api: Id, specs: seq<ScopeSpec>) {
    forall k :: 0 <= k < |specs| ==> ScopeSeeded(db, api, specs[k])
  }

  ghost predicate ApiSeededAt(db: Db, spec: ApiSpec, i: Id) {
    i in db.apis && db.apis[i] == ApiFrom(spec) && ScopesSeeded(db, i, spec.scopes)
  }

  ghost predicate ApiSeeded(db: Db, spec: ApiSpec) {
    exists i :: ApiSeededAt(db, spec, i)
  }

  ghost predicate ApisSeeded(db: Db, specs: seq<ApiSpec>) {
    forall k :: 0 <= k < |specs| ==> ApiSeeded(db, specs[k])
  }

  lemma SeededScopeStays(db: Db, api: Id, spec: ScopeSpec)
    requires UniqueScopes(db.scopes) && Issued(db.scopes.Keys, db.next) && ScopeSeeded(db, api, spec)
    ensures UpsertScope(db, api, spec) == Success(db)
  {
    var s: Id :| ScopeSeededAt(db, api, spec, s);
    assert ScopeIs(db, api, spec.value, s);
    assert db.scopes[s := ScopeFrom(api, spec)] == db.scopes;
  }

  lemma {:induction false} SeededScopesStay(db: Db, api: Id, specs: seq<ScopeSpec>)
    requires UniqueScopes(db.scopes) && Issued(db.scopes.Keys, db.next) && ScopesSeeded(db, api, specs)
    ensures UpsertScopes(db, api, specs) == Success(db)
  {
    if specs != [] {
      SeededScopesStay(db, api, specs[..|specs| - 1]);
      SeededScopeStays(db, api, specs[|specs| - 1]);
    }
  }

  lemma SeededApiStays(db: Db, spec: ApiSpec)
    requires UniqueKeys(db) && IdsIssued(db) && ApiSeeded(db, spec)
    ensures SeedApi(db, spec) == Success(db)
  {
    var i: Id :| ApiSeededAt(db, spec, i);
    assert ApiIs(db, spec.name, i);
    assert db.apis[i := ApiFrom(spec)] == db.apis;
    SeededScopesStay(db, i, spec.scopes);
  }

  lemma {:induction false} SeededApisStay(db: Db, specs: seq<ApiSpec>)
    requires UniqueKeys(db) && IdsIssued(db) && ApisSeeded(db, specs)
    ensures SeedApis(db, specs) == Success(db)
  {
    if specs != [] {
      SeededApisStay(db, specs[..|specs| - 1]);
      SeededApiStays(db, specs[|specs| - 1]);
    }
  }

  // ---- What seeding the catalogue does ----

  function ValuesOf(specs: seq<ScopeSpec>): (r: set<string>)
    ensures forall k :: 0 <= k < |specs| ==> specs[k].value in r
  {
    set spec | spec in specs :: spec.value
  }

  /** Rows of other names and values are as they were, and so is everything that is not of the catalogue. */
  ghost predicate Spares(db: Db, after: Db, names: set<string>, values: set<string>) {
    && after == db.(apis := after.apis, scopes := after.scopes, next := after.next)
    && (forall i :: i in db.apis ==> i in after.apis && after.apis[i].name == db.apis[i].name)
    && (forall i :: i in db.apis && db.apis[i].name !in names ==> after.apis[i] == db.apis[i])
    && (forall s :: s in db.scopes ==>
          && s in after.scopes && after.scopes[s].value == db.scopes[s].value && after.scopes[s].api == db.scopes[s].api
          && (db.scopes[s].value !in values ==> after.scopes[s] == db.scopes[s]))
    && (forall i :: i in after.apis ==> i in db.apis || after.apis[i].name in names)
    && (forall s :: s in after.scopes ==> s in db.scopes || after.scopes[s].value in values)
  }

  lemma SparesAgain(a: Db, b: Db, c: Db, names: set<string>, values: set<string>, more: set<string>,
                    others: set<string>)
    requires Spares(a, b, names, values) && Spares(b, c, more, others)
    ensures Spares(a, c, names + more, values + others)
  {
  }

  lemma UpsertScopeEffects(db: Db, api: Id, spec: ScopeSpec)
    requires Integrity(db) && api in db.apis && UpsertScope(db, api, spec).Success?
    ensures var after := UpsertScope(db, api, spec).value;
            && Integrity(after) && after.apis == db.apis
            && ScopeSeeded(after, api, spec) && Spares(db, after, {}, {spec.value})
  {
    var after := UpsertScope(db, api, spec).value;
    assert ScopeSeededAt(after, api, spec, ScopeAt(db, api, spec.value));
  }

  lemma SparedScopeStaysSeeded(db: Db, after: Db, names: set<string>, values: set<string>, api: Id, spec: ScopeSpec)
    requires Spares(db, after, names, values) && ScopeSeeded(db, api, spec) && spec.value !in values
    ensures ScopeSeeded(after, api, spec)
  {
    var s :| ScopeSeededAt(db, api, spec, s);
    assert ScopeSeededAt(after, api, spec, s);
  }

  ghost predicate DistinctScopes(specs: seq<ScopeSpec>) {
    forall j, k :: 0 <= j < k < |specs| ==> specs[j].value != specs[k].value
  }

  lemma ValuesOfMore(specs: seq<ScopeSpec>)
    requires specs != []
    ensures ValuesOf(specs) == ValuesOf(specs[..|specs| - 1]) + {specs[|specs| - 1].value}
  {
    assert specs == specs[..|specs| - 1] + [specs[|specs| - 1]];
  }

  lemma {:induction false} UpsertScopesSpare(db: Db, api: Id, specs: seq<ScopeSpec>)
    requires Integrity(db) && api in db.apis && UpsertScopes(db, api, specs).Success?
    ensures var after := UpsertScopes(db, api, specs).value;
            Integrity(after) && after.apis == db.apis && Spares(db, after, {}, ValuesOf(specs))
  {
    if specs != [] {
      var n := |specs| - 1;
      var before := UpsertScopes(db, api, specs[..n]).value;
      UpsertScopesSpare(db, api, specs[..n]);
      UpsertScopeEffects(before, api, specs[n]);
      SparesAgain(db, before, UpsertScopes(db, api, specs).value, {}, ValuesOf(specs[..n]), {}, {specs[n].value});
      ValuesOfMore(specs);
    }
  }

  lemma OneMoreScopeSeeded(db: Db, after: Db, api: Id, specs: seq<ScopeSpec>)
    requires specs != [] && DistinctScopes(specs)
    requires var n := |specs| - 1;
             && ScopesSeeded(db, api, specs[..n]) && ScopeSeeded(after, api, specs[n])
             && Spares(db, after, {}, {specs[n].value})
    ensures ScopesSeeded(after, api, specs)
  {
    var n := |specs| - 1;
    forall k | 0 <= k < n ensures ScopeSeeded(after, api, specs[k]) {
      assert specs[..n][k] == specs[k];
      SparedScopeStaysSeeded(db, after, {}, {specs[n].value}, api, specs[k]);
    }
  }

  lemma {:induction false} UpsertScopesSeed(db: Db, api: Id, specs: seq<ScopeSpec>)
    requires Integrity(db) && api in db.apis && UpsertScopes(db, api, specs).Success? && DistinctScopes(specs)
    ensures ScopesSeeded(UpsertScopes(db, api, specs).value, api, specs)
  {
    if specs != [] {
      var n := |specs| - 1;
      var before := UpsertScopes(db, api, specs[..n]).value;
      UpsertScopesSeed(db, api, specs[..n]);
      UpsertScopesSpare(db, api, specs[..n]);
      UpsertScopeEffects(before, api, specs[n]);
      OneMoreScopeSeeded(before, UpsertScopes(db, api, specs).value, api, specs);
    }
  }

  lemma PutApiKeepsUnique(apis: map<Id, Api>, at: Id, api: Api)
    requires UniqueApis(apis)
    requires forall j :: j in apis && j != at ==> apis[j].name != api.name && apis[j].audience != api.audience
    ensures UniqueApis(apis[at := api])
  {
  }

  lemma NoOtherOfThatName(db: Db, name: string)
    requires UniqueApis(db.apis)
    ensures forall j :: j in db.apis && j != ApiAt(db, name) ==> db.apis[j].name != name
    ensures ApiAt(db, name) in db.apis ==> ApiIs(db, name, ApiAt(db, name)) || ApiAt(db, name) == db.next
  {
    forall j | ApiIs(db, name, j) ensures j == ApiAt(db, name) {
    }
    forall j | j in db.apis && j != ApiAt(db, name) ensures db.apis[j].name != name {
      assert db.apis[j].name == name ==> ApiIs(db, name, j);
    }
  }

  lemma UpsertApiEffects(db: Db, spec: ApiSpec)
    requires Integrity(db) && UpsertApi(db, spec).Success?
    ensures var after, at := UpsertApi(db, spec).value, ApiAt(db, spec.name);
            && Integrity(after) && after.scopes == db.scopes
            && at in after.apis && after.apis[at] == ApiFrom(spec) && Spares(db, after, {spec.name}, {})
  {
    NoOtherOfThatName(db, spec.name);
    PutApiKeepsUnique(db.apis, ApiAt(db, spec.name), ApiFrom(spec));
  }

  lemma SeedApiEffects(db: Db, spec: ApiSpec)
    requires Integrity(db) && SeedApi(db, spec).Success? && DistinctScopes(spec.scopes)
    ensures var after := SeedApi(db, spec).value;
            Integrity(after) && ApiSeeded(after, spec) && Spares(db, after, {spec.name}, ValuesOf(spec.scopes))
  {
    var with, at, after := UpsertApi(db, spec).value, ApiAt(db, spec.name), SeedApi(db, spec).value;
    UpsertApiEffects(db, spec);
    UpsertScopesSpare(with, at, spec.scopes);
    UpsertScopesSeed(with, at, spec.scopes);
    SparesAgain(db, with, after, {spec.name}, {}, {}, ValuesOf(spec.scopes));
    assert {spec.name} + {} == {spec.name} && {} + ValuesOf(spec.scopes) == ValuesOf(spec.scopes);
    assert ApiSeededAt(after, spec, at);
  }

  lemma SparedApiStaysSeeded(db: Db, after: Db, names: set<string>, values: set<string>, spec: ApiSpec)
    requires Spares(db, after, names, values) && ApiSeeded(db, spec)
    requires spec.name !in names && forall k :: 0 <= k < |spec.scopes| ==> spec.scopes[k].value !in values
    ensures ApiSeeded(after, spec)
  {
    var i :| ApiSeededAt(db, spec, i);
    forall k | 0 <= k < |spec.scopes| ensures ScopeSeeded(after, i, spec.scopes[k]) {
      SparedScopeStaysSeeded(db, after, names, values, i, spec.scopes[k]);
    }
    assert ApiSeededAt(after, spec, i);
  }

  function NamesOf(specs: seq<ApiSpec>): set<string> {
    set spec | spec in specs :: spec.name
  }

  function AllValues(specs: seq<ApiSpec>): set<string> {
    set spec, scope | spec in specs && scope in spec.scopes :: scope.value
  }

  /** No two specs of the catalogue claim one name or value. */
  ghost predicate DistinctSpecs(specs: seq<ApiSpec>) {
    && (forall k :: 0 <= k < |specs| ==> DistinctScopes(specs[k].scopes))
    && (forall j, k :: 0 <= j < k < |specs| ==>
          specs[j].name != specs[k].name && ValuesOf(specs[j].scopes) !! ValuesOf(specs[k].scopes))
  }

  lemma NamesOfMore(specs: seq<ApiSpec>)
    requires specs != []
    ensures var n := |specs| - 1;
            && NamesOf(specs) == NamesOf(specs[..n]) + {specs[n].name}
            && AllValues(specs) == AllValues(specs[..n]) + ValuesOf(specs[n].scopes)
  {
    assert specs == specs[..|specs| - 1] + [specs[|specs| - 1]];
  }

  lemma {:induction false} SeedApisSpare(db: Db, specs: seq<ApiSpec>)
    requires Integrity(db) && SeedApis(db, specs).Success? && DistinctSpecs(specs)
    ensures var after := SeedApis(db, specs).value;
            Integrity(after) && Spares(db, after, NamesOf(specs), AllValues(specs))
  {
    if specs != [] {
      var n := |specs| - 1;
      var before, after := SeedApis(db, specs[..n]).value, SeedApis(db, specs).value;
      SeedApisSpare(db, specs[..n]);
      SeedApiEffects(before, specs[n]);
      NamesOfMore(specs);
      SparesAgain(db, before, after, NamesOf(specs[..n]), AllValues(specs[..n]), {specs[n].name},
                  ValuesOf(specs[n].scopes));
    }
  }

  lemma OneMoreApiSeeded(db: Db, after: Db, specs: seq<ApiSpec>)
    requires specs != [] && DistinctSpecs(specs)
    requires var n := |specs| - 1;
             && ApisSeeded(db, specs[..n]) && ApiSeeded(after, specs[n])
             && Spares(db, after, {specs[n].name}, ValuesOf(specs[n].scopes))
    ensures ApisSeeded(after, specs)
  {
    var n := |specs| - 1;
    forall k | 0 <= k < n ensures ApiSeeded(after, specs[k]) {
      assert specs[..n][k] == specs[k];
      SparedApiStaysSeeded(db, after, {specs[n].name}, ValuesOf(specs[n].scopes), specs[k]);
    }
  }

  /** Where it succeeds, the database says what the catalogue says. */
  lemma {:induction false} SeedApisSeed(db: Db, specs: seq<ApiSpec>)
    requires Integrity(db) && SeedApis(db, specs).Success? && DistinctSpecs(specs)
    ensures ApisSeeded(SeedApis(db, specs).value, specs)
  {
    if specs != [] {
      var n := |specs| - 1;
      var before := SeedApis(db, specs[..n]).value;
      SeedApisSeed(db, specs[..n]);
      SeedApisSpare(db, specs[..n]);
      SeedApiEffects(before, specs[n]);
      OneMoreApiSeeded(before, SeedApis(db, specs).value, specs);
    }
  }

  // ---- When it succeeds ----

  /** Each of these values is free, or this API's already. */
  ghost predicate ScopesFree(db: Db, api: Id, specs: seq<ScopeSpec>) {
    forall s, k :: s in db.scopes && 0 <= k < |specs| && db.scopes[s].value == specs[k].value
        ==> db.scopes[s].api == api
  }

  lemma UpsertScopeSucceeds(db: Db, api: Id, spec: ScopeSpec)
    requires UniqueScopes(db.scopes) && Issued(db.scopes.Keys, db.next)
    ensures UpsertScope(db, api, spec).Success?
       <==> forall s :: s in db.scopes && db.scopes[s].value == spec.value ==> db.scopes[s].api == api
  {
    forall s | s in db.scopes && db.scopes[s].value == spec.value && db.scopes[s].api == api
      ensures s == ScopeAt(db, api, spec.value)
    {
      assert ScopeIs(db, api, spec.value, s);
    }
  }

  lemma SameRowsOfValue(db: Db, before: Db, values: set<string>, api: Id, value: string)
    requires Spares(db, before, {}, values) && value !in values
    ensures (forall s :: s in before.scopes && before.scopes[s].value == value ==> before.scopes[s].api == api)
       <==> (forall s :: s in db.scopes && db.scopes[s].value == value ==> db.scopes[s].api == api)
  {
    if s :| s in db.scopes && db.scopes[s].value == value && db.scopes[s].api != api {
      assert before.scopes[s] == db.scopes[s];
    }
  }

  lemma OneMoreScopeFree(db: Db, before: Db, api: Id, specs: seq<ScopeSpec>)
    requires specs != [] && DistinctScopes(specs)
    requires Spares(db, before, {}, ValuesOf(specs[..|specs| - 1])) && ScopesFree(db, api, specs[..|specs| - 1])
    ensures ScopesFree(db, api, specs)
       <==> forall s :: s in before.scopes && before.scopes[s].value == specs[|specs| - 1].value
              ==> before.scopes[s].api == api
  {
    var n := |specs| - 1;
    SameRowsOfValue(db, before, ValuesOf(specs[..n]), api, specs[n].value);
    forall s, k | s in db.scopes && 0 <= k < n && db.scopes[s].value == specs[k].value ensures db.scopes[s].api == api {
      assert specs[..n][k] == specs[k];
    }
  }

  lemma {:induction false} UpsertScopesSucceeds(db: Db, api: Id, specs: seq<ScopeSpec>)
    requires Integrity(db) && api in db.apis && DistinctScopes(specs)
    ensures UpsertScopes(db, api, specs).Success? <==> ScopesFree(db, api, specs)
  {
    if specs != [] {
      var n := |specs| - 1;
      UpsertScopesSucceeds(db, api, specs[..n]);
      if UpsertScopes(db, api, specs[..n]).Success? {
        var before := UpsertScopes(db, api, specs[..n]).value;
        UpsertScopesSpare(db, api, specs[..n]);
        UpsertScopeSucceeds(before, api, specs[n]);
        OneMoreScopeFree(db, before, api, specs);
      } else {
        var s, k :| s in db.scopes && 0 <= k < n && db.scopes[s].value == specs[..n][k].value
            && db.scopes[s].api != api;
        assert specs[..n][k] == specs[k];
      }
    }
  }

  /** An audience of the catalogue is free, or held by an API that has it already or will have
    * given it up by its turn. */
  ghost predicate AudienceFree(db: Db, specs: seq<ApiSpec>, k: nat)
    requires k < |specs|
  {
    forall j :: j in db.apis && db.apis[j].audience == specs[k].audience ==> db.apis[j].name in NamesOf(specs[..k + 1])
  }

  /** A system scope's value is free, or under its own API already. */
  ghost predicate ValuesFree(db: Db, spec: ApiSpec) {
    forall s :: s in db.scopes && db.scopes[s].value in ValuesOf(spec.scopes)
                ==> db.scopes[s].api in db.apis && db.apis[db.scopes[s].api].name == spec.name
  }

  ghost predicate Welcomes(db: Db, specs: seq<ApiSpec>) {
    forall k :: 0 <= k < |specs| ==> AudienceFree(db, specs, k) && ValuesFree(db, specs[k])
  }

  ghost predicate DistinctAudiences(specs: seq<ApiSpec>) {
    forall j, k :: 0 <= j < k < |specs| ==> specs[j].audience != specs[k].audience
  }

  lemma SeedApiSucceeds(db: Db, spec: ApiSpec)
    requires Integrity(db) && DistinctScopes(spec.scopes)
    ensures SeedApi(db, spec).Success?
       <==> (forall j :: j in db.apis && db.apis[j].audience == spec.audience ==> db.apis[j].name == spec.name)
            && ValuesFree(db, spec)
  {
    var at := ApiAt(db, spec.name);
    NoOtherOfThatName(db, spec.name);
    forall j | j in db.apis && db.apis[j].name == spec.name ensures j == at {
    }
    if UpsertApi(db, spec).Success? {
      UpsertApiEffects(db, spec);
      UpsertScopesSucceeds(UpsertApi(db, spec).value, at, spec.scopes);
      ScopesFreeMeansValuesFree(db, at, spec);
    }
  }

  lemma ScopesFreeMeansValuesFree(db: Db, at: Id, spec: ApiSpec)
    requires Integrity(db)
    requires forall j :: j in db.apis ==> (db.apis[j].name == spec.name <==> j == at)
    ensures ScopesFree(db, at, spec.scopes) <==> ValuesFree(db, spec)
  {
    if ScopesFree(db, at, spec.scopes) {
      forall s | s in db.scopes && db.scopes[s].value in ValuesOf(spec.scopes)
        ensures db.scopes[s].api in db.apis && db.apis[db.scopes[s].api].name == spec.name
      {
        var scope :| scope in spec.scopes && scope.value == db.scopes[s].value;
        var k :| 0 <= k < |spec.scopes| && spec.scopes[k] == scope;
        assert db.scopes[s].value == spec.scopes[k].value;
      }
    }
  }

  lemma AudienceAtItsTurn(db: Db, before: Db, specs: seq<ApiSpec>)
    requires specs != [] && DistinctSpecs(specs) && DistinctAudiences(specs) && UniqueKeys(before)
    requires var n := |specs| - 1;
             Spares(db, before, NamesOf(specs[..n]), AllValues(specs[..n])) && ApisSeeded(before, specs[..n])
    ensures AudienceFree(db, specs, |specs| - 1)
       <==> forall j :: j in before.apis && before.apis[j].audience == specs[|specs| - 1].audience
                        ==> before.apis[j].name == specs[|specs| - 1].name
  {
    var n := |specs| - 1;
    NamesOfMore(specs);
    assert specs[..n + 1] == specs;
    forall j | j in before.apis && before.apis[j].name in NamesOf(specs[..n])
      ensures before.apis[j].audience != specs[n].audience
    {
      EarlierAudience(before, specs, j);
    }
    if AudienceFree(db, specs, n) {
      forall j | j in before.apis && before.apis[j].audience == specs[n].audience
        ensures before.apis[j].name == specs[n].name
      {
        assert before.apis[j] == db.apis[j];
      }
    } else {
      var j :| j in db.apis && db.apis[j].audience == specs[n].audience && db.apis[j].name !in NamesOf(specs);
      assert before.apis[j] == db.apis[j];
    }
  }

  lemma EarlierAudience(before: Db, specs: seq<ApiSpec>, j: Id)
    requires specs != [] && DistinctAudiences(specs) && UniqueKeys(before) && ApisSeeded(before, specs[..|specs| - 1])
    requires j in before.apis && before.apis[j].name in NamesOf(specs[..|specs| - 1])
    ensures before.apis[j].audience != specs[|specs| - 1].audience
  {
    var n := |specs| - 1;
    var spec :| spec in specs[..n] && spec.name == before.apis[j].name;
    var k :| 0 <= k < n && specs[..n][k] == spec;
    assert ApiSeeded(before, specs[..n][k]) && specs[k] == spec;
    var i :| ApiSeededAt(before, spec, i);
  }

  lemma ValuesAtTheirTurn(db: Db, before: Db, specs: seq<ApiSpec>)
    requires specs != [] && DistinctSpecs(specs) && ForeignKeys(db)
    requires Spares(db, before, NamesOf(specs[..|specs| - 1]), AllValues(specs[..|specs| - 1]))
    ensures ValuesFree(before, specs[|specs| - 1]) <==> ValuesFree(db, specs[|specs| - 1])
  {
    var n := |specs| - 1;
    forall value | value in AllValues(specs[..n]) ensures value !in ValuesOf(specs[n].scopes) {
      var spec, scope :| spec in specs[..n] && scope in spec.scopes && scope.value == value;
      var k :| 0 <= k < n && specs[k] == spec;
      assert value in ValuesOf(specs[k].scopes);
    }
    if !ValuesFree(db, specs[n]) {
      var s :| s in db.scopes && db.scopes[s].value in ValuesOf(specs[n].scopes)
               && db.apis[db.scopes[s].api].name != specs[n].name;
      assert before.scopes[s] == db.scopes[s];
    }
  }

  lemma {:induction false} SeedApisSucceeds(db: Db, specs: seq<ApiSpec>)
    requires Integrity(db) && DistinctSpecs(specs) && DistinctAudiences(specs)
    ensures SeedApis(db, specs).Success? <==> Welcomes(db, specs)
  {
    if specs != [] {
      var n := |specs| - 1;
      SeedApisSucceeds(db, specs[..n]);
      WelcomesPrefix(db, specs);
      if SeedApis(db, specs[..n]).Success? {
        var before := SeedApis(db, specs[..n]).value;
        SeedApisSpare(db, specs[..n]);
        SeedApisSeed(db, specs[..n]);
        SeedApiSucceeds(before, specs[n]);
        AudienceAtItsTurn(db, before, specs);
        ValuesAtTheirTurn(db, before, specs);
      }
    }
  }

  lemma {:induction false} ScopesFailForScopes(db: Db, api: Id, specs: seq<ScopeSpec>)
    ensures UpsertScopes(db, api, specs).Failure? ==> UpsertScopes(db, api, specs) == Failure(ScopeTaken)
  {
    if specs != [] {
      ScopesFailForScopes(db, api, specs[..|specs| - 1]);
    }
  }

  lemma SeedApiFails(db: Db, spec: ApiSpec)
    requires Integrity(db) && DistinctScopes(spec.scopes) && SeedApi(db, spec).Failure?
    ensures match SeedApi(db, spec).error
            case AudienceTaken =>
              !forall j :: j in db.apis && db.apis[j].audience == spec.audience ==> db.apis[j].name == spec.name
            case ScopeTaken => !ValuesFree(db, spec)
            case UsernameTaken => false
  {
    SeedApiSucceeds(db, spec);
    NoOtherOfThatName(db, spec.name);
    if UpsertApi(db, spec).Success? {
      ScopesFailForScopes(UpsertApi(db, spec).value, ApiAt(db, spec.name), spec.scopes);
    }
  }

  /** Some audience or some value of the catalogue is another's: whichever the error says. */
  ghost predicate IsClaimed(db: Db, specs: seq<ApiSpec>, conflict: Conflict) {
    match conflict
    case AudienceTaken => exists k :: 0 <= k < |specs| && !AudienceFree(db, specs, k)
    case ScopeTaken => exists k :: 0 <= k < |specs| && !ValuesFree(db, specs[k])
    case UsernameTaken => false
  }

  lemma ClaimedInMore(db: Db, specs: seq<ApiSpec>, conflict: Conflict)
    requires specs != [] && IsClaimed(db, specs[..|specs| - 1], conflict)
    ensures IsClaimed(db, specs, conflict)
  {
    var n := |specs| - 1;
    if conflict.AudienceTaken? {
      var k :| 0 <= k < n && !AudienceFree(db, specs[..n], k);
      assert specs[..n][..k + 1] == specs[..k + 1];
      assert !AudienceFree(db, specs, k);
    } else {
      var k :| 0 <= k < n && !ValuesFree(db, specs[..n][k]);
      assert specs[..n][k] == specs[k];
    }
  }

  lemma {:induction false} SeedApisFail(db: Db, specs: seq<ApiSpec>)
    requires Integrity(db) && DistinctSpecs(specs) && DistinctAudiences(specs) && SeedApis(db, specs).Failure?
    ensures IsClaimed(db, specs, SeedApis(db, specs).error)
  {
    var n := |specs| - 1;
    if SeedApis(db, specs[..n]).Failure? {
      SeedApisFail(db, specs[..n]);
      ClaimedInMore(db, specs, SeedApis(db, specs).error);
    } else {
      var before := SeedApis(db, specs[..n]).value;
      SeedApisSpare(db, specs[..n]);
      SeedApisSeed(db, specs[..n]);
      SeedApiFails(before, specs[n]);
      AudienceAtItsTurn(db, before, specs);
      ValuesAtTheirTurn(db, before, specs);
    }
  }

  lemma WelcomesPrefix(db: Db, specs: seq<ApiSpec>)
    requires specs != []
    ensures var n := |specs| - 1;
            Welcomes(db, specs) <==> Welcomes(db, specs[..n]) && AudienceFree(db, specs, n) && ValuesFree(db, specs[n])
  {
    var n := |specs| - 1;
    forall k | 0 <= k < n ensures AudienceFree(db, specs[..n], k) <==> AudienceFree(db, specs, k) {
      assert specs[..n][..k + 1] == specs[..k + 1];
    }
    forall k | 0 <= k < n ensures specs[..n][k] == specs[k] {
    }
  }

  // ---- The roles ----

  function ScopesValued(db: Db, values: set<string>): set<Id> {
    set s | s in db.scopes && db.scopes[s].value in values
  }

  /** The ids of the role's scopes that the catalogue has. */
  function ScopesFor(db: Db, known: set<string>, values: seq<string>): set<Id> {
    ScopesValued(db, set value | value in values && value in known)
  }

  ghost function UpsertRole(db: Db, known: set<string>, spec: RoleSpec): Db {
    var at := RoleAt(db, spec.name);
    db.(roles := db.roles[at := Role(spec.name, spec.description, true)],
        roleScopes := Relinked(db.roleScopes, at, ScopesFor(db, known, spec.scopes)),
        next := Past(db.next, at))
  }

  ghost function SeedRoles(db: Db, known: set<string>, specs: seq<RoleSpec>): Db {
    if specs == [] then db else UpsertRole(SeedRoles(db, known, specs[..|specs| - 1]), known, specs[|specs| - 1])
  }

  ghost predicate RoleSeededAt(db: Db, known: set<string>, spec: RoleSpec, r: Id) {
    && r in db.roles && db.roles[r] == Role(spec.name, spec.description, true)
    && Linked(db.roleScopes, r) == ScopesFor(db, known, spec.scopes)
  }

  ghost predicate RoleSeeded(db: Db, known: set<string>, spec: RoleSpec) {
    exists r :: RoleSeededAt(db, known, spec, r)
  }

  ghost predicate RolesSeeded(db: Db, known: set<string>, specs: seq<RoleSpec>) {
    forall k :: 0 <= k < |specs| ==> RoleSeeded(db, known, specs[k])
  }

  lemma RelinkedAsLinked(r: set<(Id, Id)>, x: Id)
    ensures Relinked(r, x, Linked(r, x)) == r
  {
    forall p ensures p in Relinked(r, x, Linked(r, x)) <==> p in r {
      if p.0 == x {
        assert p == (x, p.1);
        assert p.1 in Linked(r, x) <==> p in r;
      }
    }
  }

  lemma {:induction false} SeededRolesStay(db: Db, known: set<string>, specs: seq<RoleSpec>)
    requires UniqueRoles(db.roles) && Issued(db.roles.Keys, db.next) && RolesSeeded(db, known, specs)
    ensures SeedRoles(db, known, specs) == db
  {
    if specs != [] {
      var spec := specs[|specs| - 1];
      SeededRolesStay(db, known, specs[..|specs| - 1]);
      assert RoleSeeded(db, known, spec);
      var r :| RoleSeededAt(db, known, spec, r);
      assert RoleIs(db, spec.name, r);
      assert db.roles[r := Role(spec.name, spec.description, true)] == db.roles;
      RelinkedAsLinked(db.roleScopes, r);
    }
  }

  /** Other roles, and everything but roles and what they bundle, are as they were. */
  ghost predicate SparesRoles(db: Db, after: Db, names: set<string>) {
    && after == db.(roles := after.roles, roleScopes := after.roleScopes, next := after.next)
    && db.next <= after.next
    && (forall r :: r in db.roles ==> r in after.roles && after.roles[r].name == db.roles[r].name)
    && (forall r :: r in after.roles ==> r in db.roles || after.roles[r].name in names)
    && (forall r :: r in db.roles && db.roles[r].name !in names ==>
          after.roles[r] == db.roles[r] && Linked(after.roleScopes, r) == Linked(db.roleScopes, r))
  }

  lemma SparesRolesAgain(a: Db, b: Db, c: Db, names: set<string>, more: set<string>)
    requires SparesRoles(a, b, names) && SparesRoles(b, c, more)
    ensures SparesRoles(a, c, names + more)
  {
  }

  lemma RoleReferences(db: Db, at: Id, scopes: set<Id>)
    requires Refers(db.roleScopes, db.roles.Keys, db.scopes.Keys) && scopes <= db.scopes.Keys
    ensures Refers(Relinked(db.roleScopes, at, scopes), db.roles.Keys + {at}, db.scopes.Keys)
  {
  }

  lemma UpsertRoleEffects(db: Db, known: set<string>, spec: RoleSpec)
    requires Integrity(db)
    ensures var after := UpsertRole(db, known, spec);
            Integrity(after) && RoleSeeded(after, known, spec) && SparesRoles(db, after, {spec.name})
  {
    var at, after := RoleAt(db, spec.name), UpsertRole(db, known, spec);
    RoleReferences(db, at, ScopesFor(db, known, spec.scopes));
    forall r | r in db.roles && db.roles[r].name == spec.name ensures r == at {
      assert RoleIs(db, spec.name, r);
    }
    forall r
      ensures Linked(after.roleScopes, r)
           == if r == at then ScopesFor(db, known, spec.scopes) else Linked(db.roleScopes, r)
    {
      LinkedAfterRelinking(db.roleScopes, at, ScopesFor(db, known, spec.scopes), r);
    }
    assert RoleSeededAt(after, known, spec, at);
  }

  ghost predicate DistinctRoles(specs: seq<RoleSpec>) {
    forall j, k :: 0 <= j < k < |specs| ==> specs[j].name != specs[k].name
  }

  function RoleNames(specs: seq<RoleSpec>): set<string> {
    set spec | spec in specs :: spec.name
  }

  lemma SparedRoleStaysSeeded(db: Db, after: Db, names: set<string>, known: set<string>, spec: RoleSpec)
    requires SparesRoles(db, after, names) && RoleSeeded(db, known, spec) && spec.name !in names
    ensures RoleSeeded(after, known, spec)
  {
    var r :| RoleSeededAt(db, known, spec, r);
    assert RoleSeededAt(after, known, spec, r);
  }

  lemma RoleNamesOfMore(specs: seq<RoleSpec>)
    requires specs != []
    ensures RoleNames(specs) == RoleNames(specs[..|specs| - 1]) + {specs[|specs| - 1].name}
  {
    assert specs == specs[..|specs| - 1] + [specs[|specs| - 1]];
  }

  lemma {:induction false} SeedRolesSpare(db: Db, known: set<string>, specs: seq<RoleSpec>)
    requires Integrity(db)
    ensures Integrity(SeedRoles(db, known, specs)) && SparesRoles(db, SeedRoles(db, known, specs), RoleNames(specs))
  {
    if specs != [] {
      var n := |specs| - 1;
      var before := SeedRoles(db, known, specs[..n]);
      SeedRolesSpare(db, known, specs[..n]);
      UpsertRoleEffects(before, known, specs[n]);
      SparesRolesAgain(db, before, SeedRoles(db, known, specs), RoleNames(specs[..n]), {specs[n].name});
      RoleNamesOfMore(specs);
    }
  }

  lemma OneMoreRoleSeeded(db: Db, after: Db, known: set<string>, specs: seq<RoleSpec>)
    requires specs != [] && DistinctRoles(specs)
    requires var n := |specs| - 1;
             && RolesSeeded(db, known, specs[..n]) && RoleSeeded(after, known, specs[n])
             && SparesRoles(db, after, {specs[n].name})
    ensures RolesSeeded(after, known, specs)
  {
    var n := |specs| - 1;
    forall k | 0 <= k < n ensures RoleSeeded(after, known, specs[k]) {
      assert specs[..n][k] == specs[k];
      SparedRoleStaysSeeded(db, after, {specs[n].name}, known, specs[k]);
    }
  }

  lemma {:induction false} SeedRolesSeed(db: Db, known: set<string>, specs: seq<RoleSpec>)
    requires Integrity(db) && DistinctRoles(specs)
    ensures RolesSeeded(SeedRoles(db, known, specs), known, specs)
  {
    if specs != [] {
      var n := |specs| - 1;
      var before := SeedRoles(db, known, specs[..n]);
      SeedRolesSeed(db, known, specs[..n]);
      SeedRolesSpare(db, known, specs[..n]);
      UpsertRoleEffects(before, known, specs[n]);
      OneMoreRoleSeeded(before, SeedRoles(db, known, specs), known, specs);
    }
  }

  /** This system role holds exactly the known scopes it names. */
  ghost predicate Bundles(db: Db, known: set<string>, spec: RoleSpec, r: Id) {
    && r in db.roles && db.roles[r] == Role(spec.name, spec.description, true)
    && forall s: Id :: (r, s) in db.roleScopes
                  <==> s in db.scopes && db.scopes[s].value in spec.scopes && db.scopes[s].value in known
  }

  ghost predicate AllBundled(db: Db, known: set<string>, specs: seq<RoleSpec>) {
    forall k :: 0 <= k < |specs| ==> IsBundledIn(db, known, specs[k])
  }

  ghost predicate IsBundledIn(db: Db, known: set<string>, spec: RoleSpec) {
    exists r: Id :: Bundles(db, known, spec, r)
  }

  lemma SeededRolesBundle(db: Db, known: set<string>, specs: seq<RoleSpec>)
    requires RolesSeeded(db, known, specs)
    ensures AllBundled(db, known, specs)
  {
    forall k | 0 <= k < |specs| ensures IsBundledIn(db, known, specs[k]) {
      assert RoleSeeded(db, known, specs[k]);
      var r: Id :| RoleSeededAt(db, known, specs[k], r);
      forall s: Id ensures (r, s) in db.roleScopes <==> s in ScopesFor(db, known, specs[k].scopes) {
        assert (r, s) in db.roleScopes <==> s in Linked(db.roleScopes, r);
      }
      assert Bundles(db, known, specs[k], r);
    }
  }

  // ---- The client ----

  function Wanted(db: Db, known: set<string>, spec: ClientSpec): set<Id> {
    ScopesFor(db, known, spec.grantable + spec.granted)
  }

  function LinkFor(db: Db, spec: ClientSpec, s: Id): Link
    requires s in db.scopes
  {
    Link(db.scopes[s].value in spec.grantable, db.scopes[s].value in spec.granted)
  }

  function LinksFor(db: Db, known: set<string>, spec: ClientSpec, client: Id): (r: map<(Id, Id), Link>)
    ensures forall p :: p in r ==> p.0 == client && p.1 in Wanted(db, known, spec) && r[p] == LinkFor(db, spec, p.1)
    ensures forall s :: s in Wanted(db, known, spec) ==> (client, s) in r
  {
    map s | s in Wanted(db, known, spec) :: (client, s) := LinkFor(db, spec, s)
  }

  /** A new client gets its redirect URIs and, where it can keep one, a secret; one that exists
    * keeps its own. */
  function ClientFrom(existing: Option<Client>, spec: ClientSpec): Client {
    match existing
    case None =>
      Client(spec.clientId, spec.name, spec.clientType, spec.clientType.Confidential?, spec.redirectUris,
             spec.grants, spec.skipConsent, true)
    case Some(c) =>
      c.(name := spec.name, clientType := spec.clientType, allowedGrants := spec.grants,
         skipConsent := spec.skipConsent, isSystem := true)
  }

  ghost function OldClient(db: Db, clientId: string): Option<Client> {
    if exists c :: ClientIs(db, clientId, c) then
      var at := ClientAt(db, clientId);
      if at in db.clients then Some(db.clients[at]) else None
    else None
  }

  ghost function UpsertClient(db: Db, known: set<string>, spec: ClientSpec): Db {
    var at := ClientAt(db, spec.clientId);
    db.(clients := db.clients[at := ClientFrom(OldClient(db, spec.clientId), spec)],
        clientScopes := db.clientScopes + LinksFor(db, known, spec, at),
        next := Past(db.next, at))
  }

  /** Whether a secret was made, to be shown once. */
  ghost function MakesSecret(db: Db, spec: ClientSpec): bool {
    OldClient(db, spec.clientId).None? && spec.clientType.Confidential?
  }

  ghost predicate ClientSeededAt(db: Db, known: set<string>, spec: ClientSpec, c: Id) {
    && ClientIs(db, spec.clientId, c) && db.clients[c] == ClientFrom(Some(db.clients[c]), spec)
    && forall s :: s in Wanted(db, known, spec) ==>
         (c, s) in db.clientScopes && db.clientScopes[(c, s)] == LinkFor(db, spec, s)
  }

  ghost predicate ClientSeeded(db: Db, known: set<string>, spec: ClientSpec) {
    exists c :: ClientSeededAt(db, known, spec, c)
  }

  lemma SeededLinksStay(db: Db, known: set<string>, spec: ClientSpec, c: Id)
    requires ClientSeededAt(db, known, spec, c)
    ensures db.clientScopes + LinksFor(db, known, spec, c) == db.clientScopes
  {
  }

  lemma SeededClientStays(db: Db, known: set<string>, spec: ClientSpec)
    requires UniqueClients(db.clients) && Issued(db.clients.Keys, db.next) && ClientSeeded(db, known, spec)
    ensures UpsertClient(db, known, spec) == db && !MakesSecret(db, spec)
  {
    var c :| ClientSeededAt(db, known, spec, c);
    assert ClientAt(db, spec.clientId) == c && OldClient(db, spec.clientId) == Some(db.clients[c]) by {
      assert ClientIs(db, spec.clientId, ClientAt(db, spec.clientId));
    }
    assert db.clients[c := db.clients[c]] == db.clients;
    SeededLinksStay(db, known, spec, c);
  }

  lemma ClientFoundOrNew(db: Db, clientId: string)
    requires UniqueClients(db.clients) && Issued(db.clients.Keys, db.next)
    ensures var at := ClientAt(db, clientId);
            && (forall c :: c in db.clients ==> (db.clients[c].clientId == clientId <==> c == at))
            && OldClient(db, clientId) == if at in db.clients then Some(db.clients[at]) else None
  {
    forall c: Id | c in db.clients && db.clients[c].clientId == clientId ensures c == ClientAt(db, clientId) {
      assert ClientIs(db, clientId, c);
    }
  }

  lemma UpsertClientKeepsIntegrity(db: Db, known: set<string>, spec: ClientSpec)
    requires Integrity(db)
    ensures Integrity(UpsertClient(db, known, spec))
  {
    ClientFoundOrNew(db, spec.clientId);
  }

  lemma UpsertClientSeeds(db: Db, known: set<string>, spec: ClientSpec)
    requires Integrity(db)
    ensures ClientSeeded(UpsertClient(db, known, spec), known, spec)
  {
    var at, after := ClientAt(db, spec.clientId), UpsertClient(db, known, spec);
    ClientFoundOrNew(db, spec.clientId);
    assert Wanted(after, known, spec) == Wanted(db, known, spec);
    assert ClientSeededAt(after, known, spec, at);
  }

  /** What a deployment has made of the client stays: its redirect URIs, its secret, and every
    * link the catalogue does not list. */
  lemma ClientKeepsWhatIsTheDeployments(db: Db, known: set<string>, spec: ClientSpec, c: Id)
    requires Integrity(db) && c in db.clients
    ensures var after := UpsertClient(db, known, spec);
            && c in after.clients
            && after.clients[c].redirectUris == db.clients[c].redirectUris
            && after.clients[c].hasSecret == db.clients[c].hasSecret
            && (db.clients[c].clientId != spec.clientId ==> after.clients[c] == db.clients[c])
            && forall s :: (c, s) in db.clientScopes &&
                           (db.clients[c].clientId != spec.clientId || s !in Wanted(db, known, spec))
                           ==> (c, s) in after.clientScopes && after.clientScopes[(c, s)] == db.clientScopes[(c, s)]
  {
    var at := ClientAt(db, spec.clientId);
    if db.clients[c].clientId == spec.clientId {
      assert ClientIs(db, spec.clientId, c);
    } else if exists d: Id :: ClientIs(db, spec.clientId, d) {
      assert ClientIs(db, spec.clientId, at);
    }
  }

  // ---- The administrator ----

  const ADMIN := "admin"
  const ADMINISTRATOR := "administrator"

  ghost function WithAdmin(db: Db, email: string): Db {
    db.(users := db.users[db.next := User(email, ADMIN, true)],
        userRoles := Relinked(db.userRoles, db.next, {RoleAt(db, ADMINISTRATOR)}),
        next := db.next + 1)
  }

  ghost function SeedAdmin(db: Db, email: string): Result<Db, Conflict> {
    if EmailUsed(db, email) then Success(db)
    else if UsernameUsed(db, ADMIN) then Failure(UsernameTaken)
    else Success(WithAdmin(db, email))
  }

  // ---- The whole run ----

  datatype Catalogue = Catalogue(apis: seq<ApiSpec>, roles: seq<RoleSpec>, client: ClientSpec, email: string)

  /** A catalogue that does not contradict itself. */
  ghost predicate Consistent(cat: Catalogue) {
    && DistinctSpecs(cat.apis) && DistinctAudiences(cat.apis) && DistinctRoles(cat.roles)
    && exists k :: 0 <= k < |cat.roles| && cat.roles[k].name == ADMINISTRATOR
  }

  /** What a run leaves, and which credentials it shows. */
  datatype Seeded = Seeded(db: Db, secret: bool, password: bool)

  ghost function Seed(db: Db, cat: Catalogue): Result<Seeded, Conflict> {
    var known := AllValues(cat.apis);
    var catalogued :- SeedApis(db, cat.apis);
    var withRoles := SeedRoles(catalogued, known, cat.roles);
    var withClient := UpsertClient(withRoles, known, cat.client);
    var done :- SeedAdmin(withClient, cat.email);
    Success(Seeded(done, MakesSecret(withRoles, cat.client), !EmailUsed(withClient, cat.email)))
  }

  /** The database says what the catalogue says. */
  ghost predicate Says(db: Db, cat: Catalogue) {
    var known := AllValues(cat.apis);
    && ApisSeeded(db, cat.apis) && RolesSeeded(db, known, cat.roles)
    && ClientSeeded(db, known, cat.client) && EmailUsed(db, cat.email)
  }

  lemma SeedingWhatIsSaidIsNothing(db: Db, cat: Catalogue)
    requires Integrity(db) && Says(db, cat)
    ensures Seed(db, cat) == Success(Seeded(db, false, false))
  {
    SeededApisStay(db, cat.apis);
    SeededRolesStay(db, AllValues(cat.apis), cat.roles);
    SeededClientStays(db, AllValues(cat.apis), cat.client);
  }

  lemma ApisStaySeeded(db: Db, after: Db, specs: seq<ApiSpec>)
    requires ApisSeeded(db, specs) && after.apis == db.apis && after.scopes == db.scopes
    ensures ApisSeeded(after, specs)
  {
    forall k | 0 <= k < |specs| ensures ApiSeeded(after, specs[k]) {
      var i :| ApiSeededAt(db, specs[k], i);
      forall m | 0 <= m < |specs[k].scopes| ensures ScopeSeeded(after, i, specs[k].scopes[m]) {
        var s :| ScopeSeededAt(db, i, specs[k].scopes[m], s);
        assert ScopeSeededAt(after, i, specs[k].scopes[m], s);
      }
      assert ApiSeededAt(after, specs[k], i);
    }
  }

  lemma RolesStaySeeded(db: Db, after: Db, known: set<string>, specs: seq<RoleSpec>)
    requires RolesSeeded(db, known, specs)
    requires after.roles == db.roles && after.roleScopes == db.roleScopes && after.scopes == db.scopes
    ensures RolesSeeded(after, known, specs)
  {
    forall k | 0 <= k < |specs| ensures RoleSeeded(after, known, specs[k]) {
      var r :| RoleSeededAt(db, known, specs[k], r);
      assert RoleSeededAt(after, known, specs[k], r);
    }
  }

  lemma ClientStaysSeeded(db: Db, after: Db, known: set<string>, spec: ClientSpec)
    requires ClientSeeded(db, known, spec)
    requires after.clients == db.clients && after.clientScopes == db.clientScopes && after.scopes == db.scopes
    ensures ClientSeeded(after, known, spec)
  {
    var c :| ClientSeededAt(db, known, spec, c);
    assert ClientSeededAt(after, known, spec, c);
  }

  lemma SeededRoleExists(db: Db, known: set<string>, specs: seq<RoleSpec>, k: nat)
    requires RolesSeeded(db, known, specs) && k < |specs| && UniqueRoles(db.roles)
    ensures RoleSeededAt(db, known, specs[k], RoleAt(db, specs[k].name))
  {
    assert RoleSeeded(db, known, specs[k]);
    var r :| RoleSeededAt(db, known, specs[k], r);
    assert RoleIs(db, specs[k].name, r);
  }

  lemma SeedAdminEffects(db: Db, email: string)
    requires Integrity(db) && RoleAt(db, ADMINISTRATOR) in db.roles && SeedAdmin(db, email).Success?
    ensures var after := SeedAdmin(db, email).value;
            Integrity(after) && EmailUsed(after, email)
  {
    var after := SeedAdmin(db, email).value;
    if !EmailUsed(db, email) {
      assert after.users[db.next].email == email;
    }
  }

  ghost function WithRoles(db: Db, cat: Catalogue): Db
    requires SeedApis(db, cat.apis).Success?
  {
    SeedRoles(SeedApis(db, cat.apis).value, AllValues(cat.apis), cat.roles)
  }

  lemma WithRolesSays(db: Db, cat: Catalogue)
    requires Integrity(db) && Consistent(cat) && SeedApis(db, cat.apis).Success?
    ensures var done := WithRoles(db, cat);
            Integrity(done) && ApisSeeded(done, cat.apis) && RolesSeeded(done, AllValues(cat.apis), cat.roles)
  {
    var catalogued := SeedApis(db, cat.apis).value;
    SeedApisSpare(db, cat.apis);
    SeedApisSeed(db, cat.apis);
    SeedRolesSpare(catalogued, AllValues(cat.apis), cat.roles);
    SeedRolesSeed(catalogued, AllValues(cat.apis), cat.roles);
    ApisStaySeeded(catalogued, WithRoles(db, cat), cat.apis);
  }

  lemma RestSays(db: Db, done: Db, cat: Catalogue)
    requires Integrity(db) && Consistent(cat)
    requires ApisSeeded(db, cat.apis) && RolesSeeded(db, AllValues(cat.apis), cat.roles)
    requires SeedAdmin(UpsertClient(db, AllValues(cat.apis), cat.client), cat.email) == Success(done)
    ensures Integrity(done) && Says(done, cat)
  {
    var known := AllValues(cat.apis);
    var withClient := UpsertClient(db, known, cat.client);
    UpsertClientKeepsIntegrity(db, known, cat.client);
    UpsertClientSeeds(db, known, cat.client);
    RolesStaySeeded(db, withClient, known, cat.roles);
    var k :| 0 <= k < |cat.roles| && cat.roles[k].name == ADMINISTRATOR;
    SeededRoleExists(withClient, known, cat.roles, k);
    SeedAdminEffects(withClient, cat.email);
    ApisStaySeeded(db, done, cat.apis);
    RolesStaySeeded(db, done, known, cat.roles);
    ClientStaysSeeded(withClient, done, known, cat.client);
  }

  /** Where it succeeds, the database keeps its integrity and says what the catalogue says. */
  lemma SeedingSays(db: Db, cat: Catalogue)
    requires Integrity(db) && Consistent(cat) && Seed(db, cat).Success?
    ensures Integrity(Seed(db, cat).value.db) && Says(Seed(db, cat).value.db, cat)
  {
    WithRolesSays(db, cat);
    RestSays(WithRoles(db, cat), Seed(db, cat).value.db, cat);
  }

  /** A second run succeeds, changes nothing, and shows no secret and no password. */
  lemma SeedingTwiceIsSeedingOnce(db: Db, cat: Catalogue)
    requires Integrity(db) && Consistent(cat) && Seed(db, cat).Success?
    ensures var once := Seed(db, cat).value.db;
            Seed(once, cat) == Success(Seeded(once, false, false))
  {
    SeedingSays(db, cat);
    SeedingWhatIsSaidIsNothing(Seed(db, cat).value.db, cat);
  }

  /** A run succeeds exactly when nobody else holds what the catalogue claims. */
  lemma SeedingSucceedsExactlyWhen(db: Db, cat: Catalogue)
    requires Integrity(db) && Consistent(cat)
    ensures Seed(db, cat).Success?
       <==> Welcomes(db, cat.apis) && (EmailUsed(db, cat.email) || !UsernameUsed(db, ADMIN))
  {
    SeedApisSucceeds(db, cat.apis);
    if SeedApis(db, cat.apis).Success? {
      SeedApisSpare(db, cat.apis);
      SeedRolesSpare(SeedApis(db, cat.apis).value, AllValues(cat.apis), cat.roles);
    }
  }

  /** And the error it fails with is true. */
  lemma SeedingFailsForAReason(db: Db, cat: Catalogue)
    requires Integrity(db) && Consistent(cat) && Seed(db, cat).Failure?
    ensures if Welcomes(db, cat.apis) then Seed(db, cat) == Failure(UsernameTaken)
            else IsClaimed(db, cat.apis, Seed(db, cat).error)
  {
    SeedApisSucceeds(db, cat.apis);
    if SeedApis(db, cat.apis).Failure? {
      SeedApisFail(db, cat.apis);
    }
  }
}
