/** The provider's tables: one map per entity, one set of pairs per join table,
  * and the foreign keys' `ON DELETE CASCADE` as functions. */
module Directory {
  type Id = nat

  datatype Api = Api(name: string, audience: string, description: string, isSystem: bool)
  datatype Scope = Scope(api: Id, value: string, description: string, isSystem: bool)
  datatype Role = Role(name: string, description: string, isSystem: bool)
  datatype Group = Group(name: string, description: string)
  datatype User = User(email: string, username: string, isActive: bool)
  datatype ClientType = Public | Confidential
  datatype Client = Client(
    clientId: string, name: string, clientType: ClientType, hasSecret: bool,
    redirectUris: seq<string>, allowedGrants: seq<string>, skipConsent: bool, isSystem: bool)

  // A client's link to one scope: requestable for a person, held by the client itself.
  datatype Link = Link(grantable: bool, granted: bool)

  datatype Db = Db(
    apis: map<Id, Api>,
    scopes: map<Id, Scope>,
    roles: map<Id, Role>,
    groups: map<Id, Group>,
    users: map<Id, User>,
    clients: map<Id, Client>,
    userScopes: set<(Id, Id)>,
    userRoles: set<(Id, Id)>,
    userGroups: set<(Id, Id)>,
    groupRoles: set<(Id, Id)>,
    roleScopes: set<(Id, Id)>,
    clientScopes: map<(Id, Id), Link>,
    // Primary keys are generated: every one handed out so far lies below this.
    next: Id)

  /** The right-hand ids `x` is linked to. */
  function Linked(r: set<(Id, Id)>, x: Id): set<Id> {
    set p | p in r && p.0 == x :: p.1
  }

  function WithoutLeft(r: set<(Id, Id)>, x: Id): set<(Id, Id)> {
    set p | p in r && p.0 != x
  }

  function WithoutRight(r: set<(Id, Id)>, xs: set<Id>): set<(Id, Id)> {
    set p | p in r && p.1 !in xs
  }

  function FromEach(xs: set<Id>, y: Id): set<(Id, Id)> {
    set x | x in xs :: (x, y)
  }

  function ToEach(x: Id, ys: set<Id>): set<(Id, Id)> {
    set y | y in ys :: (x, y)
  }

  /** `x`'s links replaced wholesale, as assigning a relationship does. */
  function Relinked(r: set<(Id, Id)>, x: Id, ys: set<Id>): set<(Id, Id)> {
    WithoutLeft(r, x) + ToEach(x, ys)
  }

  lemma LinkedAfterRelinking(r: set<(Id, Id)>, x: Id, ys: set<Id>, z: Id)
    ensures Linked(Relinked(r, x, ys), z) == if z == x then ys else Linked(r, z)
  {
    var after := Relinked(r, x, ys);
    forall y ensures y in Linked(after, z) <==> y in if z == x then ys else Linked(r, z) {
      assert y in Linked(after, z) <==> (z, y) in after;
      assert y in Linked(r, z) <==> (z, y) in r;
    }
  }

  // ---- Deletions, with what each cascades to ----

  function DeleteUser(db: Db, user: Id): Db {
    db.(users := db.users - {user},
        userScopes := WithoutLeft(db.userScopes, user),
        userRoles := WithoutLeft(db.userRoles, user),
        userGroups := WithoutLeft(db.userGroups, user))
  }

  function DeleteGroup(db: Db, group: Id): Db {
    db.(groups := db.groups - {group},
        userGroups := WithoutRight(db.userGroups, {group}),
        groupRoles := WithoutLeft(db.groupRoles, group))
  }

  function DeleteRole(db: Db, role: Id): Db {
    db.(roles := db.roles - {role},
        userRoles := WithoutRight(db.userRoles, {role}),
        groupRoles := WithoutRight(db.groupRoles, {role}),
        roleScopes := WithoutLeft(db.roleScopes, role))
  }

  function DeleteScopes(db: Db, gone: set<Id>): Db {
    db.(scopes := db.scopes - gone,
        userScopes := WithoutRight(db.userScopes, gone),
        roleScopes := WithoutRight(db.roleScopes, gone),
        clientScopes := map k | k in db.clientScopes && k.1 !in gone :: db.clientScopes[k])
  }

  function ScopesOfApi(db: Db, api: Id): set<Id> {
    set s | s in db.scopes && db.scopes[s].api == api
  }

  function DeleteApi(db: Db, api: Id): Db {
    DeleteScopes(db, ScopesOfApi(db, api)).(apis := db.apis - {api})
  }

  // ---- Integrity ----

  /** Every pair names a row on both sides. */
  ghost predicate Refers(r: set<(Id, Id)>, left: set<Id>, right: set<Id>) {
    forall p :: p in r ==> p.0 in left && p.1 in right
  }

  ghost predicate ForeignKeys(db: Db) {
    && (forall s :: s in db.scopes ==> db.scopes[s].api in db.apis)
    && Refers(db.userScopes, db.users.Keys, db.scopes.Keys)
    && Refers(db.userRoles, db.users.Keys, db.roles.Keys)
    && Refers(db.userGroups, db.users.Keys, db.groups.Keys)
    && Refers(db.groupRoles, db.groups.Keys, db.roles.Keys)
    && Refers(db.roleScopes, db.roles.Keys, db.scopes.Keys)
    && Refers(db.clientScopes.Keys, db.clients.Keys, db.scopes.Keys)
  }

  ghost predicate Issued(ids: set<Id>, next: Id) {
    forall i :: i in ids ==> i < next
  }

  ghost predicate IdsIssued(db: Db) {
    && Issued(db.apis.Keys, db.next) && Issued(db.scopes.Keys, db.next) && Issued(db.roles.Keys, db.next)
    && Issued(db.groups.Keys, db.next) && Issued(db.users.Keys, db.next) && Issued(db.clients.Keys, db.next)
  }

  // No two rows of a table share a key.
  ghost predicate UniqueApis(apis: map<Id, Api>) {
    forall i, j :: i in apis && j in apis &&
                   (apis[i].name == apis[j].name || apis[i].audience == apis[j].audience)
                   ==> i == j
  }

  ghost predicate UniqueScopes(scopes: map<Id, Scope>) {
    forall i, j :: i in scopes && j in scopes && scopes[i].value == scopes[j].value ==> i == j
  }

  ghost predicate UniqueRoles(roles: map<Id, Role>) {
    forall i, j :: i in roles && j in roles && roles[i].name == roles[j].name ==> i == j
  }

  ghost predicate UniqueGroups(groups: map<Id, Group>) {
    forall i, j :: i in groups && j in groups && groups[i].name == groups[j].name ==> i == j
  }

  ghost predicate UniqueUsers(users: map<Id, User>) {
    forall i, j :: i in users && j in users &&
                   (users[i].email == users[j].email || users[i].username == users[j].username)
                   ==> i == j
  }

  ghost predicate UniqueClients(clients: map<Id, Client>) {
    forall i, j :: i in clients && j in clients && clients[i].clientId == clients[j].clientId ==> i == j
  }

  ghost predicate UniqueKeys(db: Db) {
    && UniqueApis(db.apis) && UniqueScopes(db.scopes) && UniqueRoles(db.roles)
    && UniqueGroups(db.groups) && UniqueUsers(db.users) && UniqueClients(db.clients)
  }

  /** What PostgreSQL keeps true of any database. */
  ghost predicate Integrity(db: Db) {
    ForeignKeys(db) && IdsIssued(db) && UniqueKeys(db)
  }

  // ---- Lookups by unique key ----

  predicate ApiNamed(db: Db, name: string) { exists i :: i in db.apis && db.apis[i].name == name }
  predicate AudienceUsed(db: Db, audience: string) { exists i :: i in db.apis && db.apis[i].audience == audience }
  predicate ScopeValued(db: Db, value: string) { exists i :: i in db.scopes && db.scopes[i].value == value }
  predicate RoleNamed(db: Db, name: string) { exists i :: i in db.roles && db.roles[i].name == name }
  predicate GroupNamed(db: Db, name: string) { exists i :: i in db.groups && db.groups[i].name == name }
  predicate UsernameUsed(db: Db, username: string) { exists i :: i in db.users && db.users[i].username == username }
  predicate EmailUsed(db: Db, email: string) { exists i :: i in db.users && db.users[i].email == email }
}
