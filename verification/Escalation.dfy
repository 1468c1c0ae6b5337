/** Colluding callers over whole runs: what the two delegation rules add up to. */
module Escalation {
  import opened Results
  import opened Directory
  import opened Delegation
  import opened Lockout
  import opened Requests
  import opened Administration
  import opened Recovery

  // OIDC's own scopes, which a token may carry without anybody holding them.
  const OIDC_SCOPES: set<string> := {"openid", "profile", "email", "offline_access"}

  /** A group of colluding callers: the tokens they have, and the accounts they can
    * sign in to. Everybody else stands still. */
  datatype World = World(db: Db, tokens: set<Token>, accounts: set<Id>)

  datatype Move =
    // Signing in to one of their accounts, for any part of what it holds.
    | Mint(account: Id, scopes: set<string>)
    // Making a request with one of their tokens.
    | Ask(token: Token, op: Op)

  /** Whose account a committed request hands to the callers: the one created with a
    * password they were shown, or the one whose credentials they reset or cleared. */
  function Gained(op: Op, db: Db): set<Id> {
    match op
    case OnUsers(CreateUser(_, _, _, _)) => {db.next}
    case OnUsers(ResetPassword(user)) => {user}
    case OnUsers(ClearTotp(user)) => {user}
    case OnUsers(ClearFace(user)) => {user}
    case OnUsers(UpdateUser(user, _, _)) => {user}
    case _ => {}
  }

  predicate Possible(w: World, m: Move) {
    match m
    case Mint(account, scopes) =>
      && account in w.accounts && account in w.db.users && w.db.users[account].isActive
      && scopes <= EffectiveValues(w.db, account) + OIDC_SCOPES
    case Ask(token, _) => token in w.tokens
  }

  /** The world after a move; an impossible or refused one changes nothing. */
  function After(rules: Rules, w: World, m: Move): World {
    if !Possible(w, m) then w
    else match m
    case Mint(account, scopes) => w.(tokens := w.tokens + {Token(Some(account), scopes)})
    case Ask(token, op) =>
      match Outcome(rules, op, token, w.db)
      case Failure(_) => w
      case Success(after) => w.(db := after, accounts := w.accounts + Gained(op, w.db))
  }

  function Play(rules: Rules, w: World, run: seq<Move>): World
    decreases |run|
  {
    if run == [] then w else Play(rules, After(rules, w, run[0]), run[1..])
  }

  // ---- What the callers can reach ----

  /** The restricted values of a catalogue, as strings: what routes ask for. */
  function Protected(db: Db): set<string> {
    Restricted(db, db.scopes.Keys)
  }

  /** Everything restricted in the callers' tokens and in the accounts they control. */
  function Authority(w: World): set<string> {
    var inTokens := set t, v | t in w.tokens && v in t.scopes :: v;
    var inAccounts := set a, v | a in w.accounts && v in EffectiveValues(w.db, a) :: v;
    (inTokens + inAccounts) * Protected(w.db)
  }

  lemma ProtectedIsFixed(db: Db, after: Db)
    requires SameSystemScopes(db, after)
    ensures Protected(after) == Protected(db)
  {
    forall v | v in Protected(db) ensures v in Protected(after) {
      var s :| s in db.scopes && IsRestricted(db.scopes[s]) && db.scopes[s].value == v;
      assert s in after.scopes && IsRestricted(after.scopes[s]) && after.scopes[s].value == v;
    }
    forall v | v in Protected(after) ensures v in Protected(db) {
      var s :| s in after.scopes && IsRestricted(after.scopes[s]) && after.scopes[s].value == v;
      assert s in db.scopes && IsRestricted(db.scopes[s]) && db.scopes[s].value == v;
    }
  }

  /** Values being unique, a protected value is only ever held through its system scope. */
  lemma ProtectedPartIsRestricted(db: Db, ids: set<Id>, v: string)
    requires UniqueScopes(db.scopes) && v in Protected(db)
    ensures (exists s :: s in ids && s in db.scopes && db.scopes[s].value == v) <==> v in Restricted(db, ids)
  {
    var s :| s in db.scopes && IsRestricted(db.scopes[s]) && db.scopes[s].value == v;
    if x :| x in ids && x in db.scopes && db.scopes[x].value == v {
      assert x == s;
    }
  }

  lemma DelegableIsHeld(caller: set<string>, db: Db, conferring: set<Id>)
    requires RefuseUndelegatable(BOTH, caller, db, conferring).Holds?
    ensures Restricted(db, conferring) <= caller
  {
    var beyond := Restricted(db, conferring) - caller;
    forall v | v in Restricted(db, conferring) ensures v in caller {
      assert v !in beyond;
    }
  }

  /** The granting rule, wherever it is asked: nothing restricted is conferred that the
    * caller's token does not carry. */
  lemma GrantsOnlyWhatTheTokenCarries(op: Op, caller: Token, db: Db)
    requires Change(BOTH, op, caller, db).Success?
    ensures Restricted(db, Conferring(op, db)) <= caller.scopes
  {
    DelegableIsHeld(caller.scopes, db, Conferring(op, db));
  }

  lemma OutrankedIsHeld(caller: set<string>, db: Db, target: Id)
    requires RefuseIfOutranked(BOTH, caller, db, target).Holds?
    ensures Restricted(db, ScopesOfUser(db, target)) <= caller
  {
    var beyond := Restricted(db, ScopesOfUser(db, target)) - caller;
    forall v | v in Restricted(db, ScopesOfUser(db, target)) ensures v in caller {
      assert v !in beyond;
    }
  }

  /** The borrowing rule, wherever it is asked: an account handed over is either newly
    * made or holds nothing restricted that the caller's token does not carry. */
  lemma BorrowsOnlyWhatTheTokenCarries(op: Op, caller: Token, db: Db, account: Id)
    requires Change(BOTH, op, caller, db).Success? && account in Gained(op, db)
    ensures account == db.next || Restricted(db, ScopesOfUser(db, account)) <= caller.scopes
  {
    if account != db.next {
      OutrankedIsHeld(caller.scopes, db, account);
    }
  }

  // ---- Nothing else is gained ----

  ghost predicate HeldOrConferred(op: Op, db: Db, user: Id, scope: Id) {
    Reaches(db, user, scope) || scope in Conferring(op, db)
  }

  lemma UsersGainOnlyWhatIsConferred(rules: Rules, op: UserOp, caller: Token, db: Db, user: Id, scope: Id)
    requires Integrity(db) && ChangeUsers(rules, op, caller, db).Success?
    requires Reaches(ChangeUsers(rules, op, caller, db).value, user, scope)
    ensures HeldOrConferred(OnUsers(op), db, user, scope)
  {
  }

  lemma GroupsGainOnlyWhatIsConferred(rules: Rules, op: GroupOp, caller: Token, db: Db, user: Id, scope: Id)
    requires Integrity(db) && ChangeGroups(rules, op, caller, db).Success?
    requires Reaches(ChangeGroups(rules, op, caller, db).value, user, scope)
    ensures HeldOrConferred(OnGroups(op), db, user, scope)
  {
  }

  lemma RolesGainOnlyWhatIsConferred(rules: Rules, op: RoleOp, caller: Token, db: Db, user: Id, scope: Id)
    requires Integrity(db) && ChangeRoles(rules, op, caller, db).Success?
    requires Reaches(ChangeRoles(rules, op, caller, db).value, user, scope)
    ensures HeldOrConferred(OnRoles(op), db, user, scope)
  {
  }

  lemma CatalogueConfersNothing(op: CatalogueOp, db: Db, user: Id, scope: Id)
    requires ChangeCatalogue(op, db).Success?
    requires Reaches(ChangeCatalogue(op, db).value, user, scope)
    ensures Reaches(db, user, scope)
  {
  }

  lemma RequestsGainOnlyWhatIsConferred(rules: Rules, op: Op, caller: Token, db: Db, user: Id, scope: Id)
    requires Integrity(db) && Change(rules, op, caller, db).Success?
    requires scope in ScopesOfUser(Change(rules, op, caller, db).value, user)
    ensures scope in ScopesOfUser(db, user) || scope in Conferring(op, db)
  {
    HoldsExactlyWhatReaches(Change(rules, op, caller, db).value, user, scope);
    HoldsExactlyWhatReaches(db, user, scope);
    match op
    case OnUsers(u) => UsersGainOnlyWhatIsConferred(rules, u, caller, db, user, scope);
    case OnGroups(g) => GroupsGainOnlyWhatIsConferred(rules, g, caller, db, user, scope);
    case OnRoles(r) => RolesGainOnlyWhatIsConferred(rules, r, caller, db, user, scope);
    case OnCatalogue(c) => CatalogueConfersNothing(c, db, user, scope);
  }

  lemma NewAccountsHeldNothing(db: Db, scope: Id)
    requires Integrity(db)
    ensures scope !in ScopesOfUser(db, db.next)
  {
    HoldsExactlyWhatReaches(db, db.next, scope);
  }

  // ---- The bound ----

  /** A protected value in an account after a request was there before, or is in the token. */
  lemma AccountsGainOnlyWhatTheTokenCarries(op: Op, caller: Token, db: Db, account: Id, v: string)
    requires Sound(db) && Change(BOTH, op, caller, db).Success?
    requires v in Protected(db) && v in EffectiveValues(Change(BOTH, op, caller, db).value, account)
    ensures v in EffectiveValues(db, account) || v in caller.scopes
  {
    var after := Change(BOTH, op, caller, db).value;
    ChangesKeepSystemScopes(BOTH, op, caller, db);
    ChangesKeepIntegrity(BOTH, op, caller, db);
    var s := ProtectedIsHeldThroughItsScope(db, after, account, v);
    RequestsGainOnlyWhatIsConferred(BOTH, op, caller, db, account, s);
    if s in Conferring(op, db) {
      GrantsOnlyWhatTheTokenCarries(op, caller, db);
      assert v in Restricted(db, Conferring(op, db));
    }
  }

  lemma ProtectedIsHeldThroughItsScope(db: Db, after: Db, account: Id, v: string) returns (s: Id)
    requires SameSystemScopes(db, after) && UniqueScopes(after.scopes)
    requires v in Protected(db) && v in EffectiveValues(after, account)
    ensures s in ScopesOfUser(after, account)
    ensures s in db.scopes && db.scopes[s].value == v && IsRestricted(db.scopes[s])
  {
    s :| s in db.scopes && IsRestricted(db.scopes[s]) && db.scopes[s].value == v;
    assert s in after.scopes;
    var x :| x in ScopesOfUser(after, account) && x in after.scopes && after.scopes[x].value == v;
    assert x == s;
  }

  /** An account handed over held nothing protected that the token does not carry. */
  lemma BorrowedAccountsBringNothing(op: Op, caller: Token, db: Db, account: Id, v: string)
    requires Sound(db) && Change(BOTH, op, caller, db).Success? && account in Gained(op, db)
    requires v in Protected(db) && v in EffectiveValues(db, account)
    ensures v in caller.scopes
  {
    var s :| s in ScopesOfUser(db, account) && s in db.scopes && db.scopes[s].value == v;
    NewAccountsHeldNothing(db, s);
    BorrowsOnlyWhatTheTokenCarries(op, caller, db, account);
    ProtectedPartIsRestricted(db, ScopesOfUser(db, account), v);
  }

  lemma AuthorityOf(w: World, v: string)
    ensures v in Authority(w) <==>
            && v in Protected(w.db)
            && ((exists t :: t in w.tokens && v in t.scopes)
                || (exists a :: a in w.accounts && v in EffectiveValues(w.db, a)))
  {
  }

  lemma MintingGainsNothing(w: World, account: Id, scopes: set<string>, v: string)
    requires v in Authority(After(BOTH, w, Mint(account, scopes)))
    ensures v in Authority(w)
  {
    AuthorityOf(w, v);
    AuthorityOf(After(BOTH, w, Mint(account, scopes)), v);
    OidcIsNotProtected(w.db, v);
  }

  lemma AccountAfterAsking(w: World, token: Token, op: Op, account: Id, v: string)
    requires Sound(w.db) && token in w.tokens && Change(BOTH, op, token, w.db).Success?
    requires account in w.accounts + Gained(op, w.db) && v in Protected(w.db)
    requires v in EffectiveValues(Change(BOTH, op, token, w.db).value, account)
    ensures v in token.scopes || (account in w.accounts && v in EffectiveValues(w.db, account))
  {
    AccountsGainOnlyWhatTheTokenCarries(op, token, w.db, account, v);
    if account !in w.accounts && v in EffectiveValues(w.db, account) {
      BorrowedAccountsBringNothing(op, token, w.db, account, v);
    }
  }

  lemma AskingGainsNothing(w: World, token: Token, op: Op, v: string)
    requires Sound(w.db) && v in Authority(After(BOTH, w, Ask(token, op)))
    ensures v in Authority(w)
  {
    var next := After(BOTH, w, Ask(token, op));
    AuthorityOf(w, v);
    AuthorityOf(next, v);
    if next != w {
      CommitsTheChangeOrNothing(BOTH, op, token, w.db);
      RequestsKeepTheCatalogue(BOTH, op, token, w.db);
      ProtectedIsFixed(w.db, next.db);
      if a :| a in next.accounts && v in EffectiveValues(next.db, a) {
        AccountAfterAsking(w, token, op, a, v);
      }
    }
  }

  lemma NoMoveGainsAuthority(w: World, m: Move, v: string)
    requires Sound(w.db) && v in Authority(After(BOTH, w, m))
    ensures v in Authority(w)
  {
    match m
    case Mint(account, scopes) => MintingGainsNothing(w, account, scopes, v);
    case Ask(token, op) => AskingGainsNothing(w, token, op, v);
  }

  lemma OidcIsNotProtected(db: Db, v: string)
    requires v in Protected(db)
    ensures v !in OIDC_SCOPES
  {
    if v in OIDC_SCOPES {
      OidcPrefixes();
      assert false;
    }
  }

  lemma OidcPrefixes()
    ensures forall v :: v in OIDC_SCOPES ==> Prefix(v) !in RESTRICTED_PREFIXES
  {
    forall v | v in OIDC_SCOPES ensures Prefix(v) !in RESTRICTED_PREFIXES {
      PrefixStartsAlike(v);
    }
  }

  lemma PrefixStartsAlike(v: string)
    requires |v| > 0 && v[0] != ':'
    ensures Prefix(v) != "" && Prefix(v)[0] == v[0]
  {
  }

  /** However they combine their requests, tokens and accounts, colluding callers never
    * reach a restricted scope that none of them started with. */
  lemma {:induction false} NoEscalation(w: World, run: seq<Move>)
    requires Sound(w.db)
    ensures Authority(Play(BOTH, w, run)) <= Authority(w)
    ensures Protected(Play(BOTH, w, run).db) == Protected(w.db)
    decreases |run|
  {
    if run != [] {
      var next := After(BOTH, w, run[0]);
      if next.db != w.db {
        RequestsKeepTheCatalogue(BOTH, run[0].op, run[0].token, w.db);
        ProtectedIsFixed(w.db, next.db);
      }
      NoEscalation(next, run[1..]);
      forall v | v in Authority(next) ensures v in Authority(w) {
        NoMoveGainsAuthority(w, run[0], v);
      }
    }
  }

  // ---- Each rule is needed ----

  /** The database after `account` was given `scope` as well. */
  function WithScope(db: Db, account: Id, scope: Id): Db {
    db.(userScopes := Relinked(db.userScopes, account, Linked(db.userScopes, account) + {scope}))
  }

  lemma OwnScopesMayBeSet(db: Db, token: Token, account: Id, scope: Id)
    requires ForeignKeys(db) && scope in db.scopes
    requires account in db.users && EffectiveValues(db, account) <= token.scopes
    ensures ChangeUsers(Rules(false, true), SetDirectScopes(account, Linked(db.userScopes, account) + {scope}),
                        token, db)
         == Success(WithScope(db, account, scope))
  {
    OwnAccountIsNotOutranked(db, token.scopes, account);
    assert Linked(db.userScopes, account) + {scope} <= db.scopes.Keys;
  }

  lemma GuardedOutcome(rules: Rules, op: Op, token: Token, db: Db, after: Db)
    requires Change(rules, op, token, db) == Success(after) && RefuseIfLast(after).Holds?
    ensures Outcome(rules, op, token, db) == Success(after)
  {
  }

  lemma AnybodyMayGrantToTheirOwn(db: Db, token: Token, account: Id, scope: Id)
    requires Recoverable(db) && "admin:grants:write" in token.scopes && scope in db.scopes
    requires account in db.users && EffectiveValues(db, account) <= token.scopes
    ensures Outcome(Rules(false, true), OnUsers(SetDirectScopes(account, Linked(db.userScopes, account) + {scope})),
                    token, db)
         == Success(WithScope(db, account, scope))
  {
    var op := SetDirectScopes(account, Linked(db.userScopes, account) + {scope});
    OwnScopesMayBeSet(db, token, account, scope);
    AddingAScopeKeepsAdministrators(db, account, scope);
    NoOneLeftIsRefused(WithScope(db, account, scope));
    GuardedOutcome(Rules(false, true), OnUsers(op), token, db, WithScope(db, account, scope));
  }

  lemma OwnAccountIsNotOutranked(db: Db, caller: set<string>, account: Id)
    requires EffectiveValues(db, account) <= caller
    ensures forall rules: Rules :: RefuseIfOutranked(rules, caller, db, account).Holds?
  {
    assert Restricted(db, ScopesOfUser(db, account)) - caller == {};
  }

  /** Without the granting rule, one request reaches any restricted scope there is:
    * whoever may assign permissions adds it to an account of their own. */
  lemma WithoutGrantingOneRequestReachesAnything(w: World, token: Token, account: Id, scope: Id)
    requires Recoverable(w.db)
    requires token in w.tokens && "admin:grants:write" in token.scopes
    requires account in w.accounts && account in w.db.users && EffectiveValues(w.db, account) <= token.scopes
    requires scope in w.db.scopes && IsRestricted(w.db.scopes[scope])
    ensures exists op :: w.db.scopes[scope].value in Authority(After(Rules(false, true), w, Ask(token, op)))
  {
    var scopes := Linked(w.db.userScopes, account) + {scope};
    var next := After(Rules(false, true), w, Ask(token, OnUsers(SetDirectScopes(account, scopes))));
    AnybodyMayGrantToTheirOwn(w.db, token, account, scope);
    LinkedAfterRelinking(w.db.userScopes, account, scopes, account);
    assert scope in ScopesOfUser(next.db, account);
    AuthorityOf(next, w.db.scopes[scope].value);
  }

  lemma AddingAScopeKeepsAdministrators(db: Db, account: Id, scope: Id)
    requires Recoverable(db)
    ensures Administrators(WithScope(db, account, scope)) != {}
  {
    var scopes := Linked(db.userScopes, account) + {scope};
    var changed := WithScope(db, account, scope);
    var admin :| admin in Administrators(db);
    var s :| s in RecoveryIds(db) && s in ScopesOfUser(db, admin);
    forall p | p in db.userScopes ensures p in changed.userScopes {
      if p.0 == account {
        assert p.1 in Linked(db.userScopes, account);
        assert (account, p.1) in ToEach(account, scopes);
      }
    }
    KeptPathsKeepHolders(db, changed, s, admin);
    assert s in RecoveryIds(changed);
    assert admin in Administrators(changed);
  }

  lemma NoOneLeftIsRefused(db: Db)
    requires Administrators(db) != {}
    ensures RefuseIfLast(db).Holds?
  {
    CountsEachAdministratorOnce(db);
  }

  /** Without the borrowing rule, so does one password reset: whoever may manage people
    * becomes somebody who already has what they wanted. */
  lemma WithoutBorrowingOneResetReachesAnybody(w: World, token: Token, target: Id, v: string)
    requires token in w.tokens && "admin:users:write" in token.scopes
    requires target in w.db.users && v in EffectiveValues(w.db, target) && v in Protected(w.db)
    ensures v in Authority(After(Rules(true, false), w, Ask(token, OnUsers(ResetPassword(target)))))
  {
    var next := After(Rules(true, false), w, Ask(token, OnUsers(ResetPassword(target))));
    assert next.db == w.db && target in next.accounts;
    AuthorityOf(next, v);
  }

  // ---- And each rule makes a difference ----

  const SYSTEM_API := Api("iden", "iden", "", true)
  const CALLER := User("caller", "caller", true)
  const SOMEBODY := User("somebody", "somebody", true)

  /** One caller, who may assign permissions, and a restricted scope that nobody holds. */
  function GranterOnly(v: string): World {
    World(Db(map[0 := SYSTEM_API], map[1 := Scope(0, RECOVERY_SCOPE, "", true), 2 := Scope(0, v, "", true)],
             map[], map[], map[3 := CALLER], map[], {(3, 1)}, {}, {}, {}, {}, map[], 4),
          {Token(Some(3), {RECOVERY_SCOPE})}, {3})
  }

  /** A caller who may manage people, and somebody else who holds a restricted scope. */
  function ManagerAndHolder(v: string): World {
    World(Db(map[0 := SYSTEM_API], map[1 := Scope(0, v, "", true)],
             map[], map[], map[2 := SOMEBODY, 3 := CALLER], map[], {(2, 1)}, {}, {}, {}, {}, map[], 4),
          {Token(Some(3), {"admin:users:write"})}, {3})
  }

  lemma HoldsDirectly(db: Db, user: Id, scope: Id)
    requires db.userRoles == {} && db.userGroups == {}
    ensures scope in ScopesOfUser(db, user) <==> (user, scope) in db.userScopes
  {
    HoldsExactlyWhatReaches(db, user, scope);
  }

  lemma GrantersWorldIsSound(v: string)
    requires v != RECOVERY_SCOPE
    ensures Sound(GranterOnly(v).db)
  {
  }

  lemma GranterIsRecoverable(v: string)
    requires v != RECOVERY_SCOPE
    ensures Recoverable(GranterOnly(v).db)
  {
    GrantersWorldIsSound(v);
    var db := GranterOnly(v).db;
    HoldsDirectly(db, 3, 1);
    assert 1 in RecoveryIds(db);
    assert 3 in Administrators(db);
    assert db.scopes[1].isSystem && db.scopes[1].value == RECOVERY_SCOPE;
  }

  lemma GranterHolds(v: string)
    requires v != RECOVERY_SCOPE
    ensures EffectiveValues(GranterOnly(v).db, 3) == {RECOVERY_SCOPE}
  {
    var db := GranterOnly(v).db;
    HoldsDirectly(db, 3, 1);
    HoldsDirectly(db, 3, 2);
    forall s | s in ScopesOfUser(db, 3) && s in db.scopes ensures s == 1 {
      HoldsDirectly(db, 3, s);
    }
  }

  lemma OutOfReach(w: World, v: string)
    requires forall t :: t in w.tokens ==> v !in t.scopes
    requires forall a :: a in w.accounts ==> v !in EffectiveValues(w.db, a)
    ensures v !in Authority(w)
  {
  }

  /** One caller, in a group, who may manage groups, and an administrator by a role. */
  function GroupManagerOnly(): World {
    World(Db(map[0 := SYSTEM_API], map[1 := Scope(0, RECOVERY_SCOPE, "", true)],
             map[2 := Role("administrator", "", true)], map[5 := Group("staff", "")],
             map[3 := CALLER, 4 := SOMEBODY], map[], {}, {(4, 2)}, {(3, 5)}, {}, {(2, 1)}, map[], 6),
          {Token(Some(3), {"admin:groups:write"})}, {3})
  }

  lemma GroupManagersWorldIsSound()
    ensures Sound(GroupManagerOnly().db)
  {
  }

  lemma HoldsByRole(db: Db, user: Id, role: Id, scope: Id)
    requires (user, role) in db.userRoles && (role, scope) in db.roleScopes
    ensures scope in ScopesOfUser(db, user)
  {
    HoldsExactlyWhatReaches(db, user, scope);
  }

  lemma GroupManagerIsRecoverable()
    ensures Recoverable(GroupManagerOnly().db)
  {
    GroupManagersWorldIsSound();
    var db := GroupManagerOnly().db;
    HoldsByRole(db, 4, 2, 1);
    assert 1 in RecoveryIds(db);
    assert 4 in Administrators(db);
    assert db.scopes[1].isSystem && db.scopes[1].value == RECOVERY_SCOPE;
  }

  lemma GroupManagerHoldsNothing()
    ensures EffectiveValues(GroupManagerOnly().db, 3) == {}
  {
    var db := GroupManagerOnly().db;
    forall s ensures s !in ScopesOfUser(db, 3) {
      HoldsExactlyWhatReaches(db, 3, s);
    }
  }

  /** The database after the caller gave the administrator's role to their own group. */
  function StaffAsAdministrators(): Db {
    var db := GroupManagerOnly().db;
    db.(groupRoles := Relinked(db.groupRoles, 5, {2}))
  }

  lemma StaffBecomeAdministrators()
    ensures RECOVERY_SCOPE in EffectiveValues(StaffAsAdministrators(), 3)
    ensures Administrators(StaffAsAdministrators()) != {}
  {
    var db := StaffAsAdministrators();
    assert (3, 5) in db.userGroups && (5, 2) in db.groupRoles && (2, 1) in db.roleScopes;
    assert Reaches(db, 3, 1);
    HoldsExactlyWhatReaches(db, 3, 1);
    assert 1 in RecoveryIds(db);
    assert 3 in Administrators(db);
  }

  lemma StaffMayBeMadeAdministrators(token: Token)
    requires "admin:groups:write" in token.scopes
    ensures Outcome(Rules(false, true), OnGroups(SetGroupRoles(5, {2})), token, GroupManagerOnly().db)
         == Success(StaffAsAdministrators())
  {
    var op := SetGroupRoles(5, {2});
    StaffBecomeAdministrators();
    NoOneLeftIsRefused(StaffAsAdministrators());
    assert ChangeGroups(Rules(false, true), op, token, GroupManagerOnly().db) == Success(StaffAsAdministrators());
    GuardedOutcome(Rules(false, true), OnGroups(op), token, GroupManagerOnly().db, StaffAsAdministrators());
  }

  lemma RecoveryIsAnAdminScope()
    ensures Prefix(RECOVERY_SCOPE) == "admin"
  {
    assert RECOVERY_SCOPE == "admin" + ":" + "grants:write";
    PrefixEndsAtTheColon("admin", "grants:write");
  }

  lemma RecoveryIsProtected()
    ensures RECOVERY_SCOPE in Protected(StaffAsAdministrators())
  {
    RecoveryIsAnAdminScope();
    assert IsRestricted(StaffAsAdministrators().scopes[1]);
  }

  /** Without the granting rule the recovery scope itself is within reach of whoever may manage
    * groups and is in one. */
  lemma GrantingRuleKeepsTheRecoveryScope()
    ensures exists w: World, token: Token, op: Op ::
              && Recoverable(w.db) && RECOVERY_SCOPE !in Authority(w)
              && RECOVERY_SCOPE in Authority(After(Rules(false, true), w, Ask(token, op)))
  {
    var w, token, op := GroupManagerOnly(), Token(Some(3), {"admin:groups:write"}), OnGroups(SetGroupRoles(5, {2}));
    GroupManagerIsRecoverable();
    RecoveryIsOutOfReach();
    StaffMayBeMadeAdministrators(token);
    StaffBecomeAdministrators();
    RecoveryIsProtected();
    ReachedByAsking(Rules(false, true), w, token, op, StaffAsAdministrators(), 3, RECOVERY_SCOPE);
  }

  lemma ReachedByAsking(rules: Rules, w: World, token: Token, op: Op, after: Db, account: Id, v: string)
    requires token in w.tokens && Outcome(rules, op, token, w.db) == Success(after)
    requires account in w.accounts && v in EffectiveValues(after, account) && v in Protected(after)
    ensures v in Authority(After(rules, w, Ask(token, op)))
  {
    AuthorityOf(After(rules, w, Ask(token, op)), v);
  }

  lemma RecoveryIsOutOfReach()
    ensures RECOVERY_SCOPE !in Authority(GroupManagerOnly())
  {
    GroupManagerHoldsNothing();
    assert RECOVERY_SCOPE[8] != "admin:groups:write"[8];
    OutOfReach(GroupManagerOnly(), RECOVERY_SCOPE);
  }

  /** Without the granting rule any restricted scope that was out of reach comes within it, in a
    * deployment that is as it should be. */
  lemma GrantingRuleIsNeeded(v: string)
    requires Prefix(v) in RESTRICTED_PREFIXES
    ensures exists w: World, token: Token, op: Op ::
              Recoverable(w.db) && v !in Authority(w) && v in Authority(After(Rules(false, true), w, Ask(token, op)))
  {
    if v == RECOVERY_SCOPE {
      GrantingRuleKeepsTheRecoveryScope();
      return;
    }
    var w, token := GranterOnly(v), Token(Some(3), {RECOVERY_SCOPE});
    GranterIsRecoverable(v);
    GranterHolds(v);
    OutOfReach(w, v);
    WithoutGrantingOneRequestReachesAnything(w, token, 3, 2);
  }

  lemma ManagerHoldsNothing(v: string)
    ensures EffectiveValues(ManagerAndHolder(v).db, 3) == {} && v in EffectiveValues(ManagerAndHolder(v).db, 2)
  {
    var db := ManagerAndHolder(v).db;
    HoldsDirectly(db, 2, 1);
    forall s ensures s !in ScopesOfUser(db, 3) {
      HoldsDirectly(db, 3, s);
    }
  }

  lemma ManagersWorldIsSound(v: string)
    ensures Sound(ManagerAndHolder(v).db)
  {
  }

  lemma HeldValueIsProtected(v: string)
    requires Prefix(v) in RESTRICTED_PREFIXES
    ensures v in Protected(ManagerAndHolder(v).db)
  {
    assert IsRestricted(ManagerAndHolder(v).db.scopes[1]);
  }

  /** And without the borrowing rule, so does one that only somebody else holds. */
  lemma BorrowingRuleIsNeeded(v: string)
    requires Prefix(v) in RESTRICTED_PREFIXES && v != "admin:users:write"
    ensures exists w: World, token: Token, op: Op ::
              Sound(w.db) && v !in Authority(w) && v in Authority(After(Rules(true, false), w, Ask(token, op)))
  {
    var w, token := ManagerAndHolder(v), Token(Some(3), {"admin:users:write"});
    ManagerHoldsNothing(v);
    OutOfReach(w, v);
    HeldValueIsProtected(v);
    ManagersWorldIsSound(v);
    WithoutBorrowingOneResetReachesAnybody(w, token, 2, v);
  }
}
