/** Each of the nine operations that ask the lockout guard has to. */
module Guards {
  import opened Results
  import opened Directory
  import opened Delegation
  import opened Lockout
  import opened Requests
  import opened Administration
  import opened Recovery

  const IDEN := Api("iden", "iden", "", true)
  const RECOVERY := Scope(0, RECOVERY_SCOPE, "", true)
  const STAFF := Role("staff", "", false)
  const TEAM := Group("team", "")
  const ONLY := User("only", "only", true)

  /** One administrator, number 4, and these links of theirs, of group 3 and of role 2. */
  function OneAdministrator(scopes: set<(Id, Id)>, roles: set<(Id, Id)>, groups: set<(Id, Id)>): Db {
    Db(map[0 := IDEN], map[1 := RECOVERY], map[2 := STAFF], map[3 := TEAM], map[4 := ONLY], map[],
       scopes, roles, groups, {(3, 2)}, {(2, 1)}, map[], 5)
  }

  const BY_THEMSELVES := OneAdministrator({(4, 1)}, {}, {})
  const BY_ROLE := OneAdministrator({}, {(4, 2)}, {})
  const BY_GROUP := OneAdministrator({}, {}, {(4, 3)})

  /** A client's own token that carries all there is. */
  const EVERYTHING := Token(None, {"admin:grants:write", "admin:users:write", "admin:groups:write",
                                   "admin:roles:write"})

  /** Somebody can recover the deployment, nothing but the guard speaks against the request, and
    * after it nobody could. */
  ghost predicate WouldLockOut(db: Db, op: Op) {
    && Recoverable(db)
    && Change(BOTH, op, EVERYTHING, db).Success? && LockedOut(Change(BOTH, op, EVERYTHING, db).value)
  }

  lemma IsSound(scopes: set<(Id, Id)>, roles: set<(Id, Id)>, groups: set<(Id, Id)>)
    requires scopes <= {(4, 1)} && roles <= {(4, 2)} && groups <= {(4, 3)}
    ensures Sound(OneAdministrator(scopes, roles, groups))
  {
  }

  lemma IsRecoverable(scopes: set<(Id, Id)>, roles: set<(Id, Id)>, groups: set<(Id, Id)>)
    requires scopes <= {(4, 1)} && roles <= {(4, 2)} && groups <= {(4, 3)}
    requires scopes != {} || roles != {} || groups != {}
    ensures Recoverable(OneAdministrator(scopes, roles, groups))
  {
    var db := OneAdministrator(scopes, roles, groups);
    IsSound(scopes, roles, groups);
    ReachesRecovery(scopes, roles, groups);
    HoldsExactlyWhatReaches(db, 4, 1);
    assert db.scopes[1] == RECOVERY && 1 in RecoveryIds(db);
    assert 4 in Administrators(db);
  }

  lemma ReachesRecovery(scopes: set<(Id, Id)>, roles: set<(Id, Id)>, groups: set<(Id, Id)>)
    requires scopes <= {(4, 1)} && roles <= {(4, 2)} && groups <= {(4, 3)}
    requires scopes != {} || roles != {} || groups != {}
    ensures Reaches(OneAdministrator(scopes, roles, groups), 4, 1)
  {
    var db := OneAdministrator(scopes, roles, groups);
    assert (2, 1) in db.roleScopes && (3, 2) in db.groupRoles;
    if scopes != {} {
      var p :| p in scopes;
      assert (4, 1) in db.userScopes;
    } else if roles != {} {
      var p :| p in roles;
      assert (4, 2) in db.userRoles;
    } else {
      var p :| p in groups;
      assert (4, 3) in db.userGroups;
    }
  }

  /** Where nobody active reaches the only scope, everybody is locked out. */
  lemma NobodyLeft(db: Db)
    requires db.scopes == map[1 := RECOVERY]
    requires forall u :: u in db.users && db.users[u].isActive ==> !Reaches(db, u, 1)
    ensures LockedOut(db)
  {
    assert 1 in db.scopes && db.scopes[1].value == RECOVERY_SCOPE;
    forall u | u in db.users && db.users[u].isActive ensures 1 !in ScopesOfUser(db, u) {
      HoldsExactlyWhatReaches(db, u, 1);
    }
  }

  /** What it carries is not outranked, and nothing is beyond it. */
  lemma NothingIsBeyond(db: Db, ids: set<Id>)
    requires db.scopes == map[1 := RECOVERY]
    ensures Restricted(db, ids) - EVERYTHING.scopes == {}
  {
  }

  lemma MayChange(scopes: set<(Id, Id)>, roles: set<(Id, Id)>, groups: set<(Id, Id)>)
    ensures var db := OneAdministrator(scopes, roles, groups);
            && GetUserToModify(BOTH, db, 4, EVERYTHING) == Holds
            && forall ids :: RefuseUndelegatable(BOTH, EVERYTHING.scopes, db, ids) == Holds
  {
    var db := OneAdministrator(scopes, roles, groups);
    forall ids ensures Restricted(db, ids) - EVERYTHING.scopes == {} {
      NothingIsBeyond(db, ids);
    }
  }

  lemma ByThemselves()
    ensures WouldLockOut(BY_THEMSELVES, OnUsers(SetDirectScopes(4, {})))
  {
    IsRecoverable({(4, 1)}, {}, {});
    NoDirectScopesLeft();
  }

  lemma NoDirectScopesLeft()
    ensures var changed := Change(BOTH, OnUsers(SetDirectScopes(4, {})), EVERYTHING, BY_THEMSELVES);
            changed.Success? && LockedOut(changed.value)
  {
    MayChange({(4, 1)}, {}, {});
    var after := BY_THEMSELVES.(userScopes := Relinked(BY_THEMSELVES.userScopes, 4, {}));
    assert ChangeUsers(BOTH, SetDirectScopes(4, {}), EVERYTHING, BY_THEMSELVES) == Success(after);
    NobodyLeft(after);
  }

  lemma ByRole()
    ensures WouldLockOut(BY_ROLE, OnUsers(SetRoles(4, {})))
  {
    IsRecoverable({}, {(4, 2)}, {});
    MayChange({}, {(4, 2)}, {});
    NobodyLeft(Change(BOTH, OnUsers(SetRoles(4, {})), EVERYTHING, BY_ROLE).value);
  }

  /** Closing the account, and everything that breaks the one path from it to the scope. */
  predicate BreaksThePath(op: Op) {
    || op == OnUsers(UpdateUser(4, None, Some(false))) || op == OnUsers(DeleteUser(4))
    || op == OnGroups(SetGroupRoles(3, {})) || op == OnGroups(RemoveMember(3, 4)) || op == OnGroups(DeleteGroup(3))
    || op == OnRoles(SetRoleScopes(2, {})) || op == OnRoles(DeleteRole(2, true))
  }

  lemma NothingSpeaksAgainst(op: Op)
    requires BreaksThePath(op)
    ensures Change(BOTH, op, EVERYTHING, BY_GROUP).Success?
  {
    MayChange({}, {}, {(4, 3)});
  }

  lemma PathIsBroken(op: Op, after: Db)
    requires BreaksThePath(op) && Achieves(op, BY_GROUP, after)
    ensures LockedOut(after)
  {
    assert after.scopes == map[1 := RECOVERY];
    NobodyLeft(after);
  }

  lemma ByGroup(op: Op)
    requires BreaksThePath(op)
    ensures WouldLockOut(BY_GROUP, op)
  {
    IsRecoverable({}, {}, {(4, 3)});
    NothingSpeaksAgainst(op);
    RequestsDoWhatIsAsked(BOTH, op, EVERYTHING, BY_GROUP);
    PathIsBroken(op, Change(BOTH, op, EVERYTHING, BY_GROUP).value);
  }

  predicate SameKindOfUserOp(a: UserOp, b: UserOp) {
    match a
    case CreateUser(_, _, _, _) => b.CreateUser?
    case UpdateUser(_, _, active) => b.UpdateUser? && (active == Some(false) <==> b.active == Some(false))
    case SetRoles(_, _) => b.SetRoles?
    case SetDirectScopes(_, _) => b.SetDirectScopes?
    case ResetPassword(_) => b.ResetPassword?
    case ClearTotp(_) => b.ClearTotp?
    case ClearFace(_) => b.ClearFace?
    case DeleteUser(_) => b.DeleteUser?
  }

  predicate SameKindOfGroupOp(a: GroupOp, b: GroupOp) {
    match a
    case CreateGroup(_, _) => b.CreateGroup?
    case UpdateGroup(_, _, _) => b.UpdateGroup?
    case SetGroupRoles(_, _) => b.SetGroupRoles?
    case AddMembers(_, _) => b.AddMembers?
    case RemoveMember(_, _) => b.RemoveMember?
    case DeleteGroup(_) => b.DeleteGroup?
  }

  predicate SameKindOfRoleOp(a: RoleOp, b: RoleOp) {
    match a
    case CreateRole(_, _, _) => b.CreateRole?
    case UpdateRole(_, _, _) => b.UpdateRole?
    case SetRoleScopes(_, _) => b.SetRoleScopes?
    case DeleteRole(_, _) => b.DeleteRole?
  }

  /** The same kind of operation; closing an account is another kind of update than the rest. */
  predicate SameKind(a: Op, b: Op) {
    match a
    case OnUsers(u) => b.OnUsers? && SameKindOfUserOp(u, b.u)
    case OnGroups(g) => b.OnGroups? && SameKindOfGroupOp(g, b.g)
    case OnRoles(r) => b.OnRoles? && SameKindOfRoleOp(r, b.r)
    case OnCatalogue(_) => b.OnCatalogue?
  }

  /** A request of the same kind that takes the only administrator's scope away. */
  function TakesAway(op: Op): Op {
    match op
    case OnUsers(UpdateUser(_, _, _)) => OnUsers(UpdateUser(4, None, Some(false)))
    case OnUsers(DeleteUser(_)) => OnUsers(DeleteUser(4))
    case OnUsers(SetRoles(_, _)) => OnUsers(SetRoles(4, {}))
    case OnUsers(SetDirectScopes(_, _)) => OnUsers(SetDirectScopes(4, {}))
    case OnGroups(SetGroupRoles(_, _)) => OnGroups(SetGroupRoles(3, {}))
    case OnGroups(RemoveMember(_, _)) => OnGroups(RemoveMember(3, 4))
    case OnGroups(DeleteGroup(_)) => OnGroups(DeleteGroup(3))
    case OnRoles(SetRoleScopes(_, _)) => OnRoles(SetRoleScopes(2, {}))
    case OnRoles(DeleteRole(_, _)) => OnRoles(DeleteRole(2, true))
    case _ => op
  }

  lemma TakesAwayAlike(op: Op)
    requires LockoutGuarded(op)
    ensures SameKind(op, TakesAway(op))
    ensures || BreaksThePath(TakesAway(op))
            || TakesAway(op) == OnUsers(SetRoles(4, {})) || TakesAway(op) == OnUsers(SetDirectScopes(4, {}))
  {
  }

  lemma GuardIsNeeded(op: Op) returns (db: Db)
    requires LockoutGuarded(op)
    ensures SameKind(op, TakesAway(op)) && WouldLockOut(db, TakesAway(op))
  {
    TakesAwayAlike(op);
    if BreaksThePath(TakesAway(op)) {
      db := BY_GROUP;
      ByGroup(TakesAway(op));
    } else if TakesAway(op) == OnUsers(SetRoles(4, {})) {
      db := BY_ROLE;
      ByRole();
    } else {
      db := BY_THEMSELVES;
      ByThemselves();
    }
  }

  lemma UnguardedLocksNobodyOut(db: Db, op: Op)
    requires !LockoutGuarded(op)
    ensures !WouldLockOut(db, op)
  {
    if WouldLockOut(db, op) {
      UnguardedRequestsLoseNobody(BOTH, op, EVERYTHING, db);
    }
  }

  lemma SameKindSameGuard(a: Op, b: Op)
    requires SameKind(a, b)
    ensures LockoutGuarded(a) <==> LockoutGuarded(b)
  {
  }

  /** The guard is asked by exactly those kinds of operations that could lock everybody out. */
  lemma GuardedExactlyWhereNeeded(op: Op)
    ensures LockoutGuarded(op) <==> exists db, other :: SameKind(op, other) && WouldLockOut(db, other)
  {
    if LockoutGuarded(op) {
      var db := GuardIsNeeded(op);
    } else {
      forall db, other | SameKind(op, other) ensures !WouldLockOut(db, other) {
        SameKindSameGuard(op, other);
        UnguardedLocksNobodyOut(db, other);
      }
    }
  }
}
