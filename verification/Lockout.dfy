/** Counting the active holders of the recovery scope, and refusing a change that leaves none. */
module Lockout {
  import opened Results
  import opened Directory
  import opened Delegation

  const RECOVERY_SCOPE := "admin:grants:write"

  /** Ids of scopes with that value; at most one, the value being unique. */
  function RecoveryIds(db: Db): set<Id> {
    set s | s in db.scopes && db.scopes[s].value == RECOVERY_SCOPE
  }

  // The sub-queries, nested as the statement nests them.

  function GrantingRoles(db: Db, scope: Id): set<Id> {
    set p | p in db.roleScopes && p.1 == scope :: p.0
  }

  function GrantingGroups(db: Db, scope: Id): set<Id> {
    set p | p in db.groupRoles && p.1 in GrantingRoles(db, scope) :: p.0
  }

  function HoldersByQuery(db: Db, scope: Id): set<Id> {
    var direct := set p | p in db.userScopes && p.1 == scope :: p.0;
    var byRole := set p | p in db.userRoles && p.1 in GrantingRoles(db, scope) :: p.0;
    var byGroup := set p | p in db.userGroups && p.1 in GrantingGroups(db, scope) :: p.0;
    set u | u in db.users && db.users[u].isActive && (u in direct || u in byRole || u in byGroup)
  }

  function AdministratorsRemaining(db: Db): int {
    var ids := RecoveryIds(db);
    if ids == {} then -1
    else
      var holders := set u, s | s in ids && u in HoldersByQuery(db, s) :: u;
      |holders|
  }

  /** Refuses only a count of zero: a missing catalogue (-1) passes. */
  function RefuseIfLast(db: Db): Check<Error> {
    Need(AdministratorsRemaining(db) != 0, WouldLockEveryoneOut)
  }

  /** The same people, found through `ScopesOfUser`: the delegation rule's own reading. */
  function Administrators(db: Db): set<Id> {
    set u, s | u in db.users && db.users[u].isActive && s in RecoveryIds(db) && s in ScopesOfUser(db, u) :: u
  }

  lemma QueryFindsExactlyTheHolders(db: Db, scope: Id, user: Id)
    ensures user in HoldersByQuery(db, scope)
      <==> user in db.users && db.users[user].isActive && scope in ScopesOfUser(db, user)
  {
    HoldsExactlyWhatReaches(db, user, scope);
    if user in HoldersByQuery(db, scope) {
      if p :| p in db.userRoles && p.0 == user && p.1 in GrantingRoles(db, scope) {
        var q :| q in db.roleScopes && q.1 == scope && q.0 == p.1;
        assert (user, p.1) in db.userRoles && (p.1, scope) in db.roleScopes;
      } else if p :| p in db.userGroups && p.0 == user && p.1 in GrantingGroups(db, scope) {
        var q :| q in db.groupRoles && q.0 == p.1 && q.1 in GrantingRoles(db, scope);
        var r :| r in db.roleScopes && r.1 == scope && r.0 == q.1;
        assert (user, p.1) in db.userGroups && (p.1, q.1) in db.groupRoles && (q.1, scope) in db.roleScopes;
      } else {
        assert (user, scope) in db.userScopes;
      }
    }
    if Reaches(db, user, scope) && user in db.users && db.users[user].isActive {
      if (user, scope) in db.userScopes {
        assert (user, scope).0 == user;
      } else if role :| (user, role) in db.userRoles && (role, scope) in db.roleScopes {
        assert (role, scope).0 in GrantingRoles(db, scope);
        assert (user, role).1 in GrantingRoles(db, scope);
      } else {
        var group, role :|
          (user, group) in db.userGroups && (group, role) in db.groupRoles && (role, scope) in db.roleScopes;
        assert (role, scope).0 in GrantingRoles(db, scope);
        assert (group, role).0 in GrantingGroups(db, scope);
        assert (user, group).1 in GrantingGroups(db, scope);
      }
    }
  }

  /** The count is of distinct active holders, however many paths reach each, and
    * is -1 exactly when the catalogue has no such scope. */
  lemma CountsEachAdministratorOnce(db: Db)
    ensures AdministratorsRemaining(db) == if ScopeValued(db, RECOVERY_SCOPE) then |Administrators(db)| else -1
    ensures AdministratorsRemaining(db) == -1 <==> !ScopeValued(db, RECOVERY_SCOPE)
    ensures AdministratorsRemaining(db) == 0 <==> ScopeValued(db, RECOVERY_SCOPE) && Administrators(db) == {}
  {
    var ids := RecoveryIds(db);
    assert ids == {} <==> !ScopeValued(db, RECOVERY_SCOPE) by {
      if s :| s in db.scopes && db.scopes[s].value == RECOVERY_SCOPE {
        assert s in ids;
      }
    }
    forall u, s | s in ids
      ensures u in HoldersByQuery(db, s) <==> u in db.users && db.users[u].isActive && s in ScopesOfUser(db, u)
    {
      QueryFindsExactlyTheHolders(db, s, u);
    }
    assert (set u, s | s in ids && u in HoldersByQuery(db, s) :: u) == Administrators(db);
  }
}
