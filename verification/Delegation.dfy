/** What a person holds, which of it is restricted, and the two checks made against a token. */
module Delegation {
  import opened Results
  import opened Directory

  const RESTRICTED_PREFIXES: set<string> := {"admin", "biometric"}

  datatype Error =
    | MissingScope(required: string)
    | NotFound
    | Unknown(missing: set<Id>)
    | Taken
    | SystemImmutable
    | InUse
    | OwnAccount
    | CannotDelegate(beyond: set<string>)
    | CannotAdminister(beyond: set<string>)
    | WouldLockEveryoneOut

  // ---- What a person holds ----

  function ScopesOfRoles(db: Db, roles: set<Id>): set<Id> {
    set p | p in db.roleScopes && p.0 in roles :: p.1
  }

  function RolesOfGroups(db: Db, groups: set<Id>): set<Id> {
    set p | p in db.groupRoles && p.0 in groups :: p.1
  }

  /** The scopes bundled by any role of any of these groups. */
  function ScopesOfGroups(db: Db, groups: set<Id>): set<Id> {
    ScopesOfRoles(db, RolesOfGroups(db, groups))
  }

  /** The union over the three kinds of link a person has. */
  function ScopesOfUser(db: Db, user: Id): set<Id> {
    Linked(db.userScopes, user)
    + ScopesOfRoles(db, Linked(db.userRoles, user))
    + ScopesOfGroups(db, Linked(db.userGroups, user))
  }

  /** The three ways a scope reaches a person, as paths through the join tables. */
  ghost predicate Reaches(db: Db, user: Id, scope: Id) {
    || (user, scope) in db.userScopes
    || (exists role :: (user, role) in db.userRoles && (role, scope) in db.roleScopes)
    || (exists group, role ::
          (user, group) in db.userGroups && (group, role) in db.groupRoles && (role, scope) in db.roleScopes)
  }

  lemma HoldsExactlyWhatReaches(db: Db, user: Id, scope: Id)
    ensures scope in ScopesOfUser(db, user) <==> Reaches(db, user, scope)
  {
    if scope in ScopesOfUser(db, user) {
      if scope in Linked(db.userScopes, user) {
        assert (user, scope) in db.userScopes;
      } else if scope in ScopesOfRoles(db, Linked(db.userRoles, user)) {
        var p :| p in db.roleScopes && p.0 in Linked(db.userRoles, user) && p.1 == scope;
        assert (user, p.0) in db.userRoles && (p.0, scope) in db.roleScopes;
      } else {
        var groups := Linked(db.userGroups, user);
        var p :| p in db.roleScopes && p.0 in RolesOfGroups(db, groups) && p.1 == scope;
        var q :| q in db.groupRoles && q.0 in groups && q.1 == p.0;
        assert (user, q.0) in db.userGroups && (q.0, p.0) in db.groupRoles && (p.0, scope) in db.roleScopes;
      }
    }
    if (user, scope) in db.userScopes {
      assert (user, scope).1 in Linked(db.userScopes, user);
    }
    forall role | (user, role) in db.userRoles && (role, scope) in db.roleScopes
      ensures scope in ScopesOfUser(db, user)
    {
      assert (user, role).1 in Linked(db.userRoles, user);
      assert (role, scope).1 in ScopesOfRoles(db, Linked(db.userRoles, user));
    }
    forall group, role | (user, group) in db.userGroups && (group, role) in db.groupRoles
        && (role, scope) in db.roleScopes
      ensures scope in ScopesOfUser(db, user)
    {
      var groups := Linked(db.userGroups, user);
      assert (user, group).1 in groups;
      assert (group, role).1 in RolesOfGroups(db, groups);
      assert (role, scope).1 in ScopesOfGroups(db, groups);
    }
  }

  // ---- Which of it is restricted ----

  /** `value.split(":")[0]`. */
  function Prefix(value: string): string {
    if value == "" || value[0] == ':' then "" else [value[0]] + Prefix(value[1..])
  }

  lemma {:induction false} PrefixEndsAtTheColon(p: string, rest: string)
    requires ':' !in p
    ensures Prefix(p + ":" + rest) == p
  {
    var value := p + ":" + rest;
    if p == "" {
      assert value[0] == ':';
    } else {
      assert value[0] == p[0] && value[1..] == p[1..] + ":" + rest;
      PrefixEndsAtTheColon(p[1..], rest);
    }
  }

  /** A value has the prefix `p` exactly when it is `p`, or `p` and a colon and anything. */
  lemma {:induction false} PrefixIs(p: string, value: string)
    requires ':' !in p
    ensures Prefix(value) == p <==> value == p || p + ":" <= value
  {
    if value != "" && value[0] != ':' {
      if p != "" && p[0] == value[0] {
        PrefixIs(p[1..], value[1..]);
        assert p == [p[0]] + p[1..] && value == [value[0]] + value[1..];
        assert p + ":" <= value <==> p[1..] + ":" <= value[1..];
      }
    }
  }

  predicate IsRestricted(scope: Scope) {
    scope.isSystem && Prefix(scope.value) in RESTRICTED_PREFIXES
  }

  /** The values of the restricted scopes among `ids`. */
  function Restricted(db: Db, ids: set<Id>): set<string> {
    set s | s in ids && s in db.scopes && IsRestricted(db.scopes[s]) :: db.scopes[s].value
  }

  /** Every value a person's token may carry. */
  function EffectiveValues(db: Db, user: Id): set<string> {
    set s | s in ScopesOfUser(db, user) && s in db.scopes :: db.scopes[s].value
  }

  // ---- The two rules. Either can be switched off, to show that it is needed. ----

  datatype Rules = Rules(granting: bool, borrowing: bool)

  const BOTH := Rules(true, true)

  function RefuseUndelegatable(rules: Rules, caller: set<string>, db: Db, conferring: set<Id>): Check<Error> {
    var beyond := Restricted(db, conferring) - caller;
    Need(!rules.granting || beyond == {}, CannotDelegate(beyond))
  }

  function RefuseIfOutranked(rules: Rules, caller: set<string>, db: Db, target: Id): Check<Error> {
    var beyond := Restricted(db, ScopesOfUser(db, target)) - caller;
    Need(!rules.borrowing || beyond == {}, CannotAdminister(beyond))
  }
}
