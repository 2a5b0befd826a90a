/** Who may do what on a repository: the early-exit resolver, against the plain maximum of all grants. */
module Permissions {
  import opened Wrappers

  datatype Level = Read | Triage | Write | Maintain | Admin
  datatype Role = OrgOwner | OrgAdmin | OrgMember
  datatype Visibility = Public | Private | Internal

  datatype Repository = Repository(id: nat, ownerUser: Option<nat>, ownerOrg: Option<nat>, visibility: Visibility)
  datatype Membership = Membership(org: nat, user: nat, role: Role)
  datatype Collaborator = Collaborator(repo: nat, user: nat, level: Level)
  datatype TeamMember = TeamMember(team: nat, user: nat)
  datatype TeamGrant = TeamGrant(team: nat, repo: nat, level: Level)

  /** The rows of the four tables, in whatever order the database returns them. */
  datatype Database = Database(
    members: seq<Membership>,
    collaborators: seq<Collaborator>,
    teamMembers: seq<TeamMember>,
    teamGrants: seq<TeamGrant>)

  function Rank(l: Level): nat {
    match l
    case Read => 1
    case Triage => 2
    case Write => 3
    case Maintain => 4
    case Admin => 5
  }

  // The levels in their order, the lowest first.
  const LEVELS := [Read, Triage, Write, Maintain, Admin]

  /** `l` comes no earlier among the levels than `m`. */
  ghost predicate AtLeast(l: Level, m: Level) {
    exists i, j :: 0 <= i <= j < |LEVELS| && LEVELS[i] == m && LEVELS[j] == l
  }

  lemma RankIsTheOrder(l: Level, m: Level)
    ensures Rank(l) >= Rank(m) <==> AtLeast(l, m)
  {
    assert LEVELS[0] == Read && LEVELS[1] == Triage && LEVELS[2] == Write && LEVELS[3] == Maintain && LEVELS[4] == Admin;
    var i, j := Rank(m) - 1, Rank(l) - 1;
    assert LEVELS[i] == m && LEVELS[j] == l;
  }

  lemma RanksAreTheOrder()
    ensures forall l, m :: Rank(l) >= Rank(m) <==> AtLeast(l, m)
  {
    forall l, m ensures Rank(l) >= Rank(m) <==> AtLeast(l, m) {
      RankIsTheOrder(l, m);
    }
  }

  function OptionRank(l: Option<Level>): nat {
    if l.Some? then Rank(l.value) else 0
  }

  function MaxLevel(a: Option<Level>, b: Option<Level>): Option<Level> {
    if a.None? then b
    else if b.None? then a
    else if Rank(a.value) >= Rank(b.value) then a
    else b
  }

  // ----- Every grant there is -----

  ghost predicate IsOrgAdmin(db: Database, user: nat, repo: Repository) {
    exists m :: m in db.members && repo.ownerOrg == Some(m.org) && m.user == user && m.role != OrgMember
  }

  ghost predicate TeamGrants(db: Database, user: nat, repo: Repository, l: Level) {
    exists g :: g in db.teamGrants && g.repo == repo.id && g.level == l && TeamMember(g.team, user) in db.teamMembers
  }

  // Some rule gives the caller level `l`.
  ghost predicate Granted(db: Database, user: Option<nat>, repo: Repository, l: Level) {
    || (user.Some? && repo.ownerUser == user && l == Admin)
    || (user.Some? && IsOrgAdmin(db, user.value, repo) && l == Admin)
    || (user.Some? && Collaborator(repo.id, user.value, l) in db.collaborators)
    || (user.Some? && TeamGrants(db, user.value, repo, l))
    || (repo.visibility == Public && l == Read)
    || (repo.visibility == Internal && user.Some? && l == Read)
  }

  ghost predicate IsHighestGrant(db: Database, user: Option<nat>, repo: Repository, r: Option<Level>) {
    && (r.Some? ==> Granted(db, user, repo, r.value))
    && forall l :: Granted(db, user, repo, l) ==> r.Some? && AtLeast(r.value, l)
  }

  // ----- The queries -----

  function AdminRoles(members: seq<Membership>, org: nat, user: nat): (r: seq<Role>)
    ensures r != [] <==> exists m :: m in members && m.org == org && m.user == user && m.role != OrgMember
  {
    if members == [] then []
    else
      var m := members[0];
      assert members == [m] + members[1..];
      if m.org == org && m.user == user && m.role != OrgMember then [m.role] + AdminRoles(members[1..], org, user)
      else AdminRoles(members[1..], org, user)
  }

  function CollaboratorLevels(rows: seq<Collaborator>, repo: nat, user: nat): (r: seq<Level>)
    ensures forall l :: l in r <==> Collaborator(repo, user, l) in rows
    ensures r != [] <==> exists c :: c in rows && c.repo == repo && c.user == user
  {
    if rows == [] then []
    else
      var c := rows[0];
      assert rows == [c] + rows[1..];
      if c.repo == repo && c.user == user then [c.level] + CollaboratorLevels(rows[1..], repo, user)
      else CollaboratorLevels(rows[1..], repo, user)
  }

  function TeamLevels(db: Database, rows: seq<TeamGrant>, repo: nat, user: nat): (r: seq<Level>)
    ensures forall l :: l in r <==>
      exists g :: g in rows && g.repo == repo && g.level == l && TeamMember(g.team, user) in db.teamMembers
  {
    if rows == [] then []
    else
      var g := rows[0];
      assert rows == [g] + rows[1..];
      if g.repo == repo && TeamMember(g.team, user) in db.teamMembers then [g.level] + TeamLevels(db, rows[1..], repo, user)
      else TeamLevels(db, rows[1..], repo, user)
  }

  // ----- The resolver -----

  /** What a call ends in: a level or none, or the database error for several rows where one was expected. */
  datatype Resolution = Resolved(level: Option<Level>) | MultipleRows

  // The queries that expect at most one row find several, before the caller is known to be an admin.
  predicate ReadsSeveralRows(db: Database, user: Option<nat>, repo: Repository) {
    user.Some? && repo.ownerUser != user
    && var roles := if repo.ownerOrg.Some? then AdminRoles(db.members, repo.ownerOrg.value, user.value) else [];
       |roles| > 1 || (roles == [] && |CollaboratorLevels(db.collaborators, repo.id, user.value)| > 1)
  }

  // The call ends in `r`: the highest of all grants, or the error exactly when it reads several rows.
  ghost predicate Resolves(db: Database, user: Option<nat>, repo: Repository, r: Resolution) {
    && (r.MultipleRows? <==> ReadsSeveralRows(db, user, repo))
    && (r.Resolved? ==> IsHighestGrant(db, user, repo, r.level))
  }

  method ResolvePermission(db: Database, user: Option<nat>, repo: Repository) returns (r: Resolution)
    ensures Resolves(db, user, repo, r)
  {
    RanksAreTheOrder();
    hide AtLeast;
    if user.Some? && repo.ownerUser == user {
      return Resolved(Some(Admin));
    }
    var effective: Option<Level> := None;
    if user.Some? && repo.ownerOrg.Some? {
      var roles := AdminRoles(db.members, repo.ownerOrg.value, user.value);
      if |roles| > 1 {
        return MultipleRows;
      }
      if |roles| == 1 {
        return Resolved(Some(Admin));
      }
    }
    if user.Some? {
      var levels := CollaboratorLevels(db.collaborators, repo.id, user.value);
      if |levels| > 1 {
        return MultipleRows;
      }
      effective := MaxLevel(effective, if |levels| == 1 then Some(levels[0]) else None);
      var grants := TeamLevels(db, db.teamGrants, repo.id, user.value);
      for i := 0 to |grants|
        invariant forall l :: l in levels || l in grants[..i] ==> Rank(l) <= OptionRank(effective)
        invariant effective.Some? ==> effective.value in levels || effective.value in grants[..i]
      {
        effective := MaxLevel(effective, Some(grants[i]));
      }
      assert forall l :: l in grants <==> TeamGrants(db, user.value, repo, l);
      if effective.Some? {
        return Resolved(effective);
      }
    }
    if repo.visibility == Public {
      return Resolved(Some(Read));
    }
    if repo.visibility == Internal && user.Some? {
      return Resolved(Some(Read));
    }
    assert forall l :: Granted(db, user, repo, l) ==> Rank(l) <= 0;
    return Resolved(None);
  }

  datatype Access = Allowed(level: Level) | Unauthorized | Denied | Failed

  /** Allowed if and only if some grant reaches the minimum; the refusal tells an anonymous caller to log in. */
  method AssertPermission(db: Database, user: Option<nat>, repo: Repository, minimum: Level) returns (a: Access)
    ensures a.Failed? <==> ReadsSeveralRows(db, user, repo)
    ensures !a.Failed? ==> (a.Allowed? <==> exists l :: Granted(db, user, repo, l) && AtLeast(l, minimum))
    ensures a.Allowed? ==> IsHighestGrant(db, user, repo, Some(a.level))
    ensures !a.Failed? && !a.Allowed? ==> (a.Unauthorized? <==> user.None?)
  {
    RanksAreTheOrder();
    hide AtLeast;
    var resolution := ResolvePermission(db, user, repo);
    if resolution.MultipleRows? {
      return Failed;
    }
    var resolved := resolution.level;
    if resolved.None? || Rank(resolved.value) < Rank(minimum) {
      return if user.None? then Unauthorized else Denied;
    }
    return Allowed(resolved.value);
  }

  // ----- The database constraints -----

  // The unique constraints on (organization, user) and (repository, user).
  ghost predicate Constrained(db: Database) {
    && (forall i, j :: 0 <= i < j < |db.members| ==>
          db.members[i].org != db.members[j].org || db.members[i].user != db.members[j].user)
    && (forall i, j :: 0 <= i < j < |db.collaborators| ==>
          db.collaborators[i].repo != db.collaborators[j].repo || db.collaborators[i].user != db.collaborators[j].user)
  }

  lemma {:induction false} OneAdminRole(members: seq<Membership>, org: nat, user: nat)
    requires forall i, j :: 0 <= i < j < |members| ==> members[i].org != members[j].org || members[i].user != members[j].user
    ensures |AdminRoles(members, org, user)| <= 1
    decreases |members|
  {
    if members != [] {
      var rest := members[1..];
      OneAdminRole(rest, org, user);
      assert forall k :: 0 <= k < |rest| ==> rest[k] == members[k + 1];
    }
  }

  lemma {:induction false} OneCollaborator(rows: seq<Collaborator>, repo: nat, user: nat)
    requires forall i, j :: 0 <= i < j < |rows| ==> rows[i].repo != rows[j].repo || rows[i].user != rows[j].user
    ensures |CollaboratorLevels(rows, repo, user)| <= 1
    decreases |rows|
  {
    if rows != [] {
      var rest := rows[1..];
      OneCollaborator(rest, repo, user);
      assert forall k :: 0 <= k < |rest| ==> rest[k] == rows[k + 1];
    }
  }

  // Two rows of the table satisfy `p`.
  ghost predicate Twice<T(!new)>(rows: seq<T>, p: T -> bool) {
    exists i, j :: 0 <= i < j < |rows| && p(rows[i]) && p(rows[j])
  }

  lemma {:induction false} SeveralRoles(members: seq<Membership>, org: nat, user: nat)
    ensures |AdminRoles(members, org, user)| > 1
       <==> Twice(members, (m: Membership) => m.org == org && m.user == user && m.role != OrgMember)
    decreases |members|
  {
    if members != [] {
      var rest := members[1..];
      SeveralRoles(rest, org, user);
      assert forall k :: 0 <= k < |rest| ==> rest[k] == members[k + 1];
    }
  }

  lemma {:induction false} SeveralLevels(rows: seq<Collaborator>, repo: nat, user: nat)
    ensures |CollaboratorLevels(rows, repo, user)| > 1
       <==> Twice(rows, (c: Collaborator) => c.repo == repo && c.user == user)
    decreases |rows|
  {
    if rows != [] {
      var rest := rows[1..];
      SeveralLevels(rest, repo, user);
      assert forall k :: 0 <= k < |rest| ==> rest[k] == rows[k + 1];
    }
  }

  /**
   The error for several rows: a caller who is not the owner has two admin rows in the owning organization, or
   none and two collaborator rows.
   */
  lemma ReadsSeveralRowsIff(db: Database, user: Option<nat>, repo: Repository)
    ensures ReadsSeveralRows(db, user, repo) <==>
      && user.Some? && repo.ownerUser != user
      && var admin := (m: Membership) => repo.ownerOrg == Some(m.org) && m.user == user.value && m.role != OrgMember;
         || Twice(db.members, admin)
         || ((forall m :: m in db.members ==> !admin(m))
             && Twice(db.collaborators, (c: Collaborator) => c.repo == repo.id && c.user == user.value))
  {
    if user.Some? {
      if repo.ownerOrg.Some? {
        SeveralRoles(db.members, repo.ownerOrg.value, user.value);
      }
      SeveralLevels(db.collaborators, repo.id, user.value);
    }
  }

  /** With the constraints in force the resolver never meets several rows. */
  lemma ConstraintsSuffice(db: Database, user: Option<nat>, repo: Repository)
    requires Constrained(db)
    ensures !ReadsSeveralRows(db, user, repo)
  {
    if user.Some? {
      if repo.ownerOrg.Some? {
        OneAdminRole(db.members, repo.ownerOrg.value, user.value);
      }
      OneCollaborator(db.collaborators, repo.id, user.value);
    }
  }

  // ----- Order and growth of the tables -----

  // The same rows, perhaps in another order.
  ghost predicate SameRows(db: Database, db': Database) {
    && multiset(db.members) == multiset(db'.members)
    && multiset(db.collaborators) == multiset(db'.collaborators)
    && multiset(db.teamMembers) == multiset(db'.teamMembers)
    && multiset(db.teamGrants) == multiset(db'.teamGrants)
  }

  lemma SameElements<T>(s: seq<T>, t: seq<T>)
    requires multiset(s) == multiset(t)
    ensures forall x :: x in s ==> x in t
  {
    forall x | x in s ensures x in t {
      assert x in multiset(t);
    }
  }

  // Every row of `db` has a row in `db'` that gives at least as much.
  ghost predicate NoLess(db: Database, db': Database) {
    && (forall m :: m in db.members ==>
          exists n :: n in db'.members && n.org == m.org && n.user == m.user && (m.role != OrgMember ==> n.role != OrgMember))
    && (forall c :: c in db.collaborators ==>
          exists d :: d in db'.collaborators && d.repo == c.repo && d.user == c.user && Rank(c.level) <= Rank(d.level))
    && (forall t :: t in db.teamMembers ==> t in db'.teamMembers)
    && (forall g :: g in db.teamGrants ==>
          exists h :: h in db'.teamGrants && h.team == g.team && h.repo == g.repo && Rank(g.level) <= Rank(h.level))
  }

  predicate NoNarrower(v: Visibility, v': Visibility) {
    v == Private || v == v' || v' == Public
  }

  lemma GrantSurvives(db: Database, db': Database, user: Option<nat>, repo: Repository, v: Visibility, l: Level) returns (l': Level)
    requires NoLess(db, db') && NoNarrower(repo.visibility, v) && Granted(db, user, repo, l)
    ensures Granted(db', user, repo.(visibility := v), l') && Rank(l) <= Rank(l')
  {
    l' := l;
    if user.Some? {
      if repo.ownerUser == user {
        l' := Admin;
      } else if IsOrgAdmin(db, user.value, repo) && l == Admin {
        var m :| m in db.members && repo.ownerOrg == Some(m.org) && m.user == user.value && m.role != OrgMember;
        var n :| n in db'.members && n.org == m.org && n.user == m.user && n.role != OrgMember;
        assert IsOrgAdmin(db', user.value, repo.(visibility := v));
      } else if Collaborator(repo.id, user.value, l) in db.collaborators {
        var d :| d in db'.collaborators && d.repo == repo.id && d.user == user.value && Rank(l) <= Rank(d.level);
        l' := d.level;
        assert d == Collaborator(repo.id, user.value, l');
      } else if TeamGrants(db, user.value, repo, l) {
        var g :| g in db.teamGrants && g.repo == repo.id && g.level == l && TeamMember(g.team, user.value) in db.teamMembers;
        var h :| h in db'.teamGrants && h.team == g.team && h.repo == g.repo && Rank(l) <= Rank(h.level);
        l' := h.level;
        assert TeamGrants(db', user.value, repo.(visibility := v), l');
      }
    }
  }

  /** Adding or raising a grant, or widening the visibility, never lowers anyone's level. */
  lemma NeverDrops(db: Database, db': Database, user: Option<nat>, repo: Repository, v: Visibility, r: Resolution, r': Resolution)
    requires NoLess(db, db') && NoNarrower(repo.visibility, v)
    requires Resolves(db, user, repo, r) && Resolves(db', user, repo.(visibility := v), r')
    ensures r.Resolved? && r'.Resolved? ==> OptionRank(r.level) <= OptionRank(r'.level)
    ensures Constrained(db) && Constrained(db') ==> r.Resolved? && r'.Resolved?
  {
    if Constrained(db) && Constrained(db') {
      ConstraintsSuffice(db, user, repo);
      ConstraintsSuffice(db', user, repo.(visibility := v));
    }
    RanksAreTheOrder();
    hide AtLeast;
    if r.Resolved? && r.level.Some? {
      var l := GrantSurvives(db, db', user, repo, v, r.level.value);
    }
  }

  lemma SameIsNoLess(db: Database, db': Database)
    requires SameRows(db, db')
    ensures NoLess(db, db')
  {
    SameElements(db.members, db'.members);
    SameElements(db.collaborators, db'.collaborators);
    SameElements(db.teamMembers, db'.teamMembers);
    SameElements(db.teamGrants, db'.teamGrants);
  }

  lemma TakenOut<T>(t: seq<T>, x: T, rest: seq<T>) returns (front: seq<T>, back: seq<T>)
    requires multiset(t) == multiset([x] + rest)
    ensures t == front + ([x] + back) && multiset(rest) == multiset(front + back)
  {
    assert x in multiset(t);
    var i :| 0 <= i < |t| && t[i] == x;
    front, back := t[..i], t[i + 1..];
    assert t == front + ([x] + back);
    assert multiset(t) == multiset(front + back) + multiset{x};
    assert multiset(t) == multiset(rest) + multiset{x};
    assert multiset(rest) == multiset(t) - multiset{x} == multiset(front + back);
  }

  /** What adds up over the parts of a sequence does not depend on the order of its elements. */
  lemma {:induction false} SumIgnoresOrder<T(!new)>(f: seq<T> -> nat, s: seq<T>, t: seq<T>)
    requires f([]) == 0 && forall a: seq<T>, b: seq<T> :: f(a + b) == f(a) + f(b)
    requires multiset(s) == multiset(t)
    ensures f(s) == f(t)
    decreases |s|
  {
    if s == [] {
      assert |multiset(t)| == 0;
    } else {
      var x, rest := s[0], s[1..];
      assert s == [x] + rest;
      var front, back := TakenOut(t, x, rest);
      SumIgnoresOrder(f, rest, front + back);
      assert f(front + ([x] + back)) == f(front) + f([x] + back);
    }
  }

  lemma {:induction false} AdminRolesConcat(a: seq<Membership>, b: seq<Membership>, org: nat, user: nat)
    ensures AdminRoles(a + b, org, user) == AdminRoles(a, org, user) + AdminRoles(b, org, user)
    decreases |a|
  {
    if a == [] {
      assert a + b == b;
    } else {
      assert (a + b)[1..] == a[1..] + b;
      AdminRolesConcat(a[1..], b, org, user);
    }
  }

  lemma {:induction false} CollaboratorLevelsConcat(a: seq<Collaborator>, b: seq<Collaborator>, repo: nat, user: nat)
    ensures CollaboratorLevels(a + b, repo, user) == CollaboratorLevels(a, repo, user) + CollaboratorLevels(b, repo, user)
    decreases |a|
  {
    if a == [] {
      assert a + b == b;
    } else {
      assert (a + b)[1..] == a[1..] + b;
      CollaboratorLevelsConcat(a[1..], b, repo, user);
    }
  }

  lemma AdminCountIgnoresOrder(s: seq<Membership>, t: seq<Membership>, org: nat, user: nat)
    requires multiset(s) == multiset(t)
    ensures |AdminRoles(s, org, user)| == |AdminRoles(t, org, user)|
  {
    var count := (rows: seq<Membership>) => |AdminRoles(rows, org, user)|;
    forall a: seq<Membership>, b: seq<Membership> ensures count(a + b) == count(a) + count(b) {
      AdminRolesConcat(a, b, org, user);
    }
    SumIgnoresOrder(count, s, t);
  }

  lemma CollaboratorCountIgnoresOrder(s: seq<Collaborator>, t: seq<Collaborator>, repo: nat, user: nat)
    requires multiset(s) == multiset(t)
    ensures |CollaboratorLevels(s, repo, user)| == |CollaboratorLevels(t, repo, user)|
  {
    var count := (rows: seq<Collaborator>) => |CollaboratorLevels(rows, repo, user)|;
    forall a: seq<Collaborator>, b: seq<Collaborator> ensures count(a + b) == count(a) + count(b) {
      CollaboratorLevelsConcat(a, b, repo, user);
    }
    SumIgnoresOrder(count, s, t);
  }

  lemma SeveralRowsInAnyOrder(db: Database, db': Database, user: Option<nat>, repo: Repository)
    requires SameRows(db, db')
    ensures ReadsSeveralRows(db, user, repo) <==> ReadsSeveralRows(db', user, repo)
  {
    if user.Some? {
      if repo.ownerOrg.Some? {
        AdminCountIgnoresOrder(db.members, db'.members, repo.ownerOrg.value, user.value);
      }
      CollaboratorCountIgnoresOrder(db.collaborators, db'.collaborators, repo.id, user.value);
    }
  }

  /** The outcome, several rows included, does not depend on the order in which the rows are returned. */
  lemma RowOrderIsIrrelevant(db: Database, db': Database, user: Option<nat>, repo: Repository, r: Resolution, r': Resolution)
    requires SameRows(db, db')
    requires Resolves(db, user, repo, r) && Resolves(db', user, repo, r')
    ensures r == r'
  {
    SeveralRowsInAnyOrder(db, db', user, repo);
    hide IsHighestGrant, ReadsSeveralRows, Constrained, NoLess, AtLeast;
    assert repo.(visibility := repo.visibility) == repo;
    assert r.Resolved? && r'.Resolved? ==> OptionRank(r.level) <= OptionRank(r'.level) by {
      SameIsNoLess(db, db');
      NeverDrops(db, db', user, repo, repo.visibility, r, r');
    }
    assert r.Resolved? && r'.Resolved? ==> OptionRank(r'.level) <= OptionRank(r.level) by {
      SameIsNoLess(db', db);
      NeverDrops(db', db, user, repo, repo.visibility, r', r);
    }
  }

  /** An anonymous caller can read public repositories and nothing else. */
  lemma AnonymousReadsPublicOnly(db: Database, repo: Repository, r: Resolution)
    requires Resolves(db, None, repo, r)
    ensures r == Resolved(if repo.visibility == Public then Some(Read) else None)
  {
    assert Granted(db, None, repo, Read) <==> repo.visibility == Public;
    hide AtLeast;
  }
}
