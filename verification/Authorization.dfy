/**
 * The platform's authorization engine: direct and group grants resolved into
 * the claims that every access token carries.
 */
module Authorization {
  import opened Common

  // ------------------------------------------------------------------
  // Tables
  // ------------------------------------------------------------------

  /** A direct assignment; the two client columns are the legacy single-tenant form that new code does not read. */
  datatype UserModuleRole = UserModuleRole(
    id: int, userId: int, moduleKey: string, role: string, enabled: bool,
    clientId: Option<int>, clientRef: Option<string>)

  /** A scope row of a direct or of a group assignment. */
  datatype ScopeRow = ScopeRow(assignmentId: int, clientId: Option<int>, clientRef: Option<string>, allClients: bool)

  datatype AccessGroup = AccessGroup(id: int, active: bool)

  datatype Membership = Membership(userId: int, groupId: int)

  datatype GroupModuleRole = GroupModuleRole(id: int, groupId: int, moduleKey: string, role: string, enabled: bool)

  datatype Database = Database(
    direct: seq<UserModuleRole>,
    directScopes: seq<ScopeRow>,
    groups: seq<AccessGroup>,
    memberships: seq<Membership>,
    groupRoles: seq<GroupModuleRole>,
    groupScopes: seq<ScopeRow>,
    rolePermissions: map<(string, string), set<string>>)

  // ------------------------------------------------------------------
  // Which rows contribute
  // ------------------------------------------------------------------

  /** The scope rows of one assignment, in table order. */
  function RowsOf(scopes: seq<ScopeRow>, id: int): seq<ScopeRow> {
    if scopes == [] then []
    else RowsOf(scopes[..|scopes| - 1], id)
         + if scopes[|scopes| - 1].assignmentId == id then [scopes[|scopes| - 1]] else []
  }

  lemma {:induction false} RowsOfConcat(a: seq<ScopeRow>, b: seq<ScopeRow>, id: int)
    ensures RowsOf(a + b, id) == RowsOf(a, id) + RowsOf(b, id)
  {
    if b == [] {
      assert a + b == a;
    } else {
      RowsOfConcat(a, b[..|b| - 1], id);
      assert (a + b)[..|a + b| - 1] == a + b[..|b| - 1];
    }
  }

  lemma OneRow(row: ScopeRow, id: int)
    ensures RowsOf([row], id) == if row.assignmentId == id then [row] else []
  {
    assert [row][..0] == [];
  }

  /** No rows at all, or one ALL_CLIENTS row, means unrestricted. */
  predicate Unrestricted(rows: seq<ScopeRow>) {
    rows == [] || exists k :: 0 <= k < |rows| && rows[k].allClients
  }

  function Named<T(==)>(rows: seq<ScopeRow>, column: ScopeRow -> Option<T>): set<T> {
    set k | 0 <= k < |rows| && column(rows[k]).Some? :: column(rows[k]).value
  }

  const IDS: ScopeRow -> Option<int> := (s: ScopeRow) => s.clientId
  const REFS: ScopeRow -> Option<string> := (s: ScopeRow) => s.clientRef

  predicate InActiveGroup(db: Database, user: int, group: int) {
    && (exists k :: 0 <= k < |db.memberships| && db.memberships[k] == Membership(user, group))
    && (exists k :: 0 <= k < |db.groups| && db.groups[k] == AccessGroup(group, true))
  }

  predicate DirectGrant(db: Database, user: int, mod: string, i: int) {
    0 <= i < |db.direct| && db.direct[i].userId == user && db.direct[i].moduleKey == mod && db.direct[i].enabled
  }

  predicate RoleOfGroup(db: Database, mod: string, group: int, j: int) {
    && 0 <= j < |db.groupRoles|
    && db.groupRoles[j].groupId == group && db.groupRoles[j].moduleKey == mod && db.groupRoles[j].enabled
  }

  predicate GroupGrant(db: Database, user: int, mod: string, j: int) {
    && 0 <= j < |db.groupRoles|
    && RoleOfGroup(db, mod, db.groupRoles[j].groupId, j)
    && InActiveGroup(db, user, db.groupRoles[j].groupId)
  }

  function DirectRows(db: Database, i: int): seq<ScopeRow>
    requires 0 <= i < |db.direct|
  {
    RowsOf(db.directScopes, db.direct[i].id)
  }

  function GroupRows(db: Database, j: int): seq<ScopeRow>
    requires 0 <= j < |db.groupRoles|
  {
    RowsOf(db.groupScopes, db.groupRoles[j].id)
  }

  predicate HasGrant(db: Database, user: int, mod: string) {
    || (exists i :: 0 <= i < |db.direct| && DirectGrant(db, user, mod, i))
    || (exists j :: 0 <= j < |db.groupRoles| && GroupGrant(db, user, mod, j))
  }

  predicate SomeGrantUnrestricted(db: Database, user: int, mod: string) {
    || (exists i :: 0 <= i < |db.direct| && DirectGrant(db, user, mod, i) && Unrestricted(DirectRows(db, i)))
    || (exists j :: 0 <= j < |db.groupRoles| && GroupGrant(db, user, mod, j) && Unrestricted(GroupRows(db, j)))
  }

  predicate SomeGrantNames<T(==)>(db: Database, user: int, mod: string, column: ScopeRow -> Option<T>, x: T) {
    || (exists i :: 0 <= i < |db.direct| && DirectGrant(db, user, mod, i) && x in Named(DirectRows(db, i), column))
    || (exists j :: 0 <= j < |db.groupRoles| && GroupGrant(db, user, mod, j) && x in Named(GroupRows(db, j), column))
  }

  /**
   * The effective scope as a condition on the grants: None is unrestricted,
   * otherwise exactly what some contributing grant names.
   */
  ghost predicate IsEffectiveScope<T(!new)>(db: Database, user: int, mod: string, column: ScopeRow -> Option<T>,
                                            scope: Option<set<T>>)
  {
    && (scope == None <==> !HasGrant(db, user, mod) || SomeGrantUnrestricted(db, user, mod))
    && (scope.Some? ==> forall x :: x in scope.value <==> SomeGrantNames(db, user, mod, column, x))
  }

  /** The roles of the contributing grants, direct ones first. */
  function DirectRoles(db: Database, user: int, mod: string, n: nat): seq<string>
    requires n <= |db.direct|
  {
    if n == 0 then []
    else DirectRoles(db, user, mod, n - 1) + if DirectGrant(db, user, mod, n - 1) then [db.direct[n - 1].role] else []
  }

  function GroupRoles(db: Database, user: int, mod: string, n: nat): seq<string>
    requires n <= |db.groupRoles|
  {
    if n == 0 then []
    else GroupRoles(db, user, mod, n - 1) + if GroupGrant(db, user, mod, n - 1) then [db.groupRoles[n - 1].role] else []
  }

  function RolesFor(db: Database, user: int, mod: string): seq<string> {
    DirectRoles(db, user, mod, |db.direct|) + GroupRoles(db, user, mod, |db.groupRoles|)
  }

  function PermissionsOf(db: Database, mod: string, role: string): set<string> {
    if (mod, role) in db.rolePermissions then db.rolePermissions[(mod, role)] else {}
  }

  /** A permission is effective when some contributing role carries it. */
  predicate Permitted(db: Database, user: int, mod: string, permission: string) {
    exists k :: 0 <= k < |RolesFor(db, user, mod)| && permission in PermissionsOf(db, mod, RolesFor(db, user, mod)[k])
  }

  // ------------------------------------------------------------------
  // The service
  // ------------------------------------------------------------------

  /** `client_scope_for` and `client_ref_scope_for`: one assignment's scope in either column. */
  function ScopeFor<T(==)>(rows: seq<ScopeRow>, column: ScopeRow -> Option<T>): Option<set<T>> {
    if Unrestricted(rows) then None else Some(Named(rows, column))
  }

  method GroupsForUser(db: Database, user: int) returns (groups: seq<int>)
    ensures forall g :: g in groups <==> InActiveGroup(db, user, g)
  {
    groups := [];
    for k := 0 to |db.groups|
      invariant forall g :: g in groups <==>
                  && (exists m :: 0 <= m < |db.memberships| && db.memberships[m] == Membership(user, g))
                  && (exists n :: 0 <= n < k && db.groups[n] == AccessGroup(g, true))
    {
      var group := db.groups[k];
      if group.active && (exists m :: 0 <= m < |db.memberships| && db.memberships[m] == Membership(user, group.id)) {
        groups := groups + [group.id];
      }
      assert forall g :: group == AccessGroup(g, true) ==> db.groups[k] == AccessGroup(g, true);
    }
  }

  /** `effective_client_scope` and `effective_client_ref_scope`, which differ only in the column they read. */
  method EffectiveScope<T(==, !new)>(db: Database, user: int, mod: string,
                                     column: ScopeRow -> Option<T>)
    returns (scope: Option<set<T>>)
    ensures IsEffectiveScope(db, user, mod, column, scope)
  {
    var found: set<T>, unrestricted, sawGrant := {}, false, false;
    for i := 0 to |db.direct|
      invariant sawGrant <==> exists a :: 0 <= a < i && DirectGrant(db, user, mod, a)
      invariant unrestricted
                <==> exists a :: 0 <= a < i && DirectGrant(db, user, mod, a) && Unrestricted(DirectRows(db, a))
      invariant !unrestricted ==> forall x :: x in found <==>
                  exists a :: 0 <= a < i && DirectGrant(db, user, mod, a) && x in Named(DirectRows(db, a), column)
    {
      if DirectGrant(db, user, mod, i) {
        sawGrant := true;
        var own := ScopeFor(DirectRows(db, i), column);
        if own == None { unrestricted := true; } else { found := found + own.value; }
      }
    }
    ghost var (saw0, un0, found0) := (sawGrant, unrestricted, found);
    var groups := GroupsForUser(db, user);
    for k := 0 to |groups|
      invariant sawGrant <==>
                  saw0 || (exists b :: 0 <= b < |db.groupRoles| && GroupGrant(db, user, mod, b)
                                       && db.groupRoles[b].groupId in groups[..k])
      invariant unrestricted <==>
                  un0 || (exists b :: 0 <= b < |db.groupRoles| && GroupGrant(db, user, mod, b)
                                      && db.groupRoles[b].groupId in groups[..k] && Unrestricted(GroupRows(db, b)))
      invariant !unrestricted ==> forall x :: x in found <==>
                  x in found0 || (exists b :: 0 <= b < |db.groupRoles| && GroupGrant(db, user, mod, b)
                                              && db.groupRoles[b].groupId in groups[..k]
                                              && x in Named(GroupRows(db, b), column))
    {
      ghost var (saw1, un1, found1) := (sawGrant, unrestricted, found);
      for j := 0 to |db.groupRoles|
        invariant sawGrant <==> saw1 || exists b :: 0 <= b < j && RoleOfGroup(db, mod, groups[k], b)
        invariant unrestricted <==>
                    un1 || (exists b :: 0 <= b < j && RoleOfGroup(db, mod, groups[k], b)
                                        && Unrestricted(GroupRows(db, b)))
        invariant !unrestricted ==> forall x :: x in found <==>
                    x in found1 || (exists b :: 0 <= b < j && RoleOfGroup(db, mod, groups[k], b)
                                                && x in Named(GroupRows(db, b), column))
      {
        if RoleOfGroup(db, mod, groups[k], j) {
          sawGrant := true;
          var own := ScopeFor(GroupRows(db, j), column);
          if own == None { unrestricted := true; } else { found := found + own.value; }
        }
      }
      assert groups[k] in groups && groups[..k + 1] == groups[..k] + [groups[k]];
      assert forall b :: 0 <= b < |db.groupRoles| ==>
        (GroupGrant(db, user, mod, b) && db.groupRoles[b].groupId in groups[..k + 1] <==>
           (GroupGrant(db, user, mod, b) && db.groupRoles[b].groupId in groups[..k])
             || RoleOfGroup(db, mod, groups[k], b));
    }
    assert groups[..|groups|] == groups;
    return if !sawGrant || unrestricted then None else Some(found);
  }

  /** A dictionary lookup with an empty default. */
  function At(d: map<string, seq<string>>, key: string): seq<string> { if key in d then d[key] else [] }

  /** `d.setdefault(key, []).append(x)` */
  function Appended(d: map<string, seq<string>>, key: string, x: string): (r: map<string, seq<string>>)
    ensures forall m :: At(r, m) == At(d, m) + if m == key then [x] else []
    ensures (forall m :: m in d ==> d[m] != []) ==> forall m :: m in r ==> r[m] != []
  {
    d[key := At(d, key) + [x]]
  }

  method EffectiveModuleRoles(db: Database, user: int) returns (grants: map<string, seq<string>>)
    ensures forall m :: m in grants <==> HasGrant(db, user, m)
    ensures forall m :: m in grants ==> grants[m] == RolesFor(db, user, m)
  {
    hide InActiveGroup, HasGrant, Appended, At;
    grants := map[];
    assert forall m :: At(grants, m) == [] by { EmptyAt(); }
    for i := 0 to |db.direct|
      invariant forall m :: At(grants, m) == DirectRoles(db, user, m, i)
      invariant forall m :: m in grants ==> grants[m] != []
    {
      var row := db.direct[i];
      if row.userId == user && row.enabled {
        grants := Appended(grants, row.moduleKey, row.role);
      }
    }
    var groups := GroupsForUser(db, user);
    for j := 0 to |db.groupRoles|
      invariant forall m :: At(grants, m) == DirectRoles(db, user, m, |db.direct|) + GroupRoles(db, user, m, j)
      invariant forall m :: m in grants ==> grants[m] != []
    {
      var row := db.groupRoles[j];
      forall m
        ensures DirectRoles(db, user, m, |db.direct|) + GroupRoles(db, user, m, j + 1)
             == DirectRoles(db, user, m, |db.direct|) + GroupRoles(db, user, m, j)
                + if row.moduleKey == m && row.enabled && row.groupId in groups then [row.role] else []
      {
        assert GroupGrant(db, user, m, j) <==> row.moduleKey == m && row.enabled && row.groupId in groups;
      }
      if row.groupId in groups && row.enabled {
        grants := Appended(grants, row.moduleKey, row.role);
      }
    }
    forall m
      ensures m in grants <==> HasGrant(db, user, m)
      ensures m in grants ==> grants[m] == RolesFor(db, user, m)
    {
      AtMeans(grants, m);
      GrantIffRole(db, user, m);
    }
  }

  lemma EmptyAt()
    ensures forall m :: At(map[], m) == []
  {
  }

  lemma AtMeans(d: map<string, seq<string>>, m: string)
    requires forall k :: k in d ==> d[k] != []
    ensures m in d <==> At(d, m) != []
    ensures m in d ==> d[m] == At(d, m)
  {
  }

  lemma {:induction false} DirectRoleIff(db: Database, user: int, mod: string, n: nat)
    requires n <= |db.direct|
    ensures DirectRoles(db, user, mod, n) != [] <==> exists i :: 0 <= i < n && DirectGrant(db, user, mod, i)
  {
    if n == 0 {
    } else {
      DirectRoleIff(db, user, mod, n - 1);
    }
  }

  lemma {:induction false} GroupRoleIff(db: Database, user: int, mod: string, n: nat)
    requires n <= |db.groupRoles|
    ensures GroupRoles(db, user, mod, n) != [] <==> exists j :: 0 <= j < n && GroupGrant(db, user, mod, j)
  {
    if n == 0 {
    } else {
      GroupRoleIff(db, user, mod, n - 1);
    }
  }

  lemma GrantIffRole(db: Database, user: int, mod: string)
    ensures HasGrant(db, user, mod) <==> RolesFor(db, user, mod) != []
  {
    DirectRoleIff(db, user, mod, |db.direct|);
    GroupRoleIff(db, user, mod, |db.groupRoles|);
  }

  method EffectivePermissions(db: Database, mod: string, roles: seq<string>) returns (permissions: set<string>)
    ensures forall p :: p in permissions <==> exists k :: 0 <= k < |roles| && p in PermissionsOf(db, mod, roles[k])
  {
    permissions := {};
    for k := 0 to |roles|
      invariant forall p :: p in permissions <==> exists a :: 0 <= a < k && p in PermissionsOf(db, mod, roles[a])
    {
      permissions := permissions + PermissionsOf(db, mod, roles[k]);
    }
  }

  // ------------------------------------------------------------------
  // Claims
  // ------------------------------------------------------------------

  /** One module's entry in the token; the sorted duplicate-free lists are kept as sets. */
  datatype ModuleClaim = ModuleClaim(
    role: string,
    clientId: Option<int>,
    clientIds: Option<set<int>>,
    clientPublicId: Option<string>,
    clientPublicIds: Option<set<string>>,
    permissions: set<string>)

  /** The single-valued companion of a list claim: set exactly when the list has one element. */
  predicate IsSingleOf<T(==)>(single: Option<T>, all: Option<set<T>>) {
    match single
    case Some(x) => all == Some({x})
    case None => all.Some? ==> |all.value| != 1
  }

  ghost predicate IsClaim(db: Database, user: int, mod: string, c: ModuleClaim) {
    && RolesFor(db, user, mod) != [] && c.role == RolesFor(db, user, mod)[0]
    && IsEffectiveScope(db, user, mod, IDS, c.clientIds)
    && IsEffectiveScope(db, user, mod, REFS, c.clientPublicIds)
    && IsSingleOf(c.clientId, c.clientIds)
    && IsSingleOf(c.clientPublicId, c.clientPublicIds)
    && forall p :: p in c.permissions <==> Permitted(db, user, mod, p)
  }

  method SingleOf<T(==)>(all: Option<set<T>>) returns (single: Option<T>)
    ensures IsSingleOf(single, all)
  {
    if all.Some? && |all.value| == 1 {
      var x :| x in all.value;
      OnlyElement(all.value, x);
      return Some(x);
    }
    return None;
  }

  lemma OnlyElement<T>(s: set<T>, x: T)
    requires |s| == 1 && x in s
    ensures s == {x}
  {
    assert |s - {x}| == 0;
    assert s == (s - {x}) + {x};
  }

  /** One claim for every module in which the user holds a grant, and for no other. */
  method BuildClaims(db: Database, user: int) returns (claims: map<string, ModuleClaim>)
    ensures forall m :: m in claims <==> HasGrant(db, user, m)
    ensures forall m :: m in claims ==> IsClaim(db, user, m, claims[m])
  {
    hide HasGrant, RolesFor, IsEffectiveScope, IsSingleOf;
    var grants := EffectiveModuleRoles(db, user);
    claims := map[];
    var todo := grants.Keys;
    while todo != {}
      invariant todo <= grants.Keys && claims.Keys == grants.Keys - todo
      invariant forall m :: m in claims ==> IsClaim(db, user, m, claims[m])
      decreases |todo|
    {
      var mod :| mod in todo;
      var clientIds := EffectiveScope(db, user, mod, IDS);
      var publicIds := EffectiveScope(db, user, mod, REFS);
      var clientId := SingleOf(clientIds);
      var publicId := SingleOf(publicIds);
      var permissions := EffectivePermissions(db, mod, grants[mod]);
      GrantIffRole(db, user, mod);
      claims := claims[mod := ModuleClaim(grants[mod][0], clientId, clientIds, publicId, publicIds, permissions)];
      todo := todo - {mod};
    }
  }
}
