/**
 * From the token's claim to the rows a user sees: talent-api's scope resolver
 * and tenant filter, and the composition with the platform's grants.
 */
module TalentScope {
  import opened Common
  import opened Authorization

  const TALENT_FLOW := "talent-flow"

  /** talent-api's own client row and the platform client it extends. */
  datatype LocalClient = LocalClient(id: int, platformId: Option<string>)

  function ListByPlatformIds(clients: seq<LocalClient>, wanted: set<string>): set<int> {
    set k | 0 <= k < |clients| && clients[k].platformId.Some? && clients[k].platformId.value in wanted :: clients[k].id
  }

  function GetByPlatformId(clients: seq<LocalClient>, wanted: string): (r: Option<LocalClient>)
    ensures r.Some? ==> r.value in clients && r.value.platformId == Some(wanted)
    ensures r == None ==> forall k :: 0 <= k < |clients| ==> clients[k].platformId != Some(wanted)
  {
    if clients == [] then None
    else if clients[0].platformId == Some(wanted) then Some(clients[0])
    else
      assert forall k :: 0 < k < |clients| ==> clients[k] == clients[1..][k - 1];
      GetByPlatformId(clients[1..], wanted)
  }

  /** `_resolve_local_client_scope` */
  function ResolveLocalScope(clients: seq<LocalClient>, mc: ModuleClaim): (Option<int>, Option<set<int>>) {
    if mc.clientPublicId == None && mc.clientPublicIds == None then (mc.clientId, mc.clientIds)
    else
      var local :=
        if mc.clientPublicIds.Some? then Some(ListByPlatformIds(clients, mc.clientPublicIds.value)) else None;
      var row := if mc.clientPublicId.Some? then GetByPlatformId(clients, mc.clientPublicId.value) else None;
      (if row.Some? then Some(row.value.id) else None, local)
  }

  /** `_scoped`: does the filter keep a row of this client? */
  predicate Scoped(rowClient: int, clientId: Option<int>, allowed: Option<set<int>>) {
    if clientId.Some? then rowClient == clientId.value
    else if allowed.Some? then rowClient in allowed.value
    else true
  }

  /** The token's entry for the module, resolved and applied to one request row; no entry is a 403. */
  predicate Sees(clients: seq<LocalClient>, claims: map<string, ModuleClaim>, rowClient: int) {
    && TALENT_FLOW in claims
    && var (clientId, allowed) := ResolveLocalScope(clients, claims[TALENT_FLOW]);
       Scoped(rowClient, clientId, allowed)
  }

  // ------------------------------------------------------------------
  // What the grants say
  // ------------------------------------------------------------------

  /** Tokens `BuildClaims` can issue for the user. */
  ghost predicate IssuedFor(db: Database, user: int, claims: map<string, ModuleClaim>) {
    && (forall m :: m in claims <==> HasGrant(db, user, m))
    && (forall m :: m in claims ==> IsClaim(db, user, m, claims[m]))
  }

  /** Some direct or group grant is unrestricted, or names the public id of the row's client. */
  predicate Entitled(db: Database, user: int, clients: seq<LocalClient>, rowClient: int) {
    || SomeGrantUnrestricted(db, user, TALENT_FLOW)
    || exists k :: 0 <= k < |clients| && clients[k].id == rowClient && clients[k].platformId.Some?
                   && SomeGrantNames(db, user, TALENT_FLOW, REFS, clients[k].platformId.value)
  }

  /** The user's whole scope is one public id that two different local clients carry. */
  predicate SharedSingleClient(clients: seq<LocalClient>, claims: map<string, ModuleClaim>) {
    && TALENT_FLOW in claims && claims[TALENT_FLOW].clientPublicId.Some?
    && exists a, b :: 0 <= a < |clients| && 0 <= b < |clients| && clients[a].id != clients[b].id
                      && clients[a].platformId == clients[b].platformId == claims[TALENT_FLOW].clientPublicId
  }

  /** No row passes the filter unless a grant allows it, whatever the local client table holds. */
  lemma SeesOnlyWhatIsGranted(db: Database, user: int, clients: seq<LocalClient>, claims: map<string, ModuleClaim>,
                              rowClient: int)
    requires IssuedFor(db, user, claims) && Sees(clients, claims, rowClient)
    ensures Entitled(db, user, clients, rowClient)
  {
    hide HasGrant, SomeGrantUnrestricted, SomeGrantNames, Permitted, RolesFor;
    var mc := claims[TALENT_FLOW];
    assert IsClaim(db, user, TALENT_FLOW, mc);
    if mc.clientPublicIds.Some? {
      var wanted := mc.clientPublicIds.value;
      if mc.clientPublicId.Some? && GetByPlatformId(clients, mc.clientPublicId.value).Some? {
        var row := GetByPlatformId(clients, mc.clientPublicId.value).value;
        var k :| 0 <= k < |clients| && clients[k] == row;
        assert clients[k].platformId.value in wanted;
      } else {
        var k :| 0 <= k < |clients| && clients[k].platformId.Some? && clients[k].platformId.value in wanted
          && clients[k].id == rowClient;
        assert SomeGrantNames(db, user, TALENT_FLOW, REFS, clients[k].platformId.value);
      }
    }
  }

  /**
   * And every row a grant allows passes, for every row alike, exactly unless the
   * scope is a single public id shared by two local clients: then only the first
   * of them is seen.
   */
  lemma SeesAllThatIsGrantedIff(db: Database, user: int, clients: seq<LocalClient>, claims: map<string, ModuleClaim>)
    requires IssuedFor(db, user, claims)
    ensures (forall rowClient ::
               HasGrant(db, user, TALENT_FLOW) && Entitled(db, user, clients, rowClient) ==>
                 Sees(clients, claims, rowClient))
       <==> !SharedSingleClient(clients, claims)
  {
    hide HasGrant, SomeGrantUnrestricted, SomeGrantNames, Permitted, RolesFor;
    if HasGrant(db, user, TALENT_FLOW) {
      var mc := claims[TALENT_FLOW];
      assert IsClaim(db, user, TALENT_FLOW, mc);
      if SharedSingleClient(clients, claims) {
        SharedSingleHidesOne(db, user, clients, claims);
      } else {
        forall rowClient | Entitled(db, user, clients, rowClient)
          ensures Sees(clients, claims, rowClient)
        {
          EntitledIsSeen(db, user, clients, claims, rowClient);
        }
      }
    }
  }

  lemma EntitledIsSeen(db: Database, user: int, clients: seq<LocalClient>, claims: map<string, ModuleClaim>,
                       rowClient: int)
    requires IssuedFor(db, user, claims) && HasGrant(db, user, TALENT_FLOW)
    requires !SharedSingleClient(clients, claims) && Entitled(db, user, clients, rowClient)
    ensures Sees(clients, claims, rowClient)
  {
    hide HasGrant, SomeGrantUnrestricted, SomeGrantNames, Permitted, RolesFor;
    var mc := claims[TALENT_FLOW];
    assert IsClaim(db, user, TALENT_FLOW, mc);
    if !SomeGrantUnrestricted(db, user, TALENT_FLOW) {
      var k :| 0 <= k < |clients| && clients[k].id == rowClient && clients[k].platformId.Some?
               && SomeGrantNames(db, user, TALENT_FLOW, REFS, clients[k].platformId.value);
      assert rowClient in ListByPlatformIds(clients, mc.clientPublicIds.value);
      if mc.clientPublicId.Some? {
        assert clients[k].platformId == mc.clientPublicId;
        var row := GetByPlatformId(clients, mc.clientPublicId.value).value;
        var j :| 0 <= j < |clients| && clients[j] == row;
        assert clients[j].platformId == clients[k].platformId;
      }
    }
  }

  lemma SharedSingleHidesOne(db: Database, user: int, clients: seq<LocalClient>, claims: map<string, ModuleClaim>)
    requires IssuedFor(db, user, claims) && HasGrant(db, user, TALENT_FLOW) && SharedSingleClient(clients, claims)
    ensures exists rowClient :: Entitled(db, user, clients, rowClient) && !Sees(clients, claims, rowClient)
  {
    hide HasGrant, SomeGrantUnrestricted, SomeGrantNames, Permitted, RolesFor;
    var mc := claims[TALENT_FLOW];
    assert IsClaim(db, user, TALENT_FLOW, mc);
    var a, b :| 0 <= a < |clients| && 0 <= b < |clients| && clients[a].id != clients[b].id
                && clients[a].platformId == clients[b].platformId == mc.clientPublicId;
    var seen := GetByPlatformId(clients, mc.clientPublicId.value).value;
    var hidden := if clients[a].id != seen.id then a else b;
    assert SomeGrantNames(db, user, TALENT_FLOW, REFS, clients[hidden].platformId.value);
    assert Entitled(db, user, clients, clients[hidden].id) && !Sees(clients, claims, clients[hidden].id);
  }

  // ------------------------------------------------------------------
  // More grants never mean less access
  // ------------------------------------------------------------------

  /** Everything that contributed to the user's access still does. */
  ghost predicate Wider(db: Database, db': Database, user: int, mod: string) {
    && (HasGrant(db, user, mod) ==> HasGrant(db', user, mod))
    && (SomeGrantUnrestricted(db, user, mod) ==> SomeGrantUnrestricted(db', user, mod))
    && (forall x :: SomeGrantNames(db, user, mod, REFS, x) ==> SomeGrantNames(db', user, mod, REFS, x))
    && (forall p :: Permitted(db, user, mod, p) ==> Permitted(db', user, mod, p))
  }

  lemma WiderGrantsSeeMore(db: Database, db': Database, user: int, clients: seq<LocalClient>,
                           claims: map<string, ModuleClaim>, claims': map<string, ModuleClaim>, rowClient: int)
    requires IssuedFor(db, user, claims) && IssuedFor(db', user, claims') && Wider(db, db', user, TALENT_FLOW)
    requires Sees(clients, claims, rowClient)
    ensures Sees(clients, claims', rowClient)
    ensures claims[TALENT_FLOW].permissions <= claims'[TALENT_FLOW].permissions
  {
    hide HasGrant, SomeGrantUnrestricted, SomeGrantNames, Permitted, RolesFor;
    var mc, mc' := claims[TALENT_FLOW], claims'[TALENT_FLOW];
    assert IsClaim(db, user, TALENT_FLOW, mc) && IsClaim(db', user, TALENT_FLOW, mc');
    if mc'.clientPublicIds.Some? {
      assert mc.clientPublicIds.Some? && mc.clientPublicIds.value <= mc'.clientPublicIds.value;
      if mc.clientPublicId.Some? && GetByPlatformId(clients, mc.clientPublicId.value).Some? {
        var row := GetByPlatformId(clients, mc.clientPublicId.value).value;
        var k :| 0 <= k < |clients| && clients[k] == row;
        assert clients[k].platformId.value in mc.clientPublicIds.value;
        assert rowClient in ListByPlatformIds(clients, mc'.clientPublicIds.value);
      } else {
        ListGrows(clients, mc.clientPublicIds.value, mc'.clientPublicIds.value);
      }
      if mc'.clientPublicId.Some? {
        assert mc.clientPublicIds.value != {} by { NothingListedForNothing(clients); }
        assert mc.clientPublicIds.value == mc'.clientPublicIds.value;
      }
    }
  }

  lemma ListGrows(clients: seq<LocalClient>, a: set<string>, b: set<string>)
    requires a <= b
    ensures ListByPlatformIds(clients, a) <= ListByPlatformIds(clients, b)
  {
  }

  lemma NothingListedForNothing(clients: seq<LocalClient>)
    ensures ListByPlatformIds(clients, {}) == {}
  {
  }

  lemma {:induction false} NoRowsOfOthers(scopes: seq<ScopeRow>, id: int)
    requires forall k :: 0 <= k < |scopes| ==> scopes[k].assignmentId != id
    ensures RowsOf(scopes, id) == []
  {
    if scopes == [] {
    } else {
      NoRowsOfOthers(scopes[..|scopes| - 1], id);
    }
  }

  /** Inserting a direct assignment with its scope rows. */
  function WithDirect(db: Database, row: UserModuleRole, scopes: seq<ScopeRow>): Database {
    db.(direct := db.direct + [row], directScopes := db.directScopes + scopes)
  }

  function WithGroupRole(db: Database, row: GroupModuleRole, scopes: seq<ScopeRow>): Database {
    db.(groupRoles := db.groupRoles + [row], groupScopes := db.groupScopes + scopes)
  }

  function WithMember(db: Database, user: int, group: int): Database {
    db.(memberships := db.memberships + [Membership(user, group)])
  }

  /** A new direct assignment, of anyone to anything, enabled or not, narrows nobody. */
  lemma AddingADirectGrantWidens(db: Database, row: UserModuleRole, scopes: seq<ScopeRow>, user: int, mod: string)
    requires forall i :: 0 <= i < |db.direct| ==> db.direct[i].id != row.id
    requires forall k :: 0 <= k < |scopes| ==> scopes[k].assignmentId == row.id
    ensures Wider(db, WithDirect(db, row, scopes), user, mod)
  {
    hide Wider, InActiveGroup;
    var db' := WithDirect(db, row, scopes);
    forall i | 0 <= i < |db.direct|
      ensures DirectRows(db', i) == DirectRows(db, i)
    {
      RowsOfConcat(db.directScopes, scopes, db.direct[i].id);
      NoRowsOfOthers(scopes, db.direct[i].id);
    }
    SameGroups(db, db', user);
    KeptGrantsWiden(db, db', user, mod);
  }

  /** A new group assignment narrows nobody. */
  lemma AddingAGroupGrantWidens(db: Database, row: GroupModuleRole, scopes: seq<ScopeRow>, user: int, mod: string)
    requires forall j :: 0 <= j < |db.groupRoles| ==> db.groupRoles[j].id != row.id
    requires forall k :: 0 <= k < |scopes| ==> scopes[k].assignmentId == row.id
    ensures Wider(db, WithGroupRole(db, row, scopes), user, mod)
  {
    hide Wider, InActiveGroup;
    var db' := WithGroupRole(db, row, scopes);
    forall j | 0 <= j < |db.groupRoles|
      ensures GroupRows(db', j) == GroupRows(db, j)
    {
      RowsOfConcat(db.groupScopes, scopes, db.groupRoles[j].id);
      NoRowsOfOthers(scopes, db.groupRoles[j].id);
    }
    SameGroups(db, db', user);
    KeptGrantsWiden(db, db', user, mod);
  }

  /** Nor does joining a group. */
  lemma JoiningAGroupWidens(db: Database, member: int, group: int, user: int, mod: string)
    ensures Wider(db, WithMember(db, member, group), user, mod)
  {
    hide Wider;
    var db' := WithMember(db, member, group);
    forall g | InActiveGroup(db, user, g)
      ensures InActiveGroup(db', user, g)
    {
      var k :| 0 <= k < |db.memberships| && db.memberships[k] == Membership(user, g);
      assert db'.memberships[k] == Membership(user, g);
    }
    KeptGrantsWiden(db, db', user, mod);
  }

  lemma SameGroups(db: Database, db': Database, user: int)
    requires db'.memberships == db.memberships && db'.groups == db.groups
    ensures forall g :: InActiveGroup(db', user, g) == InActiveGroup(db, user, g)
  {
  }

  /** If the old assignments, their scope rows and the memberships are all still there, access is wider. */
  lemma KeptGrantsWiden(db: Database, db': Database, user: int, mod: string)
    requires db.direct <= db'.direct && db.groupRoles <= db'.groupRoles && db'.rolePermissions == db.rolePermissions
    requires forall i :: 0 <= i < |db.direct| ==> DirectRows(db', i) == DirectRows(db, i)
    requires forall j :: 0 <= j < |db.groupRoles| ==> GroupRows(db', j) == GroupRows(db, j)
    requires forall g :: InActiveGroup(db, user, g) ==> InActiveGroup(db', user, g)
    ensures Wider(db, db', user, mod)
  {
    hide Unrestricted, Named, InActiveGroup, DirectRows, GroupRows, RolesFor;
    assert forall i :: 0 <= i < |db.direct| && DirectGrant(db, user, mod, i) ==> DirectGrant(db', user, mod, i);
    assert forall j :: 0 <= j < |db.groupRoles| && GroupGrant(db, user, mod, j) ==> GroupGrant(db', user, mod, j);
    forall p | Permitted(db, user, mod, p)
      ensures Permitted(db', user, mod, p)
    {
      var k :| 0 <= k < |RolesFor(db, user, mod)| && p in PermissionsOf(db, mod, RolesFor(db, user, mod)[k]);
      var role := RolesFor(db, user, mod)[k];
      RoleIsGranted(db, user, mod, role);
      RoleIsGranted(db', user, mod, role);
      var k' :| 0 <= k' < |RolesFor(db', user, mod)| && RolesFor(db', user, mod)[k'] == role;
    }
  }

  /** The role of some contributing grant. */
  predicate GrantedRole(db: Database, user: int, mod: string, role: string) {
    || (exists i :: 0 <= i < |db.direct| && DirectGrant(db, user, mod, i) && db.direct[i].role == role)
    || (exists j :: 0 <= j < |db.groupRoles| && GroupGrant(db, user, mod, j) && db.groupRoles[j].role == role)
  }

  lemma RoleIsGranted(db: Database, user: int, mod: string, role: string)
    ensures role in RolesFor(db, user, mod) <==> GrantedRole(db, user, mod, role)
  {
    DirectRoleIsGranted(db, user, mod, role, |db.direct|);
    GroupRoleIsGranted(db, user, mod, role, |db.groupRoles|);
  }

  lemma {:induction false} DirectRoleIsGranted(db: Database, user: int, mod: string, role: string, n: nat)
    requires n <= |db.direct|
    ensures role in DirectRoles(db, user, mod, n)
            <==> exists i :: 0 <= i < n && DirectGrant(db, user, mod, i) && db.direct[i].role == role
  {
    if n == 0 {
    } else {
      DirectRoleIsGranted(db, user, mod, role, n - 1);
    }
  }

  lemma {:induction false} GroupRoleIsGranted(db: Database, user: int, mod: string, role: string, n: nat)
    requires n <= |db.groupRoles|
    ensures role in GroupRoles(db, user, mod, n)
            <==> exists j :: 0 <= j < n && GroupGrant(db, user, mod, j) && db.groupRoles[j].role == role
  {
    hide InActiveGroup;
    if n == 0 {
    } else {
      GroupRoleIsGranted(db, user, mod, role, n - 1);
    }
  }

  // ------------------------------------------------------------------
  // When a scope row means less access
  // ------------------------------------------------------------------

  function WithScopeRow(db: Database, row: ScopeRow): Database {
    db.(directScopes := db.directScopes + [row])
  }

  function WithGroupScopeRow(db: Database, row: ScopeRow): Database {
    db.(groupScopes := db.groupScopes + [row])
  }

  /** Every contributing direct grant but those with the given assignment id is restricted. */
  predicate OtherDirectGrantsRestricted(db: Database, user: int, mod: string, except: Option<int>) {
    forall i :: 0 <= i < |db.direct| && DirectGrant(db, user, mod, i) && except != Some(db.direct[i].id) ==>
      !Unrestricted(DirectRows(db, i))
  }

  predicate OtherGroupGrantsRestricted(db: Database, user: int, mod: string, except: Option<int>) {
    forall j :: 0 <= j < |db.groupRoles| && GroupGrant(db, user, mod, j) && except != Some(db.groupRoles[j].id) ==>
      !Unrestricted(GroupRows(db, j))
  }

  /**
   * The row restricts a contributing direct assignment that had no rows at all,
   * and nothing else keeps the user unrestricted.
   */
  predicate Narrows(db: Database, row: ScopeRow, user: int, mod: string) {
    && !row.allClients
    && RowsOf(db.directScopes, row.assignmentId) == []
    && (exists i :: 0 <= i < |db.direct| && DirectGrant(db, user, mod, i) && db.direct[i].id == row.assignmentId)
    && OtherDirectGrantsRestricted(db, user, mod, Some(row.assignmentId))
    && OtherGroupGrantsRestricted(db, user, mod, None)
  }

  /** The same for a scope row of a group assignment. */
  predicate GroupNarrows(db: Database, row: ScopeRow, user: int, mod: string) {
    && !row.allClients
    && RowsOf(db.groupScopes, row.assignmentId) == []
    && (exists j :: 0 <= j < |db.groupRoles| && GroupGrant(db, user, mod, j) && db.groupRoles[j].id == row.assignmentId)
    && OtherDirectGrantsRestricted(db, user, mod, None)
    && OtherGroupGrantsRestricted(db, user, mod, Some(row.assignmentId))
  }

  /** What a row for some assignment makes of the rows of assignment `id`. */
  predicate RowAdded(was: seq<ScopeRow>, rows: seq<ScopeRow>, row: ScopeRow, id: int) {
    && Named(was, REFS) <= Named(rows, REFS)
    && (Unrestricted(rows) <==>
        if row.assignmentId != id then Unrestricted(was) else row.allClients || (was != [] && Unrestricted(was)))
  }

  lemma AppendedRow(scopes: seq<ScopeRow>, row: ScopeRow, id: int)
    ensures RowAdded(RowsOf(scopes, id), RowsOf(scopes + [row], id), row, id)
  {
    RowsOfConcat(scopes, [row], id);
    OneRow(row, id);
    hide RowsOf;
    var was, rows := RowsOf(scopes, id), RowsOf(scopes + [row], id);
    assert forall k :: 0 <= k < |was| ==> rows[k] == was[k];
    if row.assignmentId == id { assert rows[|was|] == row; }
  }

  /** Two databases that differ in scope rows only, the second naming all that the first does. */
  predicate MoreScopeRows(db: Database, db': Database) {
    && db' == db.(directScopes := db'.directScopes, groupScopes := db'.groupScopes)
    && (forall i :: 0 <= i < |db.direct| ==> Named(DirectRows(db, i), REFS) <= Named(DirectRows(db', i), REFS))
    && (forall j :: 0 <= j < |db.groupRoles| ==> Named(GroupRows(db, j), REFS) <= Named(GroupRows(db', j), REFS))
  }

  /** Scope rows touch neither roles nor permissions, so only losing "unrestricted" can narrow access. */
  lemma OnlyRestrictingNarrows(db: Database, db': Database, user: int, mod: string)
    requires MoreScopeRows(db, db')
    ensures Wider(db, db', user, mod)
       <==> (SomeGrantUnrestricted(db, user, mod) ==> SomeGrantUnrestricted(db', user, mod))
  {
    SameRoles(db, db', user, mod);
    SameGrants(db, db', user, mod);
    NamesStay(db, db', user, mod);
    hide SomeGrantUnrestricted, SomeGrantNames, Permitted, DirectGrant, GroupGrant;
  }

  lemma NamesStay(db: Database, db': Database, user: int, mod: string)
    requires MoreScopeRows(db, db')
    ensures forall x :: SomeGrantNames(db, user, mod, REFS, x) ==> SomeGrantNames(db', user, mod, REFS, x)
  {
    SameGrants(db, db', user, mod);
    hide DirectGrant, GroupGrant, Named, DirectRows, GroupRows;
  }

  lemma SameGrants(db: Database, db': Database, user: int, mod: string)
    requires db' == db.(directScopes := db'.directScopes, groupScopes := db'.groupScopes)
    ensures forall i :: DirectGrant(db', user, mod, i) == DirectGrant(db, user, mod, i)
    ensures forall j :: GroupGrant(db', user, mod, j) == GroupGrant(db, user, mod, j)
    ensures HasGrant(db', user, mod) == HasGrant(db, user, mod)
  {
    SameGroups(db, db', user);
    hide InActiveGroup;
  }

  lemma SameRoles(db: Database, db': Database, user: int, mod: string)
    requires db' == db.(directScopes := db'.directScopes, groupScopes := db'.groupScopes)
    ensures RolesFor(db', user, mod) == RolesFor(db, user, mod)
    ensures forall p :: Permitted(db', user, mod, p) == Permitted(db, user, mod, p)
  {
    SameDirectRoles(db, db', user, mod, |db.direct|);
    SameGroupRoles(db, db', user, mod, |db.groupRoles|);
  }

  lemma {:induction false} SameDirectRoles(db: Database, db': Database, user: int, mod: string, n: nat)
    requires db'.direct == db.direct && n <= |db.direct|
    ensures DirectRoles(db', user, mod, n) == DirectRoles(db, user, mod, n)
  {
    if n == 0 {
    } else {
      SameDirectRoles(db, db', user, mod, n - 1);
    }
  }

  lemma {:induction false} SameGroupRoles(db: Database, db': Database, user: int, mod: string, n: nat)
    requires db'.groupRoles == db.groupRoles && db'.groups == db.groups && db'.memberships == db.memberships
    requires n <= |db.groupRoles|
    ensures GroupRoles(db', user, mod, n) == GroupRoles(db, user, mod, n)
  {
    if n == 0 {
    } else {
      SameGroupRoles(db, db', user, mod, n - 1);
    }
  }

  /** A new scope row narrows access exactly when it restricts the user's last unrestricted grant. */
  lemma ScopeRowNarrowsIff(db: Database, row: ScopeRow, user: int, mod: string)
    ensures Wider(db, WithScopeRow(db, row), user, mod) <==> !Narrows(db, row, user, mod)
  {
    var db' := WithScopeRow(db, row);
    forall i | 0 <= i < |db.direct|
      ensures RowAdded(DirectRows(db, i), DirectRows(db', i), row, db.direct[i].id)
    {
      AppendedRow(db.directScopes, row, db.direct[i].id);
    }
    SameGrants(db, db', user, mod);
    OnlyRestrictingNarrows(db, db', user, mod);
    hide Wider, DirectGrant, GroupGrant, Unrestricted, Named;
  }

  /** And so does a new scope row of a group assignment. */
  lemma GroupScopeRowNarrowsIff(db: Database, row: ScopeRow, user: int, mod: string)
    ensures Wider(db, WithGroupScopeRow(db, row), user, mod) <==> !GroupNarrows(db, row, user, mod)
  {
    var db' := WithGroupScopeRow(db, row);
    forall j | 0 <= j < |db.groupRoles|
      ensures RowAdded(GroupRows(db, j), GroupRows(db', j), row, db.groupRoles[j].id)
    {
      AppendedRow(db.groupScopes, row, db.groupRoles[j].id);
    }
    SameGrants(db, db', user, mod);
    OnlyRestrictingNarrows(db, db', user, mod);
    hide Wider, DirectGrant, GroupGrant, Unrestricted, Named;
  }

  /** In terms of rows: with the tokens issued before and after, some row is lost exactly when access narrows. */
  lemma RowsAreLostIffNarrower(db: Database, db': Database, user: int, clients: seq<LocalClient>,
                               claims: map<string, ModuleClaim>, claims': map<string, ModuleClaim>)
    requires IssuedFor(db, user, claims) && IssuedFor(db', user, claims') && MoreScopeRows(db, db')
    ensures (forall rowClient :: Sees(clients, claims, rowClient) ==> Sees(clients, claims', rowClient))
       <==> Wider(db, db', user, TALENT_FLOW)
  {
    OnlyRestrictingNarrows(db, db', user, TALENT_FLOW);
    SameGrants(db, db', user, TALENT_FLOW);
    hide MoreScopeRows, HasGrant, SomeGrantUnrestricted, SomeGrantNames, Permitted, RolesFor;
    if Wider(db, db', user, TALENT_FLOW) {
      forall rowClient | Sees(clients, claims, rowClient)
        ensures Sees(clients, claims', rowClient)
      {
        hide Wider, Sees;
        WiderGrantsSeeMore(db, db', user, clients, claims, claims', rowClient);
      }
    } else {
      hide Wider;
      UnrestrictedSeesAll(db, user, clients, claims);
      var rowClient := UnseenClient(clients, claims');
      assert Sees(clients, claims, rowClient);
    }
  }

  lemma UnrestrictedSeesAll(db: Database, user: int, clients: seq<LocalClient>, claims: map<string, ModuleClaim>)
    requires IssuedFor(db, user, claims) && SomeGrantUnrestricted(db, user, TALENT_FLOW)
    ensures HasGrant(db, user, TALENT_FLOW)
    ensures forall rowClient :: Sees(clients, claims, rowClient)
  {
    assert HasGrant(db, user, TALENT_FLOW);
    hide HasGrant, SomeGrantUnrestricted, SomeGrantNames, Permitted, RolesFor;
    assert IsClaim(db, user, TALENT_FLOW, claims[TALENT_FLOW]);
  }

  /** A restricted token leaves some row out. */
  lemma UnseenClient(clients: seq<LocalClient>, claims: map<string, ModuleClaim>) returns (rowClient: int)
    requires TALENT_FLOW in claims ==> claims[TALENT_FLOW].clientPublicIds.Some?
    ensures !Sees(clients, claims, rowClient)
  {
    if TALENT_FLOW !in claims { return 0; }
    var (clientId, allowed) := ResolveLocalScope(clients, claims[TALENT_FLOW]);
    if clientId.Some? { return clientId.value + 1; }
    rowClient := OneOutside(allowed.value);
  }

  lemma OneOutside(s: set<int>) returns (x: int)
    ensures x !in s
  {
    x := 0;
    var rest := s;
    while rest != {}
      invariant rest <= s && forall y :: y in s && y !in rest ==> y < x
      decreases |rest|
    {
      if forall y :: y !in rest { assert false; }
      var y :| y in rest;
      x := if y < x then x else y + 1;
      rest := rest - {y};
    }
  }

  /** Inserting a direct assignment's scope row costs the user a row exactly under `Narrows`. */
  lemma ScopeRowHidesRowsIff(db: Database, row: ScopeRow, user: int, clients: seq<LocalClient>,
                             claims: map<string, ModuleClaim>, claims': map<string, ModuleClaim>)
    requires IssuedFor(db, user, claims) && IssuedFor(WithScopeRow(db, row), user, claims')
    ensures (exists rowClient :: Sees(clients, claims, rowClient) && !Sees(clients, claims', rowClient))
       <==> Narrows(db, row, user, TALENT_FLOW)
  {
    hide IssuedFor, Sees, Narrows, Wider;
    ScopeRowNarrowsIff(db, row, user, TALENT_FLOW);
    ScopeRowsOnlyGrow(db, row);
    RowsAreLostIffNarrower(db, WithScopeRow(db, row), user, clients, claims, claims');
  }

  /** And a group assignment's scope row exactly under `GroupNarrows`. */
  lemma GroupScopeRowHidesRowsIff(db: Database, row: ScopeRow, user: int, clients: seq<LocalClient>,
                                  claims: map<string, ModuleClaim>, claims': map<string, ModuleClaim>)
    requires IssuedFor(db, user, claims) && IssuedFor(WithGroupScopeRow(db, row), user, claims')
    ensures (exists rowClient :: Sees(clients, claims, rowClient) && !Sees(clients, claims', rowClient))
       <==> GroupNarrows(db, row, user, TALENT_FLOW)
  {
    hide IssuedFor, Sees, GroupNarrows, Wider;
    GroupScopeRowNarrowsIff(db, row, user, TALENT_FLOW);
    ScopeRowsOnlyGrow(db, row);
    RowsAreLostIffNarrower(db, WithGroupScopeRow(db, row), user, clients, claims, claims');
  }

  lemma ScopeRowsOnlyGrow(db: Database, row: ScopeRow)
    ensures MoreScopeRows(db, WithScopeRow(db, row)) && MoreScopeRows(db, WithGroupScopeRow(db, row))
  {
    forall i | 0 <= i < |db.direct|
      ensures Named(DirectRows(db, i), REFS) <= Named(DirectRows(WithScopeRow(db, row), i), REFS)
    {
      AppendedRow(db.directScopes, row, db.direct[i].id);
    }
    forall j | 0 <= j < |db.groupRoles|
      ensures Named(GroupRows(db, j), REFS) <= Named(GroupRows(WithGroupScopeRow(db, row), j), REFS)
    {
      AppendedRow(db.groupScopes, row, db.groupRoles[j].id);
    }
  }

  // ------------------------------------------------------------------
  // One member, before and after a scope row
  // ------------------------------------------------------------------

  const MEMBER := UserModuleRole(1, 7, TALENT_FLOW, "TA_MEMBER", true, None, None)
  const MEMBER_ROW := ScopeRow(1, Some(3), Some("cli-x"), false)
  const ALL_OF_IT := ModuleClaim("TA_MEMBER", None, None, None, None, {})
  const ONE_CLIENT := ModuleClaim("TA_MEMBER", Some(3), Some({3}), Some("cli-x"), Some({"cli-x"}), {})

  function MemberDb(scopes: seq<ScopeRow>): Database {
    Database([MEMBER], scopes, [], [], [], [], map[])
  }

  /** What the platform issues to a member whose one assignment has these rows. */
  lemma MemberClaim(scopes: seq<ScopeRow>, claim: ModuleClaim)
    requires (scopes == [] && claim == ALL_OF_IT) || (scopes == [MEMBER_ROW] && claim == ONE_CLIENT)
    ensures IssuedFor(MemberDb(scopes), 7, map[TALENT_FLOW := claim])
  {
    var db := MemberDb(scopes);
    OneMember(scopes);
    NamedByMember(scopes);
    hide RolesFor, DirectRows, Unrestricted, Named, DirectGrant, GroupGrant;
    assert HasGrant(db, 7, TALENT_FLOW);
    assert IsClaim(db, 7, TALENT_FLOW, claim);
  }

  lemma OneMember(scopes: seq<ScopeRow>)
    requires scopes == [] || scopes == [MEMBER_ROW]
    ensures var db := MemberDb(scopes);
            && DirectRows(db, 0) == scopes
            && (forall m, i :: DirectGrant(db, 7, m, i) <==> i == 0 && m == TALENT_FLOW)
            && (forall m, j :: !GroupGrant(db, 7, m, j))
            && RolesFor(db, 7, TALENT_FLOW) == ["TA_MEMBER"]
  {
    var db := MemberDb(scopes);
    OneRow(MEMBER_ROW, 1);
    assert DirectGrant(db, 7, TALENT_FLOW, 0);
    assert DirectRoles(db, 7, TALENT_FLOW, 0) == [];
  }

  lemma NamedByMember(scopes: seq<ScopeRow>)
    requires scopes == [] || scopes == [MEMBER_ROW]
    ensures Unrestricted(scopes) <==> scopes == []
    ensures scopes != [] ==> Named(scopes, REFS) == {"cli-x"} && Named(scopes, IDS) == {3}
  {
    if scopes != [] { assert scopes[0] == MEMBER_ROW; }
  }

  /** A first row turns the member's unrestricted assignment into a narrow one, and a row of client 5 is lost. */
  lemma AddingAScopeRowCanNarrow()
    ensures var (db, claims, claims') := (MemberDb([]), map[TALENT_FLOW := ALL_OF_IT], map[TALENT_FLOW := ONE_CLIENT]);
            && IssuedFor(db, 7, claims) && IssuedFor(WithScopeRow(db, MEMBER_ROW), 7, claims')
            && Sees([], claims, 5) && !Sees([], claims', 5)
            && Narrows(db, MEMBER_ROW, 7, TALENT_FLOW)
  {
    MemberClaim([], ALL_OF_IT);
    MemberClaim([MEMBER_ROW], ONE_CLIENT);
    assert WithScopeRow(MemberDb([]), MEMBER_ROW) == MemberDb([MEMBER_ROW]);
    hide IssuedFor;
    assert DirectGrant(MemberDb([]), 7, TALENT_FLOW, 0);
  }

  /** And where two local clients carry the narrow scope's one public id, the second is granted but never seen. */
  lemma SharedIdHidesAClient()
    ensures var (db, claims) := (MemberDb([MEMBER_ROW]), map[TALENT_FLOW := ONE_CLIENT]);
            var clients := [LocalClient(1, Some("cli-x")), LocalClient(2, Some("cli-x"))];
            && IssuedFor(db, 7, claims) && SharedSingleClient(clients, claims)
            && Entitled(db, 7, clients, 2) && !Sees(clients, claims, 2)
  {
    var (db, claims) := (MemberDb([MEMBER_ROW]), map[TALENT_FLOW := ONE_CLIENT]);
    var clients := [LocalClient(1, Some("cli-x")), LocalClient(2, Some("cli-x"))];
    MemberClaim([MEMBER_ROW], ONE_CLIENT);
    hide IssuedFor;
    assert clients[0].id != clients[1].id;
    OneRow(MEMBER_ROW, 1);
    assert DirectGrant(db, 7, TALENT_FLOW, 0);
    assert DirectRows(db, 0) == [MEMBER_ROW];
    assert [MEMBER_ROW][0] == MEMBER_ROW && "cli-x" in Named(DirectRows(db, 0), REFS);
    assert SomeGrantNames(db, 7, TALENT_FLOW, REFS, clients[1].platformId.value);
  }
}
