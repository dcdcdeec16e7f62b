/** From the administrator's write to the rows a user sees. */
module Provisioning {
  import opened Common
  import opened Authorization
  import opened Administration
  import opened TalentScope

  // ------------------------------------------------------------------
  // A grant to someone without one
  // ------------------------------------------------------------------

  lemma {:induction false} NothingToRemove(scopes: seq<ScopeRow>, id: int)
    requires forall k :: 0 <= k < |scopes| ==> scopes[k].assignmentId != id
    ensures RowsExcept(scopes, id) == scopes
  {
    if scopes == [] {
    } else {
      NothingToRemove(scopes[..|scopes| - 1], id);
      assert scopes == scopes[..|scopes| - 1] + [scopes[|scopes| - 1]];
    }
  }

  /** Upserting an assignment for a pair that has none takes nothing from anybody, in any module. */
  lemma NewAssignmentWidens(p: Platform, newId: int, user: int, mod: string, role: string, enabled: bool,
                            scope: Option<ScopeIn>, other: int, otherMod: string)
    requires Tidy(p.db) && FreshId(p.db, newId)
    requires FindAssignment(p.db.direct, user, mod) == |p.db.direct|
    requires Upserted(p, newId, user, mod, role, enabled, scope).Ok?
    ensures Wider(p.db, Upserted(p, newId, user, mod, role, enabled, scope).value.db, other, otherMod)
  {
    hide Wider, AllKnown, PublicIdOf;
    var db' := Upserted(p, newId, user, mod, role, enabled, scope).value.db;
    var row := db'.direct[|p.db.direct|];
    NoRowsWithFreshId(p.db, newId);
    NothingToRemove(p.db.directScopes, newId);
    var rows := if scope == None then [] else NewRows(p, newId, scope.value);
    NewRowsAreOwn(p, newId, scope);
    assert db' == WithDirect(p.db, row, rows);
    AddingADirectGrantWidens(p.db, row, rows, other, otherMod);
  }

  lemma NoRowsWithFreshId(db: Database, newId: int)
    requires Tidy(db) && FreshId(db, newId)
    ensures forall k :: 0 <= k < |db.directScopes| ==> db.directScopes[k].assignmentId != newId
  {
  }

  lemma NewRowsAreOwn(p: Platform, id: int, scope: Option<ScopeIn>)
    ensures scope.Some? ==>
              forall k :: 0 <= k < |NewRows(p, id, scope.value)| ==> NewRows(p, id, scope.value)[k].assignmentId == id
  {
    if scope.Some? { ListRowsAt(p, id, scope.value.clientIds); }
  }

  // ------------------------------------------------------------------
  // What the listed clients let the user see
  // ------------------------------------------------------------------

  /** The user's access to the module rests on direct assignments alone. */
  predicate NoGroupGrant(db: Database, user: int, mod: string) {
    forall j :: 0 <= j < |db.groupRoles| ==> !GroupGrant(db, user, mod, j)
  }

  /** The local clients that extend one of the listed platform clients. */
  predicate IsListedClient(p: Platform, scope: ScopeIn, clients: seq<LocalClient>, rowClient: int) {
    exists k, n :: 0 <= k < |clients| && 0 <= n < |scope.clientIds|
                   && clients[k].id == rowClient && clients[k].platformId == PublicIdOf(p, scope.clientIds[n])
  }

  /** After the upsert the pair's assignment is the user's one contributing grant. */
  lemma OneGrant(p: Platform, newId: int, user: int, role: string, scope: ScopeIn, mod: string)
    requires Tidy(p.db) && FreshId(p.db, newId) && NoGroupGrant(p.db, user, mod)
    requires Upserted(p, newId, user, mod, role, true, Some(scope)).Ok?
    ensures var db' := Upserted(p, newId, user, mod, role, true, Some(scope)).value.db;
            && (forall i :: DirectGrant(db', user, mod, i) <==> i == FindAssignment(p.db.direct, user, mod))
            && NoGroupGrant(db', user, mod)
  {
    UpsertedDirect(p, newId, user, mod, role, true, Some(scope));
    SameMembers(p, newId, user, role, scope, mod);
    var db' := Upserted(p, newId, user, mod, role, true, Some(scope)).value.db;
    hide Upserted, Tidy;
    SameGroupGrants(p.db, db', user, mod);
  }

  lemma SameGroupGrants(db: Database, db': Database, user: int, mod: string)
    requires db'.memberships == db.memberships && db'.groups == db.groups && db'.groupRoles == db.groupRoles
    ensures forall j :: GroupGrant(db', user, mod, j) == GroupGrant(db, user, mod, j)
  {
    SameGroups(db, db', user);
    hide InActiveGroup;
  }

  lemma SameMembers(p: Platform, newId: int, user: int, role: string, scope: ScopeIn, mod: string)
    requires Upserted(p, newId, user, mod, role, true, Some(scope)).Ok?
    ensures var db' := Upserted(p, newId, user, mod, role, true, Some(scope)).value.db;
            db'.memberships == p.db.memberships && db'.groups == p.db.groups && db'.groupRoles == p.db.groupRoles
  {
    hide AllKnown;
  }

  /** With one grant whose scope is a list, being entitled is having one of its public ids. */
  lemma EntitledByOneGrant(db: Database, user: int, i: nat, names: set<string>, clients: seq<LocalClient>,
                           rowClient: int)
    requires i < |db.direct| && NoGroupGrant(db, user, TALENT_FLOW)
    requires forall k :: DirectGrant(db, user, TALENT_FLOW, k) <==> k == i
    requires ScopeFor(DirectRows(db, i), REFS) == Some(names)
    ensures HasGrant(db, user, TALENT_FLOW)
    ensures Entitled(db, user, clients, rowClient)
       <==> exists k :: 0 <= k < |clients| && clients[k].id == rowClient
                        && clients[k].platformId.Some? && clients[k].platformId.value in names
  {
    hide DirectGrant, GroupGrant, DirectRows, GroupRows, Unrestricted, Named;
    assert forall x :: SomeGrantNames(db, user, TALENT_FLOW, REFS, x) <==> x in names;
  }

  lemma ListedIsNamed(p: Platform, scope: ScopeIn, clients: seq<LocalClient>, rowClient: int)
    requires Listed(Some(scope)) && AllKnown(p, Some(scope))
    ensures var names := set n | 0 <= n < |scope.clientIds| :: PublicIdOf(p, scope.clientIds[n]).value;
            IsListedClient(p, scope, clients, rowClient) <==>
              exists k :: 0 <= k < |clients| && clients[k].id == rowClient
                          && clients[k].platformId.Some? && clients[k].platformId.value in names
  {
    hide PublicIdOf;
  }

  /**
   * Write, token, filter: after an enabled talent-flow assignment with a client
   * list, a user with no group grant sees exactly the rows of the local clients
   * on the list, unless the list comes down to one public id that two local
   * clients share.
   */
  lemma ListedClientsAreSeenIff(p: Platform, newId: int, user: int, role: string, scope: ScopeIn,
                                clients: seq<LocalClient>, claims: map<string, ModuleClaim>)
    requires Tidy(p.db) && FreshId(p.db, newId) && NoGroupGrant(p.db, user, TALENT_FLOW)
    requires Listed(Some(scope)) && Upserted(p, newId, user, TALENT_FLOW, role, true, Some(scope)).Ok?
    requires IssuedFor(Upserted(p, newId, user, TALENT_FLOW, role, true, Some(scope)).value.db, user, claims)
    ensures (forall rowClient :: Sees(clients, claims, rowClient) <==> IsListedClient(p, scope, clients, rowClient))
       <==> !SharedSingleClient(clients, claims)
    ensures forall rowClient :: Sees(clients, claims, rowClient) ==> IsListedClient(p, scope, clients, rowClient)
  {
    var db' := Upserted(p, newId, user, TALENT_FLOW, role, true, Some(scope)).value.db;
    var i := FindAssignment(p.db.direct, user, TALENT_FLOW);
    var names := set n | 0 <= n < |scope.clientIds| :: PublicIdOf(p, scope.clientIds[n]).value;
    OneGrant(p, newId, user, role, scope, TALENT_FLOW);
    UpsertedDirect(p, newId, user, TALENT_FLOW, role, true, Some(scope));
    ScopeReadsBack(p, newId, user, TALENT_FLOW, role, true, scope);
    assert ScopeFor(DirectRows(db', i), REFS) == Some(names) && AllKnown(p, Some(scope));
    hide Tidy, Upserted, Listed, AllKnown, IssuedFor, Sees, SharedSingleClient, Entitled, IsListedClient, ScopeFor,
         HasGrant;
    forall rowClient
      ensures Entitled(db', user, clients, rowClient) <==> IsListedClient(p, scope, clients, rowClient)
      ensures Sees(clients, claims, rowClient) ==> Entitled(db', user, clients, rowClient)
      ensures HasGrant(db', user, TALENT_FLOW)
    {
      EntitledByOneGrant(db', user, i, names, clients, rowClient);
      ListedIsNamed(p, scope, clients, rowClient);
      if Sees(clients, claims, rowClient) { SeesOnlyWhatIsGranted(db', user, clients, claims, rowClient); }
    }
    SeesAllThatIsGrantedIff(db', user, clients, claims);
  }

  // ------------------------------------------------------------------
  // From the grant rows to the token
  // ------------------------------------------------------------------

  /** An enabled assignment of the user to the module. */
  predicate HoldsAssignment(db: Database, user: int, mod: string) {
    exists row :: row in db.direct && row.userId == user && row.moduleKey == mod && row.enabled
  }

  /** An enabled assignment of the module to an active group that the user is a member of. */
  predicate HoldsThroughGroup(db: Database, user: int, mod: string) {
    exists role :: role in db.groupRoles && role.moduleKey == mod && role.enabled
                   && AccessGroup(role.groupId, true) in db.groups && Membership(user, role.groupId) in db.memberships
  }

  lemma GrantIffRow(db: Database, user: int, mod: string)
    ensures HasGrant(db, user, mod) <==> HoldsAssignment(db, user, mod) || HoldsThroughGroup(db, user, mod)
  {
    if HoldsAssignment(db, user, mod) {
      var row :| row in db.direct && row.userId == user && row.moduleKey == mod && row.enabled;
      var i :| 0 <= i < |db.direct| && db.direct[i] == row;
      assert DirectGrant(db, user, mod, i);
    }
    if HoldsThroughGroup(db, user, mod) {
      var role :| role in db.groupRoles && role.moduleKey == mod && role.enabled
                  && AccessGroup(role.groupId, true) in db.groups && Membership(user, role.groupId) in db.memberships;
      var j :| 0 <= j < |db.groupRoles| && db.groupRoles[j] == role;
      assert GroupGrant(db, user, mod, j);
    }
    if HasGrant(db, user, mod) {
      if i :| 0 <= i < |db.direct| && DirectGrant(db, user, mod, i) {
        assert db.direct[i] in db.direct;
      } else {
        var j :| 0 <= j < |db.groupRoles| && GroupGrant(db, user, mod, j);
        assert db.groupRoles[j] in db.groupRoles;
      }
    }
  }

  /**
   * A token has an entry for a module exactly when an enabled assignment of the
   * user, or of an active group of the user, says so: a disabled assignment, a
   * disabled group role, an inactive group or a group left behind gives nothing.
   */
  lemma TokenHasEntryIff(db: Database, user: int, claims: map<string, ModuleClaim>, mod: string)
    requires IssuedFor(db, user, claims)
    ensures mod in claims <==> HoldsAssignment(db, user, mod) || HoldsThroughGroup(db, user, mod)
  {
    GrantIffRow(db, user, mod);
    hide HoldsAssignment, HoldsThroughGroup, HasGrant, IsClaim;
  }

  /** A permission is in the token exactly when the role of an enabled grant carries it in that module. */
  lemma TokenPermissionIff(db: Database, user: int, claims: map<string, ModuleClaim>, mod: string, permission: string)
    requires IssuedFor(db, user, claims) && mod in claims
    ensures permission in claims[mod].permissions
       <==> exists role :: GrantedRole(db, user, mod, role)
                           && (mod, role) in db.rolePermissions && permission in db.rolePermissions[(mod, role)]
  {
    assert IsClaim(db, user, mod, claims[mod]);
    hide IsClaim, RolesFor, GrantedRole, HasGrant;
    assert permission in claims[mod].permissions <==> Permitted(db, user, mod, permission) by {
      PermittedInClaim(db, user, mod, claims[mod]);
    }
    forall role
      ensures role in RolesFor(db, user, mod) <==> GrantedRole(db, user, mod, role)
    {
      RoleIsGranted(db, user, mod, role);
    }
    if role :| GrantedRole(db, user, mod, role)
               && (mod, role) in db.rolePermissions && permission in db.rolePermissions[(mod, role)] {
      var k :| 0 <= k < |RolesFor(db, user, mod)| && RolesFor(db, user, mod)[k] == role;
    }
  }

  lemma PermittedInClaim(db: Database, user: int, mod: string, claim: ModuleClaim)
    requires IsClaim(db, user, mod, claim)
    ensures forall p :: p in claim.permissions <==> Permitted(db, user, mod, p)
  {
  }

  /** Disabling someone's assignment takes the module out of their token, unless a group still gives it. */
  lemma DisablingRevokes(p: Platform, newId: int, user: int, mod: string, role: string, scope: Option<ScopeIn>,
                         claims: map<string, ModuleClaim>)
    requires Tidy(p.db) && FreshId(p.db, newId)
    requires Upserted(p, newId, user, mod, role, false, scope).Ok?
    requires IssuedFor(Upserted(p, newId, user, mod, role, false, scope).value.db, user, claims)
    ensures mod in claims <==> HoldsThroughGroup(p.db, user, mod)
  {
    var db' := Upserted(p, newId, user, mod, role, false, scope).value.db;
    UpsertedDirect(p, newId, user, mod, role, false, scope);
    UpsertKeepsGroups(p, newId, user, mod, role, false, scope);
    TokenHasEntryIff(db', user, claims, mod);
    hide Upserted, Tidy, IssuedFor;
    assert !HoldsAssignment(db', user, mod);
  }

  /** And enabling one puts it in. */
  lemma EnablingGrants(p: Platform, newId: int, user: int, mod: string, role: string, scope: Option<ScopeIn>,
                       claims: map<string, ModuleClaim>)
    requires Tidy(p.db) && FreshId(p.db, newId)
    requires Upserted(p, newId, user, mod, role, true, scope).Ok?
    requires IssuedFor(Upserted(p, newId, user, mod, role, true, scope).value.db, user, claims)
    ensures mod in claims
  {
    var db' := Upserted(p, newId, user, mod, role, true, scope).value.db;
    UpsertedDirect(p, newId, user, mod, role, true, scope);
    TokenHasEntryIff(db', user, claims, mod);
    hide Upserted, Tidy, IssuedFor;
    assert db'.direct[FindAssignment(p.db.direct, user, mod)] in db'.direct;
  }

  lemma UpsertKeepsGroups(p: Platform, newId: int, user: int, mod: string, role: string, enabled: bool,
                          scope: Option<ScopeIn>)
    requires Upserted(p, newId, user, mod, role, enabled, scope).Ok?
    ensures var db' := Upserted(p, newId, user, mod, role, enabled, scope).value.db;
            && db'.memberships == p.db.memberships && db'.groups == p.db.groups && db'.groupRoles == p.db.groupRoles
            && db'.groupScopes == p.db.groupScopes && db'.rolePermissions == p.db.rolePermissions
  {
    hide AllKnown;
  }

  /** An older token, with numeric client ids only, sees exactly the rows of the clients it lists, or all of them. */
  lemma LegacyTokenSees(clients: seq<LocalClient>, claims: map<string, ModuleClaim>, rowClient: int)
    requires TALENT_FLOW in claims
    requires claims[TALENT_FLOW].clientPublicId == None && claims[TALENT_FLOW].clientPublicIds == None
    requires IsSingleOf(claims[TALENT_FLOW].clientId, claims[TALENT_FLOW].clientIds)
    ensures Sees(clients, claims, rowClient)
       <==> claims[TALENT_FLOW].clientIds == None || rowClient in claims[TALENT_FLOW].clientIds.value
  {
  }

  /** The role a token shows is that of the user's own assignment wherever that is enabled. */
  lemma OwnRoleIsShown(db: Database, user: int, claims: map<string, ModuleClaim>, mod: string, i: nat)
    requires IssuedFor(db, user, claims) && Tidy(db)
    requires i < |db.direct| && db.direct[i].userId == user && db.direct[i].moduleKey == mod && db.direct[i].enabled
    ensures mod in claims && claims[mod].role == db.direct[i].role
  {
    assert DirectGrant(db, user, mod, i);
    assert IsClaim(db, user, mod, claims[mod]);
    OneDirectRole(db, user, mod, i, |db.direct|);
    hide DirectRoles, GroupRoles, IsClaim, HasGrant;
  }

  lemma {:induction false} OneDirectRole(db: Database, user: int, mod: string, i: nat, n: nat)
    requires Tidy(db) && DirectGrant(db, user, mod, i) && n <= |db.direct|
    ensures DirectRoles(db, user, mod, n) == if i < n then [db.direct[i].role] else []
  {
    if n == 0 {
    } else {
      OneDirectRole(db, user, mod, i, n - 1);
    }
  }

  // ------------------------------------------------------------------
  // Removal
  // ------------------------------------------------------------------

  /** Removing an assignment shortens the table by that row; every other assignment stays, in order, with its scope. */
  lemma RemovalTakesOneAssignment(p: Platform, user: int, mod: string)
    requires Tidy(p.db) && RemovedAssignment(p, user, mod).Ok?
    ensures var db' := RemovedAssignment(p, user, mod).value.db;
            var i := FindAssignment(p.db.direct, user, mod);
            && i < |p.db.direct| && |db'.direct| == |p.db.direct| - 1
            && (forall k :: 0 <= k < i ==> db'.direct[k] == p.db.direct[k] && DirectRows(db', k) == DirectRows(p.db, k))
            && (forall k :: i < k < |p.db.direct| ==>
                  db'.direct[k - 1] == p.db.direct[k] && DirectRows(db', k - 1) == DirectRows(p.db, k))
            && db' == p.db.(direct := db'.direct, directScopes := db'.directScopes)
  {
    hide RowsExcept, RowsOf;
    var db' := RemovedAssignment(p, user, mod).value.db;
    var i := FindAssignment(p.db.direct, user, mod);
    forall k | 0 <= k < |p.db.direct| && k != i
      ensures RowsOf(db'.directScopes, p.db.direct[k].id) == RowsOf(p.db.directScopes, p.db.direct[k].id)
    {
      RowsOfRowsExcept(p.db.directScopes, p.db.direct[i].id, p.db.direct[k].id);
      assert p.db.direct[k].id != p.db.direct[i].id;
    }
  }

  /** The k-th grant of the first database is still there, wherever it stands in the second. */
  predicate StillGranted(db: Database, db': Database, user: int, mod: string, i: int)
    requires 0 <= i < |db.direct|
  {
    exists k :: 0 <= k < |db'.direct| && DirectGrant(db', user, mod, k)
                && db'.direct[k] == db.direct[i] && DirectRows(db', k) == DirectRows(db, i)
  }

  /** If every direct grant of the pair is still there and the groups are the same, access is no narrower. */
  lemma StillGrantedWidens(db: Database, db': Database, user: int, mod: string)
    requires db' == db.(direct := db'.direct, directScopes := db'.directScopes)
    requires forall i :: 0 <= i < |db.direct| && DirectGrant(db, user, mod, i) ==> StillGranted(db, db', user, mod, i)
    ensures Wider(db, db', user, mod)
  {
    SameGroupGrants(db, db', user, mod);
    hide DirectGrant, GroupGrant, DirectRows, Unrestricted, Named, RolesFor;
    forall p | Permitted(db, user, mod, p)
      ensures Permitted(db', user, mod, p)
    {
      var k :| 0 <= k < |RolesFor(db, user, mod)| && p in PermissionsOf(db, mod, RolesFor(db, user, mod)[k]);
      var role := RolesFor(db, user, mod)[k];
      RoleIsGranted(db, user, mod, role);
      RoleIsGranted(db', user, mod, role);
      var k' :| 0 <= k' < |RolesFor(db', user, mod)| && RolesFor(db', user, mod)[k'] == role;
    }
  }

  /** So no other user, and the user in no other module, loses anything. */
  lemma RemovalNarrowsNobodyElse(p: Platform, user: int, mod: string, other: int, otherMod: string)
    requires Tidy(p.db) && RemovedAssignment(p, user, mod).Ok?
    requires other != user || otherMod != mod
    ensures Wider(p.db, RemovedAssignment(p, user, mod).value.db, other, otherMod)
  {
    RemovalTakesOneAssignment(p, user, mod);
    var db' := RemovedAssignment(p, user, mod).value.db;
    var i := FindAssignment(p.db.direct, user, mod);
    hide Tidy, RemovedAssignment, DirectRows, Wider;
    forall k | 0 <= k < |p.db.direct| && DirectGrant(p.db, other, otherMod, k)
      ensures StillGranted(p.db, db', other, otherMod, k)
    {
      assert k != i;
      var k' := if k < i then k else k - 1;
      assert DirectGrant(db', other, otherMod, k');
    }
    StillGrantedWidens(p.db, db', other, otherMod);
  }

  /** And the pair itself is left with what groups give. */
  lemma RemovalRevokes(p: Platform, user: int, mod: string, claims: map<string, ModuleClaim>)
    requires Tidy(p.db) && RemovedAssignment(p, user, mod).Ok?
    requires IssuedFor(RemovedAssignment(p, user, mod).value.db, user, claims)
    ensures mod in claims <==> HoldsThroughGroup(p.db, user, mod)
  {
    RemovalTakesOneAssignment(p, user, mod);
    RemovalStaysTidy(p, user, mod);
    var db' := RemovedAssignment(p, user, mod).value.db;
    TokenHasEntryIff(db', user, claims, mod);
    hide Tidy, RemovedAssignment, IssuedFor;
    assert !HoldsAssignment(db', user, mod);
  }
}
