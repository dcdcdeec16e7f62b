/**
 * The administrator's writes: module assignments with their client scope, and
 * the activation and platform role of users.
 */
module Administration {
  import opened Common
  import opened Authorization

  // ------------------------------------------------------------------
  // Tables and requests
  // ------------------------------------------------------------------

  datatype PlatformRole = PlatformUser | PlatformAdmin | SuperAdmin

  datatype UserRow = UserRow(role: PlatformRole, active: bool)

  datatype ScopeIn = ScopeIn(allClients: bool, clientIds: seq<int>)

  /** `publicIds` is the clients table, `legacyIds` the talent-api crosswalk onto it. */
  datatype Platform = Platform(
    users: map<int, UserRow>,
    db: Database,
    publicIds: map<int, string>,
    legacyIds: map<int, int>,
    catalog: set<(string, string)>,
    adminManagers: set<PlatformRole>)

  datatype AdminError = NotFound | UnknownRole | UnknownClient | NotPermitted | LastSuperAdmin

  // ------------------------------------------------------------------
  // Client references
  // ------------------------------------------------------------------

  /** A submitted id is a client's own id, or else its legacy talent-api id. */
  function PublicIdOf(p: Platform, id: int): Option<string> {
    if id in p.publicIds then Some(p.publicIds[id])
    else if id in p.legacyIds && p.legacyIds[id] in p.publicIds then Some(p.publicIds[p.legacyIds[id]])
    else None
  }

  predicate Listed(scope: Option<ScopeIn>) { scope.Some? && !scope.value.allClients && scope.value.clientIds != [] }

  predicate AllKnown(p: Platform, scope: Option<ScopeIn>) {
    Listed(scope) ==> forall k :: 0 <= k < |scope.value.clientIds| ==> PublicIdOf(p, scope.value.clientIds[k]).Some?
  }

  function RefMap(p: Platform, wanted: seq<int>): map<int, string> {
    map k | k in wanted && PublicIdOf(p, k).Some? :: PublicIdOf(p, k).value
  }

  // ------------------------------------------------------------------
  // Specification of the assignment writes
  // ------------------------------------------------------------------

  /** The first assignment of the pair, or |direct| when there is none. */
  function FindAssignment(direct: seq<UserModuleRole>, user: int, mod: string): (i: nat)
    ensures i <= |direct|
    ensures i < |direct| ==> direct[i].userId == user && direct[i].moduleKey == mod
    ensures forall k :: 0 <= k < i ==> !(direct[k].userId == user && direct[k].moduleKey == mod)
  {
    if direct == [] then 0
    else if direct[0].userId == user && direct[0].moduleKey == mod then 0
    else
      assert forall k :: 0 < k < |direct| ==> direct[k] == direct[1..][k - 1];
      1 + FindAssignment(direct[1..], user, mod)
  }

  function RowsExcept(scopes: seq<ScopeRow>, id: int): seq<ScopeRow> {
    if scopes == [] then []
    else RowsExcept(scopes[..|scopes| - 1], id)
         + if scopes[|scopes| - 1].assignmentId != id then [scopes[|scopes| - 1]] else []
  }

  function ListRows(p: Platform, id: int, clientIds: seq<int>): seq<ScopeRow> {
    if clientIds == [] then []
    else
      var last := clientIds[|clientIds| - 1];
      ListRows(p, id, clientIds[..|clientIds| - 1]) + [ScopeRow(id, Some(last), PublicIdOf(p, last), false)]
  }

  function NewRows(p: Platform, id: int, scope: ScopeIn): seq<ScopeRow> {
    if scope.allClients then [ScopeRow(id, None, None, true)] else ListRows(p, id, scope.clientIds)
  }

  function WithTenant(row: UserModuleRole, p: Platform, scope: Option<ScopeIn>): UserModuleRole {
    if scope == None then row
    else if !scope.value.allClients && |scope.value.clientIds| == 1 then
      row.(clientId := Some(scope.value.clientIds[0]), clientRef := PublicIdOf(p, scope.value.clientIds[0]))
    else row.(clientId := None, clientRef := None)
  }

  /** `newId` is the key the database picks when it inserts. */
  function Upserted(p: Platform, newId: int, user: int, mod: string, role: string, enabled: bool,
                    scope: Option<ScopeIn>): Result<Platform, AdminError>
  {
    if user !in p.users then Raised(NotFound)
    else if (mod, role) !in p.catalog then Raised(UnknownRole)
    else if !AllKnown(p, scope) then Raised(UnknownClient)
    else
      var i := FindAssignment(p.db.direct, user, mod);
      var row := if i < |p.db.direct| then p.db.direct[i].(role := role, enabled := enabled)
                 else UserModuleRole(newId, user, mod, role, enabled, None, None);
      var row := WithTenant(row, p, scope);
      var direct := if i < |p.db.direct| then p.db.direct[i := row] else p.db.direct + [row];
      var scopes := if scope == None then p.db.directScopes
                    else RowsExcept(p.db.directScopes, row.id) + NewRows(p, row.id, scope.value);
      Ok(p.(db := p.db.(direct := direct, directScopes := scopes)))
  }

  function RemovedAssignment(p: Platform, user: int, mod: string): Result<Platform, AdminError> {
    var i := FindAssignment(p.db.direct, user, mod);
    if user !in p.users || i == |p.db.direct| then Raised(NotFound)
    else
      var id := p.db.direct[i].id;
      var direct := p.db.direct[..i] + p.db.direct[i + 1..];
      Ok(p.(db := p.db.(direct := direct, directScopes := RowsExcept(p.db.directScopes, id))))
  }

  // ------------------------------------------------------------------
  // Specification of the user writes
  // ------------------------------------------------------------------

  function ActiveSuperAdmins(users: map<int, UserRow>): set<int> {
    set u | u in users && users[u].role == SuperAdmin && users[u].active
  }

  function Activated(p: Platform, target: int, active: bool): Result<Platform, AdminError> {
    if target !in p.users then Raised(NotFound)
    else if !active && p.users[target].role == SuperAdmin && ActiveSuperAdmins(p.users) - {target} == {} then
      Raised(LastSuperAdmin)
    else Ok(p.(users := p.users[target := p.users[target].(active := active)]))
  }

  predicate IsAdminRole(role: PlatformRole) { role in {SuperAdmin, PlatformAdmin} }

  /** `newRole` is None for a string that names no platform role. */
  function RoleSet(p: Platform, actor: UserRow, target: int, newRole: Option<PlatformRole>)
    : Result<Platform, AdminError>
  {
    if target !in p.users then Raised(NotFound)
    else if newRole == None then Raised(UnknownRole)
    else
      var was, now := p.users[target].role, newRole.value;
      if (IsAdminRole(was) || IsAdminRole(now)) && actor.role !in p.adminManagers then Raised(NotPermitted)
      else if was == SuperAdmin && now != SuperAdmin && ActiveSuperAdmins(p.users) - {target} == {} then
        Raised(LastSuperAdmin)
      else Ok(p.(users := p.users[target := p.users[target].(role := now)]))
  }

  // ------------------------------------------------------------------
  // The service
  // ------------------------------------------------------------------

  /** `ref_map.get(id)` */
  function Lookup(refMap: map<int, string>, id: int): Option<string> {
    if id in refMap then Some(refMap[id]) else None
  }

  lemma RefsFound(p: Platform, scope: Option<ScopeIn>, refMap: map<int, string>)
    requires AllKnown(p, scope)
    requires refMap == if Listed(scope) then RefMap(p, scope.value.clientIds) else map[]
    ensures scope.Some? && !scope.value.allClients ==>
              forall k :: 0 <= k < |scope.value.clientIds| ==>
                  Lookup(refMap, scope.value.clientIds[k]) == PublicIdOf(p, scope.value.clientIds[k])
  {
  }

  class AdminService {
    var platform: Platform

    constructor (p: Platform)
      ensures platform == p
    {
      platform := p;
    }

    method ResolveClientScopeRefs(scope: Option<ScopeIn>) returns (r: Result<map<int, string>, AdminError>)
      ensures r.Ok? <==> AllKnown(platform, scope)
      ensures r.Ok? ==> r.value == if Listed(scope) then RefMap(platform, scope.value.clientIds) else map[]
      ensures r.Raised? ==> r.error == UnknownClient
    {
      if scope == None || scope.value.allClients || scope.value.clientIds == [] {
        return Ok(map[]);
      }
      var wanted := scope.value.clientIds;
      var resolved: map<int, string>, unknown: seq<int> := map[], [];
      for k := 0 to |wanted|
        invariant unknown == [] <==> forall a :: 0 <= a < k ==> PublicIdOf(platform, wanted[a]).Some?
        invariant resolved == RefMap(platform, wanted[..k])
      {
        assert wanted[..k + 1] == wanted[..k] + [wanted[k]];
        var id := wanted[k];
        if id in platform.publicIds {
          resolved := resolved[id := platform.publicIds[id]];
        } else if id in platform.legacyIds && platform.legacyIds[id] in platform.publicIds {
          resolved := resolved[id := platform.publicIds[platform.legacyIds[id]]];
        } else {
          unknown := unknown + [id];
        }
      }
      assert wanted[..|wanted|] == wanted;
      if unknown != [] {
        return Raised(UnknownClient);
      }
      return Ok(resolved);
    }

    /** Delete the assignment's scope rows, then add the submitted ones. */
    method ReplaceScopeRows(rows: seq<ScopeRow>, id: int, scope: ScopeIn, refMap: map<int, string>)
      returns (r: seq<ScopeRow>)
      requires !scope.allClients ==> forall k :: 0 <= k < |scope.clientIds| ==>
                 Lookup(refMap, scope.clientIds[k]) == PublicIdOf(platform, scope.clientIds[k])
      ensures r == RowsExcept(rows, id) + NewRows(platform, id, scope)
    {
      hide PublicIdOf, Lookup, RowsExcept;
      r := RowsExcept(rows, id);
      ghost var kept := r;
      if scope.allClients {
        return r + [ScopeRow(id, None, None, true)];
      }
      var ids := scope.clientIds;
      for k := 0 to |ids|
        invariant r == kept + ListRows(platform, id, ids[..k])
      {
        assert ids[..k + 1][..k] == ids[..k];
        r := r + [ScopeRow(id, Some(ids[k]), Lookup(refMap, ids[k]), false)];
      }
      assert ids[..|ids|] == ids;
    }

    method UpsertModuleAssignment(newId: int, user: int, mod: string, role: string, enabled: bool,
                                  scope: Option<ScopeIn>)
      returns (r: Result<(), AdminError>)
      modifies this
      ensures Upserted(old(platform), newId, user, mod, role, enabled, scope)
           == if r.Ok? then Ok(platform) else Raised(r.error)
      ensures r.Raised? ==> platform == old(platform)
    {
      if user !in platform.users { return Raised(NotFound); }
      if (mod, role) !in platform.catalog { return Raised(UnknownRole); }
      var refMap := ResolveClientScopeRefs(scope);
      if refMap.Raised? { return Raised(refMap.error); }
      RefsFound(platform, scope, refMap.value);
      hide AllKnown, PublicIdOf, Lookup, RefMap, Listed, RowsExcept, NewRows;
      var direct, scopes := platform.db.direct, platform.db.directScopes;
      var i := FindAssignment(direct, user, mod);
      var row: UserModuleRole;
      if i == |direct| {
        row := UserModuleRole(newId, user, mod, role, enabled, None, None);
      } else {
        row := direct[i].(role := role, enabled := enabled);
      }
      if scope.Some? {
        var ids := scope.value.clientIds;
        if !scope.value.allClients && |ids| == 1 {
          row := row.(clientId := Some(ids[0]), clientRef := Lookup(refMap.value, ids[0]));
        } else {
          row := row.(clientId := None, clientRef := None);
        }
        scopes := ReplaceScopeRows(scopes, row.id, scope.value, refMap.value);
      }
      direct := if i == |direct| then direct + [row] else direct[i := row];
      platform := platform.(db := platform.db.(direct := direct, directScopes := scopes));
      return Ok(());
    }

    method RemoveModuleAssignment(user: int, mod: string) returns (r: Result<(), AdminError>)
      modifies this
      ensures RemovedAssignment(old(platform), user, mod) == if r.Ok? then Ok(platform) else Raised(r.error)
      ensures r.Raised? ==> platform == old(platform)
    {
      if user !in platform.users { return Raised(NotFound); }
      var db := platform.db;
      var i := FindAssignment(db.direct, user, mod);
      if i == |db.direct| { return Raised(NotFound); }
      var id := db.direct[i].id;
      var direct := db.direct[..i] + db.direct[i + 1..];
      platform := platform.(db := db.(direct := direct, directScopes := RowsExcept(db.directScopes, id)));
      return Ok(());
    }

    method SetUserActive(target: int, active: bool) returns (r: Result<(), AdminError>)
      modifies this
      ensures Activated(old(platform), target, active) == if r.Ok? then Ok(platform) else Raised(r.error)
      ensures r.Raised? ==> platform == old(platform)
    {
      if target !in platform.users { return Raised(NotFound); }
      var row := platform.users[target];
      if !active && row.role == SuperAdmin && |ActiveSuperAdmins(platform.users) - {target}| == 0 {
        return Raised(LastSuperAdmin);
      }
      platform := platform.(users := platform.users[target := row.(active := active)]);
      return Ok(());
    }

    method SetPlatformRole(actor: UserRow, target: int, newRole: Option<PlatformRole>)
      returns (r: Result<(), AdminError>)
      modifies this
      ensures RoleSet(old(platform), actor, target, newRole) == if r.Ok? then Ok(platform) else Raised(r.error)
      ensures r.Raised? ==> platform == old(platform)
    {
      if target !in platform.users { return Raised(NotFound); }
      if newRole == None { return Raised(UnknownRole); }
      var row := platform.users[target];
      if IsAdminRole(row.role) || IsAdminRole(newRole.value) {
        if actor.role !in platform.adminManagers { return Raised(NotPermitted); }
      }
      if row.role == SuperAdmin && newRole.value != SuperAdmin && |ActiveSuperAdmins(platform.users) - {target}| == 0 {
        return Raised(LastSuperAdmin);
      }
      platform := platform.(users := platform.users[target := row.(role := newRole.value)]);
      return Ok(());
    }
  }

  // ------------------------------------------------------------------
  // What is written is what is read back
  // ------------------------------------------------------------------

  /** One assignment per (user, module), distinct ids, and no scope row without its assignment. */
  predicate Tidy(db: Database) {
    && (forall i, k :: 0 <= i < k < |db.direct| ==>
         && db.direct[i].id != db.direct[k].id
         && !(db.direct[i].userId == db.direct[k].userId && db.direct[i].moduleKey == db.direct[k].moduleKey))
    && (forall s :: 0 <= s < |db.directScopes| ==> HasAssignment(db.direct, db.directScopes[s].assignmentId))
  }

  predicate HasAssignment(direct: seq<UserModuleRole>, id: int) {
    exists i :: 0 <= i < |direct| && direct[i].id == id
  }

  predicate FreshId(db: Database, id: int) { forall i :: 0 <= i < |db.direct| ==> db.direct[i].id != id }

  lemma {:induction false} RowsOfRowsExcept(scopes: seq<ScopeRow>, gone: int, id: int)
    ensures RowsOf(RowsExcept(scopes, gone), id) == if id == gone then [] else RowsOf(scopes, id)
  {
    if scopes == [] {
    } else {
      var front, last := scopes[..|scopes| - 1], scopes[|scopes| - 1];
      RowsOfRowsExcept(front, gone, id);
      var kept := if last.assignmentId != gone then [last] else [];
      assert RowsExcept(scopes, gone) == RowsExcept(front, gone) + kept;
      RowsOfConcat(RowsExcept(front, gone), kept, id);
      OneRow(last, id);
    }
  }

  lemma {:induction false} RowsExceptKeepsOthers(scopes: seq<ScopeRow>, gone: int, r: ScopeRow)
    ensures r in RowsExcept(scopes, gone) ==> r in scopes && r.assignmentId != gone
  {
    if scopes == [] {
    } else {
      RowsExceptKeepsOthers(scopes[..|scopes| - 1], gone, r);
    }
  }

  lemma {:induction false} ListRowsAt(p: Platform, id: int, clientIds: seq<int>)
    ensures |ListRows(p, id, clientIds)| == |clientIds|
    ensures forall k :: 0 <= k < |clientIds| ==>
              ListRows(p, id, clientIds)[k] == ScopeRow(id, Some(clientIds[k]), PublicIdOf(p, clientIds[k]), false)
  {
    hide PublicIdOf;
    if clientIds == [] {
    } else {
      ListRowsAt(p, id, clientIds[..|clientIds| - 1]);
    }
  }

  lemma {:induction false} OwnRowsOnly(rows: seq<ScopeRow>, id: int, other: int)
    requires forall k :: 0 <= k < |rows| ==> rows[k].assignmentId == id
    ensures RowsOf(rows, other) == if other == id then rows else []
  {
    if rows == [] {
    } else {
      OwnRowsOnly(rows[..|rows| - 1], id, other);
      assert rows == rows[..|rows| - 1] + [rows[|rows| - 1]];
    }
  }

  lemma ListRowsAre(p: Platform, id: int, clientIds: seq<int>, other: int)
    ensures |ListRows(p, id, clientIds)| == |clientIds|
    ensures forall k :: 0 <= k < |clientIds| ==>
              ListRows(p, id, clientIds)[k] == ScopeRow(id, Some(clientIds[k]), PublicIdOf(p, clientIds[k]), false)
    ensures RowsOf(ListRows(p, id, clientIds), other) == if other == id then ListRows(p, id, clientIds) else []
  {
    hide PublicIdOf, ListRows, RowsOf;
    ListRowsAt(p, id, clientIds);
    OwnRowsOnly(ListRows(p, id, clientIds), id, other);
  }

  /** After an upsert, each assignment's scope rows: the new ones for the target, the old ones for everyone else. */
  lemma UpsertedRows(p: Platform, newId: int, user: int, mod: string, role: string, enabled: bool,
                     scope: Option<ScopeIn>, id: int)
    requires Upserted(p, newId, user, mod, role, enabled, scope).Ok?
    ensures var db' := Upserted(p, newId, user, mod, role, enabled, scope).value.db;
            var target := db'.direct[FindAssignment(p.db.direct, user, mod)].id;
            RowsOf(db'.directScopes, id) ==
              if scope.Some? && id == target then NewRows(p, id, scope.value) else RowsOf(p.db.directScopes, id)
  {
    hide AllKnown, PublicIdOf, RowsExcept, ListRows;
    var db' := Upserted(p, newId, user, mod, role, enabled, scope).value.db;
    var target := db'.direct[FindAssignment(p.db.direct, user, mod)].id;
    assert scope.Some? ==> db'.directScopes == RowsExcept(p.db.directScopes, target) + NewRows(p, target, scope.value);
    hide Upserted;
    if scope.Some? {
      RowsOfConcat(RowsExcept(p.db.directScopes, target), NewRows(p, target, scope.value), id);
      RowsOfRowsExcept(p.db.directScopes, target, id);
      ListRowsAre(p, target, scope.value.clientIds, id);
      assert [ScopeRow(target, None, None, true)][..0] == [];
    }
  }

  /**
   * Scope write and read-back: a non-empty client list reads back as exactly the
   * public ids of the list; ALL_CLIENTS and, notably, the empty list read back as
   * unrestricted.
   */
  lemma ScopeReadsBack(p: Platform, newId: int, user: int, mod: string, role: string, enabled: bool, scope: ScopeIn)
    requires Upserted(p, newId, user, mod, role, enabled, Some(scope)).Ok?
    ensures var db' := Upserted(p, newId, user, mod, role, enabled, Some(scope)).value.db;
            var i := FindAssignment(p.db.direct, user, mod);
            ScopeFor(DirectRows(db', i), REFS) ==
              if Listed(Some(scope))
                then Some(set k | 0 <= k < |scope.clientIds| :: PublicIdOf(p, scope.clientIds[k]).value)
              else None
  {
    var db' := Upserted(p, newId, user, mod, role, enabled, Some(scope)).value.db;
    var i := FindAssignment(p.db.direct, user, mod);
    var id := db'.direct[i].id;
    UpsertedRows(p, newId, user, mod, role, enabled, Some(scope), id);
    ReadListed(p, id, scope);
  }

  lemma ReadListed(p: Platform, id: int, scope: ScopeIn)
    requires AllKnown(p, Some(scope))
    ensures ScopeFor(NewRows(p, id, scope), REFS) ==
              if Listed(Some(scope))
                then Some(set k | 0 <= k < |scope.clientIds| :: PublicIdOf(p, scope.clientIds[k]).value)
              else None
  {
    hide PublicIdOf;
    if scope.allClients {
      assert NewRows(p, id, scope)[0].allClients;
    } else {
      ListRowsAre(p, id, scope.clientIds, id);
      if scope.clientIds != [] {
        var rows := ListRows(p, id, scope.clientIds);
        assert forall k :: 0 <= k < |rows| ==> rows[k].clientRef == PublicIdOf(p, scope.clientIds[k]);
        assert Named(rows, REFS) == set k | 0 <= k < |scope.clientIds| :: PublicIdOf(p, scope.clientIds[k]).value;
      }
    }
  }

  /** An upsert keeps one assignment per pair and leaves every other assignment and its scope alone. */
  lemma UpsertTouchesOneAssignment(p: Platform, newId: int, user: int, mod: string, role: string, enabled: bool,
                                   scope: Option<ScopeIn>)
    requires Tidy(p.db) && FreshId(p.db, newId)
    requires Upserted(p, newId, user, mod, role, enabled, scope).Ok?
    ensures var db' := Upserted(p, newId, user, mod, role, enabled, scope).value.db;
            var i := FindAssignment(p.db.direct, user, mod);
            && Tidy(db')
            && i < |db'.direct| && db'.direct[i].userId == user && db'.direct[i].moduleKey == mod
            && db'.direct[i].role == role && db'.direct[i].enabled == enabled
            && forall k :: 0 <= k < |p.db.direct| && k != i ==>
                 db'.direct[k] == p.db.direct[k] && DirectRows(db', k) == DirectRows(p.db, k)
  {
    hide AllKnown, PublicIdOf, RowsExcept, NewRows, DirectRows, RowsOf;
    var db' := Upserted(p, newId, user, mod, role, enabled, scope).value.db;
    var i := FindAssignment(p.db.direct, user, mod);
    var id := db'.direct[i].id;
    UpsertedDirect(p, newId, user, mod, role, enabled, scope);
    hide Upserted;
    forall k | 0 <= k < |p.db.direct| && k != i
      ensures db'.direct[k] == p.db.direct[k] && DirectRows(db', k) == DirectRows(p.db, k)
    {
      UpsertedRows(p, newId, user, mod, role, enabled, scope, p.db.direct[k].id);
      SameRows(p.db, db', k);
    }
    forall s | 0 <= s < |db'.directScopes|
      ensures HasAssignment(db'.direct, db'.directScopes[s].assignmentId)
    {
      var row := db'.directScopes[s];
      UpsertedRowOrigin(p, newId, user, mod, role, enabled, scope, row);
      if row.assignmentId == id {
        assert db'.direct[i].id == row.assignmentId;
      } else {
        OwnerOf(p.db, row);
        var a :| 0 <= a < |p.db.direct| && p.db.direct[a].id == row.assignmentId;
        assert db'.direct[a].id == row.assignmentId;
      }
    }
  }

  /** The assignment table after an upsert: one row replaced or one appended, the keys distinct as before. */
  lemma UpsertedDirect(p: Platform, newId: int, user: int, mod: string, role: string, enabled: bool,
                       scope: Option<ScopeIn>)
    requires Tidy(p.db) && FreshId(p.db, newId)
    requires Upserted(p, newId, user, mod, role, enabled, scope).Ok?
    ensures var direct := Upserted(p, newId, user, mod, role, enabled, scope).value.db.direct;
            var i := FindAssignment(p.db.direct, user, mod);
            && |direct| == (if i < |p.db.direct| then |p.db.direct| else i + 1)
            && (forall k :: 0 <= k < |p.db.direct| && k != i ==> direct[k] == p.db.direct[k])
            && direct[i].userId == user && direct[i].moduleKey == mod && direct[i].role == role
            && direct[i].enabled == enabled
            && direct[i].id == (if i < |p.db.direct| then p.db.direct[i].id else newId)
            && (forall a, b :: 0 <= a < b < |direct| ==>
                 && direct[a].id != direct[b].id
                 && !(direct[a].userId == direct[b].userId && direct[a].moduleKey == direct[b].moduleKey))
  {
    hide AllKnown, PublicIdOf, RowsExcept, NewRows, HasAssignment;
    var direct := Upserted(p, newId, user, mod, role, enabled, scope).value.db.direct;
    var i := FindAssignment(p.db.direct, user, mod);
    assert direct[i].userId == user && direct[i].moduleKey == mod;
  }

  lemma SameRows(db: Database, db': Database, k: nat)
    requires k < |db.direct| && k < |db'.direct| && db'.direct[k].id == db.direct[k].id
    requires RowsOf(db'.directScopes, db.direct[k].id) == RowsOf(db.directScopes, db.direct[k].id)
    ensures DirectRows(db', k) == DirectRows(db, k)
  {
  }

  lemma OwnerOf(db: Database, row: ScopeRow)
    requires Tidy(db) && row in db.directScopes
    ensures HasAssignment(db.direct, row.assignmentId)
  {
    var s :| 0 <= s < |db.directScopes| && db.directScopes[s] == row;
  }

  lemma UpsertedRowOrigin(p: Platform, newId: int, user: int, mod: string, role: string, enabled: bool,
                          scope: Option<ScopeIn>, row: ScopeRow)
    requires Upserted(p, newId, user, mod, role, enabled, scope).Ok?
    requires row in Upserted(p, newId, user, mod, role, enabled, scope).value.db.directScopes
    ensures var db' := Upserted(p, newId, user, mod, role, enabled, scope).value.db;
            row.assignmentId == db'.direct[FindAssignment(p.db.direct, user, mod)].id || row in p.db.directScopes
  {
    hide AllKnown, PublicIdOf;
    var db' := Upserted(p, newId, user, mod, role, enabled, scope).value.db;
    var target := db'.direct[FindAssignment(p.db.direct, user, mod)].id;
    if scope.Some? {
      RowsExceptKeepsOthers(p.db.directScopes, target, row);
      ListRowsAre(p, target, scope.value.clientIds, target);
    }
  }

  /** Removing an assignment takes its scope rows along, so a reused id starts clean. */
  lemma RemovalStaysTidy(p: Platform, user: int, mod: string)
    requires Tidy(p.db) && RemovedAssignment(p, user, mod).Ok?
    ensures var db' := RemovedAssignment(p, user, mod).value.db;
            && Tidy(db')
            && FindAssignment(db'.direct, user, mod) == |db'.direct|
            && RowsOf(db'.directScopes, p.db.direct[FindAssignment(p.db.direct, user, mod)].id) == []
  {
    hide RowsExcept, RowsOf;
    var db' := RemovedAssignment(p, user, mod).value.db;
    var i := FindAssignment(p.db.direct, user, mod);
    var id := p.db.direct[i].id;
    RowsOfRowsExcept(p.db.directScopes, id, id);
    NoneLeft(p.db, db'.direct, i, user, mod);
    hide FindAssignment, RemovedAssignment;
    assert forall k :: 0 <= k < |db'.direct| ==> db'.direct[k] == p.db.direct[if k < i then k else k + 1];
    forall s | 0 <= s < |db'.directScopes|
      ensures HasAssignment(db'.direct, db'.directScopes[s].assignmentId)
    {
      var row := db'.directScopes[s];
      RowsExceptKeepsOthers(p.db.directScopes, id, row);
      OwnerOf(p.db, row);
      var a :| 0 <= a < |p.db.direct| && p.db.direct[a].id == row.assignmentId;
      assert db'.direct[if a < i then a else a - 1] == p.db.direct[a];
    }
  }

  lemma NoneLeft(db: Database, direct: seq<UserModuleRole>, i: nat, user: int, mod: string)
    requires Tidy(db) && i < |db.direct| && db.direct[i].userId == user && db.direct[i].moduleKey == mod
    requires direct == db.direct[..i] + db.direct[i + 1..]
    ensures FindAssignment(direct, user, mod) == |direct|
  {
  }

  // ------------------------------------------------------------------
  // What a request does, and when it is refused
  // ------------------------------------------------------------------

  /** An active SUPER_ADMIN other than the target. */
  predicate AnotherSuperAdmin(users: map<int, UserRow>, target: int) {
    exists u :: u in users && u != target && users[u] == UserRow(SuperAdmin, true)
  }

  lemma OthersLeft(users: map<int, UserRow>, target: int)
    ensures ActiveSuperAdmins(users) - {target} == {} <==> !AnotherSuperAdmin(users, target)
  {
    var others := ActiveSuperAdmins(users) - {target};
    if AnotherSuperAdmin(users, target) {
      var u :| u in users && u != target && users[u] == UserRow(SuperAdmin, true);
      assert u in others;
    }
    if others != {} {
      var u := Someone(others);
      assert users[u] == UserRow(SuperAdmin, true);
    }
  }

  /** The platform with one user's row replaced, everything else as it was. */
  predicate OnlyUserChanged(p: Platform, p': Platform, target: int, row: UserRow) {
    && p'.users.Keys == p.users.Keys && target in p'.users && p'.users[target] == row
    && (forall u :: u in p.users && u != target ==> p'.users[u] == p.users[u])
    && p' == p.(users := p'.users)
  }

  /** Activation takes effect unless it would switch off the last active SUPER_ADMIN. */
  lemma ActivationEffect(p: Platform, target: int, active: bool)
    ensures var r := Activated(p, target, active);
            && (r.Ok? <==> target in p.users
                           && (active || p.users[target].role != SuperAdmin || AnotherSuperAdmin(p.users, target)))
            && (r.Ok? ==> OnlyUserChanged(p, r.value, target, UserRow(p.users[target].role, active)))
            && (r.Raised? ==> r.error == if target in p.users then LastSuperAdmin else NotFound)
  {
    OthersLeft(p.users, target);
    hide ActiveSuperAdmins, AnotherSuperAdmin;
  }

  /**
   * A role change takes effect when the role exists, when the actor manages
   * administrators if either role is one, and when it leaves an active SUPER_ADMIN
   * besides a demoted one.
   */
  lemma RoleChangeEffect(p: Platform, actor: UserRow, target: int, newRole: Option<PlatformRole>)
    ensures var r := RoleSet(p, actor, target, newRole);
            && (r.Ok? <==>
                && target in p.users && newRole.Some?
                && (p.users[target].role != PlatformUser || newRole.value != PlatformUser ==>
                      actor.role in p.adminManagers)
                && (p.users[target].role == SuperAdmin && newRole.value != SuperAdmin ==>
                      AnotherSuperAdmin(p.users, target)))
            && (r.Ok? ==> OnlyUserChanged(p, r.value, target, UserRow(newRole.value, p.users[target].active)))
            && (r.Raised? && r.error == LastSuperAdmin ==> actor.role in p.adminManagers)
  {
    OthersLeft(p.users, target);
    hide ActiveSuperAdmins, AnotherSuperAdmin;
  }

  /** A submitted id means the client of that id, and only where there is none the client of the legacy id. */
  predicate Denotes(p: Platform, id: int, publicId: string) {
    || (id in p.publicIds && publicId == p.publicIds[id])
    || (id !in p.publicIds && id in p.legacyIds && p.legacyIds[id] in p.publicIds
        && publicId == p.publicIds[p.legacyIds[id]])
  }

  /** When an upsert is refused, and what it leaves of the assignment's own columns, the legacy tenant included. */
  lemma UpsertEffect(p: Platform, newId: int, user: int, mod: string, role: string, enabled: bool,
                     scope: Option<ScopeIn>)
    ensures var r := Upserted(p, newId, user, mod, role, enabled, scope);
            var i := FindAssignment(p.db.direct, user, mod);
            && (r.Ok? <==> user in p.users && (mod, role) in p.catalog && AllKnown(p, scope))
            && (r.Raised? ==> r.error == if user !in p.users then NotFound
                                         else if (mod, role) !in p.catalog then UnknownRole else UnknownClient)
            && (r.Ok? ==>
                  && r.value == p.(db := p.db.(direct := r.value.db.direct, directScopes := r.value.db.directScopes))
                  && i < |r.value.db.direct|
                  && var row := r.value.db.direct[i];
                     && row.role == role && row.enabled == enabled
                     && (scope.Some? ==>
                           (row.clientId.Some? <==> !scope.value.allClients && |scope.value.clientIds| == 1))
                     && (scope.Some? && row.clientId.Some? ==>
                           && row.clientId.value == scope.value.clientIds[0]
                           && row.clientRef.Some? && Denotes(p, scope.value.clientIds[0], row.clientRef.value))
                     && (scope == None && i < |p.db.direct| ==>
                           row.clientId == p.db.direct[i].clientId && row.clientRef == p.db.direct[i].clientRef))
  {
    hide RowsExcept, NewRows;
  }

  /** The scope that an upsert with a client list leaves names exactly the clients the submitted ids mean. */
  lemma ListedIdsAreDenoted(p: Platform, newId: int, user: int, mod: string, role: string, enabled: bool,
                            scope: ScopeIn)
    requires Listed(Some(scope)) && Upserted(p, newId, user, mod, role, enabled, Some(scope)).Ok?
    ensures var db' := Upserted(p, newId, user, mod, role, enabled, Some(scope)).value.db;
            var names := ScopeFor(DirectRows(db', FindAssignment(p.db.direct, user, mod)), REFS);
            && names.Some?
            && forall x :: x in names.value <==>
                 exists k :: 0 <= k < |scope.clientIds| && Denotes(p, scope.clientIds[k], x)
  {
    ScopeReadsBack(p, newId, user, mod, role, enabled, scope);
    assert AllKnown(p, Some(scope));
    hide Upserted, ScopeFor;
  }

  // ------------------------------------------------------------------
  // Administrator safety over every run
  // ------------------------------------------------------------------

  /** Requests by an actor who is then a user of the platform. */
  datatype UserStep =
    | Activation(target: int, active: bool)
    | RoleChange(actor: int, target: int, newRole: Option<PlatformRole>)

  function AfterStep(p: Platform, step: UserStep): Platform {
    var r := match step
      case Activation(target, active) => Activated(p, target, active)
      case RoleChange(actor, target, newRole) =>
        if actor in p.users then RoleSet(p, p.users[actor], target, newRole) else Raised(NotFound);
    if r.Ok? then r.value else p
  }

  function AfterSteps(p: Platform, steps: seq<UserStep>): Platform {
    if steps == [] then p else AfterStep(AfterSteps(p, steps[..|steps| - 1]), steps[|steps| - 1])
  }

  lemma Someone(s: set<int>) returns (u: int)
    requires s != {}
    ensures u in s
  {
    if forall u :: u !in s { assert false; }
    u :| u in s;
  }

  /** No sequence of activations and role changes ever removes the last active SUPER_ADMIN. */
  lemma {:induction false} ASuperAdminAlwaysRemains(p: Platform, steps: seq<UserStep>)
    requires ActiveSuperAdmins(p.users) != {}
    ensures ActiveSuperAdmins(AfterSteps(p, steps).users) != {}
  {
    if steps == [] {
    } else {
      var before, step := AfterSteps(p, steps[..|steps| - 1]), steps[|steps| - 1];
      ASuperAdminAlwaysRemains(p, steps[..|steps| - 1]);
      var after := AfterStep(before, step);
      var admins := ActiveSuperAdmins(before.users);
      var u := Someone(admins);
      if u !in ActiveSuperAdmins(after.users) {
        var v := Someone(admins - {step.target});
        assert v in ActiveSuperAdmins(after.users);
      }
    }
  }

  /** Whoever gains or loses an administrator role does so by a step whose actor manages administrators then. */
  lemma AdminRolesChangeByManagersOnly(p: Platform, steps: seq<UserStep>, step: UserStep, u: int)
    ensures var (before, after) := (AfterSteps(p, steps), AfterSteps(p, steps + [step]));
            u in before.users ==>
              && u in after.users
              && (before.users[u].role != after.users[u].role
                  && (IsAdminRole(before.users[u].role) || IsAdminRole(after.users[u].role)) ==>
                    && step.RoleChange? && step.target == u
                    && step.actor in before.users && before.users[step.actor].role in p.adminManagers)
  {
    assert (steps + [step])[..|steps|] == steps;
    ManagersAreFixed(p, steps);
  }

  lemma {:induction false} ManagersAreFixed(p: Platform, steps: seq<UserStep>)
    ensures AfterSteps(p, steps).adminManagers == p.adminManagers
  {
    if steps == [] {
    } else {
      ManagersAreFixed(p, steps[..|steps| - 1]);
    }
  }
}
