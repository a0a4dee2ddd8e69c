/** Roles as configured, as looked up from the role word on the chain, and as the cache keeps them. */
module Roles {
  import opened RbacContract

  datatype Action = Read | Create | Update | Delete

  datatype Permission = Permission(tool: string, actions: seq<Action>)

  datatype RoleConfig = RoleConfig(id: string, name: string, permissions: seq<Permission>)

  datatype Role = Role(id: string, name: string, permissions: seq<Permission>, isActive: bool)

  datatype RoleWithPermissions = RoleWithPermissions(
    roleId: string, isActive: bool, permissions: map<string, set<Action>>)

  function ActionSet(actions: seq<Action>): set<Action> {
    set a | a in actions
  }

  // ---------------------------------------------------------------- conversion

  /** The permission map built by setting each permission in turn. */
  function PermissionMap(permissions: seq<Permission>): map<string, set<Action>> {
    if permissions == [] then map[]
    else
      var last := permissions[|permissions| - 1];
      PermissionMap(permissions[..|permissions| - 1])[last.tool := ActionSet(last.actions)]
  }

  function ToRuntime(role: Role): RoleWithPermissions {
    RoleWithPermissions(role.id, role.isActive, PermissionMap(role.permissions))
  }

  /** Does the permission list allow an action on a tool, reading only the last permission for that tool. */
  ghost predicate LastMatchAllows(permissions: seq<Permission>, tool: string, action: Action) {
    exists i ::
      && 0 <= i < |permissions| && permissions[i].tool == tool && action in permissions[i].actions
      && forall j :: i < j < |permissions| ==> permissions[j].tool != tool
  }

  predicate Allows(permissions: map<string, set<Action>>, tool: string, action: Action) {
    tool in permissions && action in permissions[tool]
  }

  /** A last permission on another tool does not count. */
  lemma LastMatchSkips(permissions: seq<Permission>, last: Permission, tool: string, action: Action)
    requires last.tool != tool
    ensures LastMatchAllows(permissions + [last], tool, action) <==> LastMatchAllows(permissions, tool, action)
  {
    var all := permissions + [last];
    if i :| 0 <= i < |permissions| && permissions[i].tool == tool && action in permissions[i].actions &&
            forall j :: i < j < |permissions| ==> permissions[j].tool != tool {
      assert all[i] == permissions[i];
    }
    if i :| 0 <= i < |all| && all[i].tool == tool && action in all[i].actions &&
            forall j :: i < j < |all| ==> all[j].tool != tool {
      assert all[i] == permissions[i];
      assert forall j :: i < j < |permissions| ==> permissions[j] == all[j];
    }
  }

  /** The map lookup of the hot path decides as a scan for the last permission on the tool does. */
  lemma {:induction false} MapAgreesWithLastMatch(permissions: seq<Permission>, tool: string, action: Action)
    ensures Allows(PermissionMap(permissions), tool, action) <==> LastMatchAllows(permissions, tool, action)
    decreases |permissions|
  {
    if permissions != [] {
      var n := |permissions| - 1;
      var init, last := permissions[..n], permissions[n];
      assert permissions == init + [last];
      if last.tool != tool {
        MapAgreesWithLastMatch(init, tool, action);
        LastMatchSkips(init, last, tool, action);
      }
    }
  }

  /** A runtime role is the role: same id, same status, and it allows what the last permission on a tool allows. */
  ghost predicate Represents(r: RoleWithPermissions, role: Role) {
    && r.roleId == role.id && r.isActive == role.isActive
    && forall tool, action ::
         tool in r.permissions && action in r.permissions[tool] <==> LastMatchAllows(role.permissions, tool, action)
  }

  lemma RuntimeRepresents(role: Role)
    ensures Represents(ToRuntime(role), role)
  {
    forall tool, action
      ensures Allows(PermissionMap(role.permissions), tool, action) <==> LastMatchAllows(role.permissions, tool, action)
    {
      MapAgreesWithLastMatch(role.permissions, tool, action);
    }
  }

  /** Convert a role to its runtime form, one permission at a time. */
  method ConvertToRoleWithPermissions(role: Role) returns (r: RoleWithPermissions)
    ensures r == ToRuntime(role) && Represents(r, role)
  {
    var permissionsMap: map<string, set<Action>> := map[];
    for i := 0 to |role.permissions|
      invariant permissionsMap == PermissionMap(role.permissions[..i])
    {
      assert role.permissions[..i + 1][..i] == role.permissions[..i];
      var actions := ActionSet(role.permissions[i].actions);
      permissionsMap := permissionsMap[role.permissions[i].tool := actions];
    }
    assert role.permissions[..|role.permissions|] == role.permissions;
    RuntimeRepresents(role);
    return RoleWithPermissions(role.id, role.isActive, permissionsMap);
  }

  // ---------------------------------------------------------------- lookup

  /** The configured role whose hashed id is the given word, or a role without permissions. */
  function RoleForWord(roles: seq<RoleConfig>, hash: string -> Bytes32, show: Bytes32 -> string, word: Bytes32): Role {
    if roles == [] then
      Role(show(word), "Unknown Role", [], word != 0)
    else if hash(roles[0].id) == word then
      Role(roles[0].id, roles[0].name, roles[0].permissions, word != 0)
    else
      RoleForWord(roles[1..], hash, show, word)
  }

  /** If the hash tells the configured ids apart and is never zero, an agent given a configured role's hash gets
      that role, active, and no other. */
  lemma {:induction false} ConfiguredRoleFound(
      roles: seq<RoleConfig>, hash: string -> Bytes32, show: Bytes32 -> string, i: nat)
    requires i < |roles| && hash(roles[i].id) != 0
    requires forall j, k :: 0 <= j < k < |roles| ==> hash(roles[j].id) != hash(roles[k].id)
    ensures RoleForWord(roles, hash, show, hash(roles[i].id)) ==
            Role(roles[i].id, roles[i].name, roles[i].permissions, true)
  {
    if i != 0 {
      ConfiguredRoleFound(roles[1..], hash, show, i - 1);
    }
  }

  /** The role is active exactly when the word is not zero; a revoked agent gets an inactive role. */
  lemma {:induction false} ActiveIffWordSet(
      roles: seq<RoleConfig>, hash: string -> Bytes32, show: Bytes32 -> string, word: Bytes32)
    ensures RoleForWord(roles, hash, show, word).isActive <==> word != 0
  {
    if roles != [] {
      ActiveIffWordSet(roles[1..], hash, show, word);
    }
  }

  /** The i-th configured role is the first whose hashed id is the word. */
  ghost predicate FirstWithHash(roles: seq<RoleConfig>, hash: string -> Bytes32, word: Bytes32, i: int) {
    0 <= i < |roles| && hash(roles[i].id) == word && forall j :: 0 <= j < i ==> hash(roles[j].id) != word
  }

  ghost predicate AllowsNothing(r: RoleWithPermissions) {
    forall tool, action :: !(tool in r.permissions && action in r.permissions[tool])
  }

  /** What a role word stands for: it is active if the word is not zero; it is the first configured role with that
      hash, with that role's permissions; and a word that no configured role has allows nothing. */
  ghost predicate StandsForWord(
      r: RoleWithPermissions, roles: seq<RoleConfig>, hash: string -> Bytes32, word: Bytes32)
  {
    && (r.isActive <==> word != 0)
    && (forall i :: FirstWithHash(roles, hash, word, i) ==>
          && r.roleId == roles[i].id
          && forall tool, action ::
               tool in r.permissions && action in r.permissions[tool] <==>
               LastMatchAllows(roles[i].permissions, tool, action))
    && ((forall i :: 0 <= i < |roles| ==> hash(roles[i].id) != word) ==> AllowsNothing(r))
  }

  lemma {:induction false} RoleForWordIs(
      roles: seq<RoleConfig>, hash: string -> Bytes32, show: Bytes32 -> string, word: Bytes32)
    ensures var role := RoleForWord(roles, hash, show, word);
            && (forall i :: FirstWithHash(roles, hash, word, i) ==>
                  role.id == roles[i].id && role.permissions == roles[i].permissions)
            && ((forall i :: 0 <= i < |roles| ==> hash(roles[i].id) != word) ==> role.permissions == [])
  {
    if roles != [] && hash(roles[0].id) != word {
      RoleForWordIs(roles[1..], hash, show, word);
      forall i | FirstWithHash(roles, hash, word, i)
        ensures FirstWithHash(roles[1..], hash, word, i - 1)
      {
        assert roles[0] == roles[i - i];
      }
      if forall i :: 0 <= i < |roles| ==> hash(roles[i].id) != word {
        assert forall i :: 0 <= i < |roles[1..]| ==> roles[1..][i] == roles[i + 1];
      }
    }
  }

  /** The role made of a word is the one the word stands for. */
  lemma RuntimeStandsForWord(
      roles: seq<RoleConfig>, hash: string -> Bytes32, show: Bytes32 -> string, word: Bytes32)
    ensures StandsForWord(ToRuntime(RoleForWord(roles, hash, show, word)), roles, hash, word)
  {
    var role := RoleForWord(roles, hash, show, word);
    ActiveIffWordSet(roles, hash, show, word);
    RoleForWordIs(roles, hash, show, word);
    RuntimeRepresents(role);
    if forall i :: 0 <= i < |roles| ==> hash(roles[i].id) != word {
      assert forall tool, action :: !LastMatchAllows(role.permissions, tool, action);
    }
  }
}
