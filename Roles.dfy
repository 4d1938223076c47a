/** Role documents: the level assigned from the role name on save, the two
    guards that run before a role is removed, and the active-only find filter. */
module Roles {
  import opened Wrappers

  /** Power levels by role name; 1 is the most powerful. */
  const LevelOfPower: map<string, int> :=
    map["owner" := 1, "admin" := 2, "manager" := 3, "team lead" := 4, "moderator" := 5, "employee" := 6]

  /** Roles the system relies on and refuses to delete. */
  const DefaultRoles: set<string> := {"admin", "moderator", "team lead"}

  const DefaultLevel := 6

  /** The name a role gets when none is given. */
  const DefaultName := "employee"

  datatype RoleError =
    | InvalidRoleName        // 'In valid role name'
    | DefaultRoleProtected   // 'Cannot delete default system role'
    | RoleInUse(users: nat)  // the role still has users assigned

  /** `levelOfPower[name]`, undefined (`None`) for a name outside the table. */
  function LevelFor(name: string): (level: Option<int>)
    ensures level.Some? <==> name in LevelOfPower
    ensures level.Some? ==> 1 <= level.value <= 6
    ensures level.Some? ==> level.value == LevelOfPower[name]
  {
    if name in LevelOfPower then Some(LevelOfPower[name]) else None
  }

  /** The table gives every role a level of its own. */
  lemma LevelsAreDistinct(a: string, b: string)
    requires a in LevelOfPower && b in LevelOfPower && a != b
    ensures LevelOfPower[a] != LevelOfPower[b]
  {
  }

  /** The two pre-remove hooks, in the order they are registered: a default
      role is refused first, then a role that still has users. */
  function PreRemove(name: Option<string>, userCount: nat): (outcome: Outcome<RoleError>)
    ensures outcome.Fail? <==> (name.Some? && name.value in DefaultRoles) || userCount > 0
    ensures name.Some? && name.value in DefaultRoles ==> outcome == Fail(DefaultRoleProtected)
    ensures !(name.Some? && name.value in DefaultRoles) && userCount > 0 ==> outcome == Fail(RoleInUse(userCount))
  {
    if name.Some? && name.value in DefaultRoles then Fail(DefaultRoleProtected)
    else if userCount > 0 then Fail(RoleInUse(userCount))
    else Pass
  }

  /** Owner, manager and employee are not protected by the default-role guard:
      with no users assigned they can be removed. */
  lemma UnprotectedRoles(name: string)
    requires name in {"owner", "manager", "employee"}
    ensures PreRemove(Some(name), 0) == Pass
  {
  }

  class Role {
    /** `None` stands for a name set to `undefined` after construction. */
    var name: Option<string>
    /** `None` when the name is outside the table. */
    var level: Option<int>
    var isActive: bool

    /** A new document: the name defaults to employee, the level to 6, and
        the role is active. */
    constructor (name: Option<string>)
      ensures this.name == if name.None? then Some(DefaultName) else name
      ensures level == Some(DefaultLevel) && isActive
    {
      this.name := if name.None? then Some(DefaultName) else name;
      level := Some(DefaultLevel);
      isActive := true;
    }

    /** The pre-save hook. When the role is new or its name changed, an
        undefined name is an error and any other name gets its level from the
        table; otherwise the level is left alone. */
    method PreSave(isNew: bool, nameModified: bool) returns (outcome: Outcome<RoleError>)
      modifies this`level
      ensures (nameModified || isNew) && name.None? ==> outcome == Fail(InvalidRoleName) && level == old(level)
      ensures (nameModified || isNew) && name.Some? ==> outcome == Pass && level == LevelFor(name.value)
      ensures !(nameModified || isNew) ==> outcome == Pass && level == old(level)
    {
      outcome := Pass;
      if nameModified || isNew {
        if name.None? {
          return Fail(InvalidRoleName);
        }
        level := LevelFor(name.value);
      }
    }
  }

  /** A role created without a name is an employee role, and its first save
      passes with level 6. */
  method NewUnnamedRoleSaves() returns (role: Role, outcome: Outcome<RoleError>)
    ensures role.name == Some(DefaultName) && role.level == Some(6) && outcome == Pass
  {
    role := new Role(None);
    outcome := role.PreSave(true, false);
  }

  /** The `/^find/` hook: roles marked inactive are not returned. */
  function FindActive(roles: seq<Role>): (found: seq<Role>)
    reads roles
    ensures forall i :: 0 <= i < |found| ==> found[i].isActive && found[i] in roles
    ensures forall r :: r in roles && r.isActive ==> r in found
    ensures |found| <= |roles|
  {
    if roles == [] then []
    else
      var rest := FindActive(roles[1..]);
      if roles[0].isActive then [roles[0]] + rest else rest
  }
}
