/**
 * The per-game player role: who holds it, granting and revoking it, and the
 * three-way rule that decides what a submission does to it.
 */
module Roles {
  import opened Common
  import opened Text

  type UserId = int

  /** A guild role looked up by name: missing, or present with the set of members holding it. */
  type Role = Option<set<UserId>>

  /** Every holder of the role is a member of the guild. */
  predicate HoldersAreMembers(members: seq<UserId>, role: Role) {
    role.Some? ==> forall u :: u in role.value ==> u in members
  }

  /** `get_members_with_role`: the guild's members holding the role, in guild order; nobody when it does not exist. */
  function MembersWithRole(members: seq<UserId>, role: Role): (ms: seq<UserId>)
    ensures role.None? ==> ms == []
    ensures forall u :: u in ms <==> role.Some? && u in role.value && u in members
  {
    if role.None? then [] else Keep(members, u => u in role.value)
  }

  /** `assign_role`: grants the role when it exists and reports whether it did. */
  function AssignRole(role: Role, m: UserId): (r: (Role, bool))
    ensures r.1 <==> role.Some?
    ensures role.None? ==> r.0 == role
    ensures role.Some? ==> r.0.Some? && r.0.value == role.value + {m}
    ensures r.0.Some? ==> m in r.0.value
  {
    if role.Some? then (Some(role.value + {m}), true) else (role, false)
  }

  /** `remove_role`: takes the role away from a member who holds it; for anyone else it does nothing and reports `False`. */
  function RemoveRole(role: Role, m: UserId): (r: (Role, bool))
    ensures r.1 <==> role.Some? && m in role.value
    ensures !r.1 ==> r.0 == role
    ensures r.1 ==> r.0.Some? && r.0.value == role.value - {m}
    ensures r.0.Some? ==> m !in r.0.value
  {
    if role.Some? && m in role.value then (Some(role.value - {m}), true) else (role, false)
  }

  /**
   * The revocation loop of a new record: every listed holder loses the
   * role, one `remove_role` at a time.
   */
  method RevokeAll(members: seq<UserId>, role: Role) returns (role': Role)
    ensures role'.None? <==> role.None?
    ensures role'.Some? ==> forall u :: u in role'.value <==> u in role.value && u !in members
  {
    var holders := MembersWithRole(members, role);
    role' := role;
    var i := 0;
    while i < |holders|
      invariant 0 <= i <= |holders|
      invariant role'.None? <==> role.None?
      invariant role'.Some? ==> forall u :: u in role'.value <==> u in role.value && u !in holders[..i]
    {
      assert holders[..i + 1] == holders[..i] + [holders[i]];
      role' := RemoveRole(role', holders[i]).0;
      i := i + 1;
    }
    assert holders[..|holders|] == holders;
  }

  /**
   * `handle_game_role_assignment` with the two game numbers it expects: a
   * newer game makes the submitter the only holder, the same game adds the
   * submitter, an older game changes nothing and answers `False`. The
   * answer is `True` only when a grant happened, which needs the role.
   */
  function RoleAssignment(role: Role, m: UserId, current: int, latest: int): (r: (Role, bool))
    ensures current > latest && role.Some? ==> r.0 == Some({m}) && r.1
    ensures current == latest && role.Some? ==> r.0 == Some(role.value + {m}) && r.1
    ensures current < latest ==> r.0 == role && !r.1
    ensures role.None? ==> r.0 == None && !r.1
    ensures r.1 <==> role.Some? && current >= latest
  {
    if current > latest then
      var cleared: Role := if role.Some? then Some({}) else None;
      assert {} + {m} == {m};
      AssignRole(cleared, m)
    else if current == latest then
      AssignRole(role, m)
    else
      (role, false)
  }

  /** The source's asynchronous sequence of calls computes `RoleAssignment`. */
  method HandleGameRoleAssignment(members: seq<UserId>, role: Role, m: UserId, current: int, latest: int)
      returns (role': Role, ok: bool)
    requires HoldersAreMembers(members, role)
    ensures (role', ok) == RoleAssignment(role, m, current, latest)
  {
    if current > latest {
      var cleared := RevokeAll(members, role);
      if cleared.Some? {
        assert cleared.value == {} by {
          forall u | u in cleared.value ensures false { }
        }
      }
      role', ok := AssignRole(cleared, m).0, AssignRole(cleared, m).1;
    } else if current == latest {
      role', ok := AssignRole(role, m).0, AssignRole(role, m).1;
    } else {
      role', ok := role, false;
    }
  }

  /** Two submissions of the same game leave both submitters holding the role; a newer game leaves only its submitter. */
  lemma SameGameAccumulates(role: Role, a: UserId, b: UserId, n: int, latest: int)
    requires role.Some? && n > latest
    ensures var first := RoleAssignment(role, a, n, latest).0;
      var second := RoleAssignment(first, b, n, n).0;
      second == Some({a, b})
  {
    assert {} + {a} == {a};
    assert {a} + {b} == {a, b};
  }
}
