/**
 * Group membership on the user table: adding a user to a group, removing one
 * from it, and the usernames of a group's members.
 */
module Membership {
  import opened Domain

  type Users = map<UserId, User>

  /** The user table's `username` column is unique. */
  predicate UniqueUsernames(users: Users) {
    forall a, b :: a in users && b in users && users[a].username == users[b].username ==> a == b
  }

  predicate HasUsername(users: Users, username: string) {
    exists id :: id in users && users[id].username == username
  }

  /** `id` becomes a member of `g`; nothing else about any user changes. */
  function Join(users: Users, id: UserId, g: string): (r: Users)
    requires id in users
    ensures r.Keys == users.Keys
    ensures g in r[id].groups && r[id].groups - {g} == users[id].groups - {g}
    ensures r[id].username == users[id].username && r[id].isStaff == users[id].isStaff
    ensures forall other :: other in users && other != id ==> r[other] == users[other]
  {
    users[id := users[id].(groups := users[id].groups + {g})]
  }

  /** `id` stops being a member of `g`; nothing else about any user changes. */
  function Leave(users: Users, id: UserId, g: string): (r: Users)
    requires id in users
    ensures r.Keys == users.Keys
    ensures g !in r[id].groups && r[id].groups + {g} == users[id].groups + {g}
    ensures r[id].username == users[id].username && r[id].isStaff == users[id].isStaff
    ensures forall other :: other in users && other != id ==> r[other] == users[other]
  {
    users[id := users[id].(groups := users[id].groups - {g})]
  }

  /** The usernames of the members of `g`. */
  function MemberNames(users: Users, g: string): (r: set<string>)
    ensures forall id :: id in users && g in users[id].groups ==> users[id].username in r
    ensures forall name :: name in r ==>
      exists id :: id in users && g in users[id].groups && users[id].username == name
  {
    set id | id in users && g in users[id].groups :: users[id].username
  }

  /** Adding a member who already belongs changes nothing. */
  lemma JoinMemberIsNoOp(users: Users, id: UserId, g: string)
    requires id in users && g in users[id].groups
    ensures Join(users, id, g) == users
  {
    assert users[id].groups + {g} == users[id].groups;
    assert users[id].(groups := users[id].groups + {g}) == users[id];
  }

  /** Adding twice is adding once. */
  lemma JoinIsIdempotent(users: Users, id: UserId, g: string)
    requires id in users
    ensures Join(Join(users, id, g), id, g) == Join(users, id, g)
  {
  }

  /** Removing a non-member changes nothing. */
  lemma LeaveNonMemberIsNoOp(users: Users, id: UserId, g: string)
    requires id in users && g !in users[id].groups
    ensures Leave(users, id, g) == users
  {
  }

  /** Removing a member who was just added restores the table, when they were not one before. */
  lemma LeaveUndoesJoin(users: Users, id: UserId, g: string)
    requires id in users && g !in users[id].groups
    ensures Leave(Join(users, id, g), id, g) == users
  {
  }

  /** Adding a user to a group adds their username to the group's listing and nothing else. */
  lemma MemberNamesAfterJoin(users: Users, id: UserId, g: string)
    requires id in users
    ensures MemberNames(Join(users, id, g), g) == MemberNames(users, g) + {users[id].username}
  {
  }

  /**
   * Removing a user from a group removes their username from the group's
   * listing and nothing else (usernames being unique).
   */
  lemma MemberNamesAfterLeave(users: Users, id: UserId, g: string)
    requires id in users && UniqueUsernames(users)
    ensures MemberNames(Leave(users, id, g), g) == MemberNames(users, g) - {users[id].username}
  {
  }
}
