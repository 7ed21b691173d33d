/** The user grid (src/components/Users/UserManagement.tsx): a search term
    and a role drop-down choose the users shown, two counters summarise
    them, and each card can switch its user on or off. */
module UserManagement {
  import opened Common
  import opened Domain
  import System

  /** The test of `filteredUsers` for the lower-cased term `q`: it occurs in
      the lower-cased name or e-mail, and the role drop-down accepts. */
  predicate Shown(u: User, q: string, roleFilter: string)
  {
    (Contains(Lower(u.name), q) || Contains(Lower(u.email), q)) && (roleFilter == "all" || u.role.Name() == roleFilter)
  }

  function ShownTest(q: string, roleFilter: string): User -> bool
  {
    u => Shown(u, q, roleFilter)
  }

  /** `filteredUsers`: exactly the users that pass the test, in order. */
  function FilteredUsers(users: seq<User>, term: string, roleFilter: string): (r: seq<User>)
    ensures forall u :: u in r <==> u in users && Shown(u, Lower(term), roleFilter)
    ensures IsSubsequence(r, users)
  {
    FilterIsSubsequence(users, ShownTest(Lower(term), roleFilter));
    Filter(users, ShownTest(Lower(term), roleFilter))
  }

  predicate IsActive(u: User)
  {
    u.isActive
  }

  /** The "Activos" counter: the active users among those shown. */
  function ActiveCount(shown: seq<User>): (n: nat)
  {
    |Filter(shown, IsActive)|
  }

  /** The active counter never exceeds the total, and equals it exactly when
      every user shown is active. */
  lemma {:induction false} ActiveAtMostTotal(shown: seq<User>)
    ensures ActiveCount(shown) <= |shown|
    ensures ActiveCount(shown) == |shown| <==> forall k :: 0 <= k < |shown| ==> shown[k].isActive
  {
    if shown != [] {
      ActiveAtMostTotal(shown[1..]);
      assert forall k :: 1 <= k < |shown| ==> shown[k] == shown[1..][k - 1];
    }
  }

  /** With an empty term and the role drop-down on "all" every user is
      shown. */
  lemma NoFilterShowsAll(users: seq<User>)
    ensures FilteredUsers(users, "", "all") == users
  {
    forall u | u in users ensures Shown(u, "", "all") {
      ContainsEmpty(Lower(u.name));
    }
    assert Lower("") == "";
    FilterKeepsAll(users, ShownTest("", "all"));
  }

  /** Choosing a role instead of "all" only hides cards. */
  lemma RoleFilterNarrows(users: seq<User>, term: string, roleFilter: string)
    ensures IsSubsequence(FilteredUsers(users, term, roleFilter), FilteredUsers(users, term, "all"))
  {
    FilterStricterIsSubsequence(users, ShownTest(Lower(term), roleFilter), ShownTest(Lower(term), "all"));
  }

  /** `toggleUserStatus(userId, isActive)`: the one-field update sent to the
      store. */
  function ToggleStatus(isActive: bool): (p: UserPatch)
    ensures p.isActive == Some(isActive)
  {
    NoUserChanges.(isActive := Some(isActive))
  }

  /** The toggle sets the flag of the users with that id and changes nothing
      else, in them or in any other user. */
  lemma ToggleStatusEffect(users: seq<User>, userId: string, isActive: bool)
    ensures var r := System.UpdateUsers(users, userId, ToggleStatus(isActive));
      && |r| == |users|
      && (forall k :: 0 <= k < |users| && users[k].id == userId ==> r[k] == users[k].(isActive := isActive))
      && (forall k :: 0 <= k < |users| && users[k].id != userId ==> r[k] == users[k])
  {
  }
}
