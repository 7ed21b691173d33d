/** The security centre (src/components/Security/Security.tsx): the users
    locked out at this moment, the users with failed sign-in attempts and the
    total of those attempts, the active and whitelisted counts, and the alert
    panels built from them. The current time is a parameter. */
module Security {
  import opened Common
  import opened Domain
  import UserManagement

  /** `user.blockedUntil && new Date(user.blockedUntil) > new Date()`. */
  predicate IsBlocked(u: User, now: Timestamp)
  {
    u.blockedUntil.Some? && u.blockedUntil.value > now
  }

  /** `blockedUsers`: the users locked out at `now`, in the store's order. */
  function BlockedUsers(users: seq<User>, now: Timestamp): (r: seq<User>)
    ensures forall u :: u in r <==> u in users && u.blockedUntil.Some? && u.blockedUntil.value > now
    ensures IsSubsequence(r, users)
  {
    FilterIsSubsequence(users, u => IsBlocked(u, now));
    Filter(users, u => IsBlocked(u, now))
  }

  /** Locks run out: later, the blocked users are some of those blocked
      now. */
  lemma BlockedUsersShrinkOverTime(users: seq<User>, now: Timestamp, later: Timestamp)
    requires now <= later
    ensures IsSubsequence(BlockedUsers(users, later), BlockedUsers(users, now))
  {
    FilterStricterIsSubsequence(users, u => IsBlocked(u, later), u => IsBlocked(u, now));
  }

  predicate HasFailedAttempts(u: User)
  {
    u.failedAttempts > 0
  }

  /** `failedAttempts`: the users with at least one failed attempt. */
  function FailedAttemptUsers(users: seq<User>): (r: seq<User>)
    ensures forall u :: u in r <==> u in users && u.failedAttempts > 0
    ensures IsSubsequence(r, users)
  {
    FilterIsSubsequence(users, HasFailedAttempts);
    Filter(users, HasFailedAttempts)
  }

  /** `reduce((sum, u) => sum + u.failedAttempts, 0)`. */
  function SumAttempts(users: seq<User>): nat
  {
    if users == [] then 0 else users[0].failedAttempts + SumAttempts(users[1..])
  }

  /** The "Intentos Fallidos" figure: the attempts of the users that have
      some. */
  function FailedAttemptsTotal(users: seq<User>): nat
  {
    SumAttempts(FailedAttemptUsers(users))
  }

  /** Leaving out the users without failed attempts changes nothing: the
      figure is the total over all users, and it is zero exactly when no user
      has a failed attempt. */
  lemma {:induction false} FailedAttemptsTotalOverAllUsers(users: seq<User>)
    ensures FailedAttemptsTotal(users) == SumAttempts(users)
    ensures FailedAttemptsTotal(users) == 0 <==> FailedAttemptUsers(users) == []
  {
    if users != [] {
      FailedAttemptsTotalOverAllUsers(users[1..]);
      if HasFailedAttempts(users[0]) {
        assert FailedAttemptUsers(users) == [users[0]] + FailedAttemptUsers(users[1..]);
        assert ([users[0]] + FailedAttemptUsers(users[1..]))[1..] == FailedAttemptUsers(users[1..]);
      } else {
        assert FailedAttemptUsers(users) == FailedAttemptUsers(users[1..]);
      }
    }
  }

  /** The "Usuarios Activos" figure, counted as on the user grid. */
  function ActiveUsersCount(users: seq<User>): (n: nat)
    ensures n <= |users|
  {
    UserManagement.ActiveAtMostTotal(users);
    UserManagement.ActiveCount(users)
  }

  predicate Whitelisted(u: User)
  {
    u.whitelistEntry == Some(true)
  }

  /** The "Whitelist" figure: `users.filter(u => u.whitelistEntry).length`. */
  function WhitelistCount(users: seq<User>): (n: nat)
    ensures n <= |users|
  {
    |Filter(users, Whitelisted)|
  }

  /** The whitelist figure counts exactly the whitelisted users: it is the
      total exactly when every user is whitelisted. */
  lemma {:induction false} WhitelistCountIsTotalIffAll(users: seq<User>)
    ensures WhitelistCount(users) == |users| <==> forall k :: 0 <= k < |users| ==> users[k].whitelistEntry == Some(true)
  {
    if users != [] {
      WhitelistCountIsTotalIffAll(users[1..]);
      assert forall k :: 1 <= k < |users| ==> users[k] == users[1..][k - 1];
    }
  }

  /** One panel of "Alertas de Seguridad". */
  datatype Alert = BlockedAlert(count: nat) | FailedAlert(count: nat) | AllClear

  /** The panels shown, top to bottom. */
  function Alerts(users: seq<User>, now: Timestamp): (r: seq<Alert>)
    ensures |r| <= 2
  {
    var blocked := BlockedUsers(users, now);
    var failed := FailedAttemptUsers(users);
    (if |blocked| > 0 then [BlockedAlert(|blocked|)] else [])
    + (if |failed| > 0 then [FailedAlert(|failed|)] else [])
    + (if |blocked| == 0 && |failed| == 0 then [AllClear] else [])
  }

  /** "No hay alertas de seguridad" is shown exactly when no user is locked
      out and no user has a failed attempt, and then it is the only panel;
      otherwise every panel counts its users. */
  lemma AllClearIffNoAlerts(users: seq<User>, now: Timestamp)
    ensures AllClear in Alerts(users, now)
      <==> forall k :: 0 <= k < |users| ==> !IsBlocked(users[k], now) && users[k].failedAttempts == 0
    ensures AllClear in Alerts(users, now) ==> Alerts(users, now) == [AllClear]
    ensures forall a :: a in Alerts(users, now) && a.BlockedAlert? ==> a.count == |BlockedUsers(users, now)| > 0
    ensures forall a :: a in Alerts(users, now) && a.FailedAlert? ==> a.count == |FailedAttemptUsers(users)| > 0
  {
    var blocked := BlockedUsers(users, now);
    var failed := FailedAttemptUsers(users);
    if forall k :: 0 <= k < |users| ==> !IsBlocked(users[k], now) && users[k].failedAttempts == 0 {
      assert forall u :: u !in blocked && u !in failed;
    }
  }
}
