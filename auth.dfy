/** Sign-in of src/contexts/AuthContext.tsx: the user list the provider keeps
    (and changes in place), the current user, and `login`, which checks in
    order that the address is known, that the account is not locked, that the
    whitelist admits it and that the password is the demo password, counting
    failures and locking the account once they reach the configured limit.
    The clock, the saved configuration and a saved session are parameters;
    the one-second delay and local storage are not modelled. */
module Auth {
  import opened Common
  import opened Domain

  /** The one password the demo accepts. */
  const DemoPassword := "password123"

  /** The users the provider starts with; fields the source leaves out read as
      empty or false. */
  function AuthMockUsers(): seq<User>
  {
    [User("1", "admin@company.com", "Administrador Sistema", Admin, None, [], true, false, 1704067200000, None, 0, None, Some(true)),
     User("2", "tech1@company.com", "Juan Pérez", Technician, Some("IT Support"), [], true, false, 1704067200000, None, 0, None, None),
     User("3", "user@company.com", "María García", EndUser, Some("Marketing"), [], true, false, 1704067200000, None, 0, None, None)]
  }

  // ---------------------------------------------------------------------------
  // The saved security settings
  // ---------------------------------------------------------------------------

  /** JavaScript truthiness of a configuration value. */
  predicate Truthy(v: ConfigValue)
  {
    match v
    case Text(t) => t != ""
    case Number(n) => n != 0
    case Flag(b) => b
    case Providers(_) => true
  }

  /** `systemConfig.security?.[field]`, when present. */
  function SecurityField(saved: Config, field: string): Option<ConfigValue>
  {
    if "security" in saved && field in saved["security"] then Some(saved["security"][field]) else None
  }

  predicate RequireWhitelist(saved: Config)
  {
    var v := SecurityField(saved, "requireWhitelist");
    v.Some? && Truthy(v.value)
  }

  /** A non-zero number is saved under `field`. */
  predicate SavedNumber(saved: Config, field: string)
  {
    var v := SecurityField(saved, field);
    v.Some? && v.value.Number? && v.value.number != 0
  }

  /** `systemConfig.security?.[field] || fallback` for a numeric setting. */
  function NumberSetting(saved: Config, field: string, fallback: int): (n: int)
    ensures SavedNumber(saved, field) ==> SecurityField(saved, field) == Some(Number(n))
    ensures !SavedNumber(saved, field) ==> n == fallback
  {
    if SavedNumber(saved, field) then SecurityField(saved, field).value.number else fallback
  }

  function MaxFailedAttempts(saved: Config): int
  {
    NumberSetting(saved, "maxFailedAttempts", 3)
  }

  function LockoutMinutes(saved: Config): int
  {
    NumberSetting(saved, "lockoutDuration", 15)
  }

  /** With no saved security section the fallbacks apply, and they are the
      values the default configuration stores: three attempts, fifteen
      minutes, no whitelist. */
  lemma FallbacksMatchDefaults(saved: Config)
    requires "security" !in saved
    ensures MaxFailedAttempts(saved) == MaxFailedAttempts(DefaultConfig()) == 3
    ensures LockoutMinutes(saved) == LockoutMinutes(DefaultConfig()) == 15
    ensures !RequireWhitelist(saved) && !RequireWhitelist(DefaultConfig())
  {
    var sec := DefaultConfig()["security"];
    assert sec["maxFailedAttempts"] == Number(3) && sec["lockoutDuration"] == Number(15);
    assert sec["requireWhitelist"] == Flag(false);
  }

  /** The end of a lock of `minutes` minutes (60000 ms each) that starts at
      `now`; an instant before the epoch is represented by 0, which is just as
      much in the past. */
  function LockUntil(now: Timestamp, minutes: int): (t: Timestamp)
    ensures minutes > 0 ==> t == now + minutes * 60000 && t > now
    ensures minutes <= 0 ==> t <= now
  {
    var t := now + minutes * 60000;
    if t >= 0 then t else 0
  }

  // ---------------------------------------------------------------------------
  // One login attempt, as a function of the state before it
  // ---------------------------------------------------------------------------

  /** `mockUsers.find(u => u.email === email)`, as an index. */
  function FindByEmail(users: seq<User>, email: string): (r: Option<nat>)
    ensures r.None? <==> forall k :: 0 <= k < |users| ==> users[k].email != email
    ensures r.Some? ==>
      (r.value < |users| && users[r.value].email == email && forall j :: 0 <= j < r.value ==> users[j].email != email)
  {
    if users == [] then None
    else if users[0].email == email then Some(0)
    else
      var r := FindByEmail(users[1..], email);
      assert forall k :: 1 <= k < |users| ==> users[k] == users[1..][k - 1];
      if r.None? then None else Some(r.value + 1)
  }

  predicate IsLocked(u: User, now: Timestamp)
  {
    u.blockedUntil.Some? && u.blockedUntil.value > now
  }

  predicate Whitelisted(u: User, saved: Config)
  {
    !RequireWhitelist(saved) || u.whitelistEntry == Some(true)
  }

  /** The account after a wrong password: one more failure, and a lock from
      `now` once the failures reach the limit. */
  function AfterFailure(u: User, now: Timestamp, saved: Config): User
  {
    var v := u.(failedAttempts := u.failedAttempts + 1);
    if v.failedAttempts >= MaxFailedAttempts(saved) then v.(blockedUntil := Some(LockUntil(now, LockoutMinutes(saved))))
    else v
  }

  /** The account after a successful sign-in. */
  function AfterSuccess(u: User, now: Timestamp): User
  {
    u.(failedAttempts := 0, blockedUntil := None, lastLogin := Some(now))
  }

  datatype LoginResult = LoginResult(success: bool, users: seq<User>)

  /** `login`. */
  function LoginStep(users: seq<User>, email: string, password: string, now: Timestamp, saved: Config): (r: LoginResult)
    ensures |r.users| == |users|
  {
    var found := FindByEmail(users, email);
    if found.None? then LoginResult(false, users)
    else
      var u := users[found.value];
      if IsLocked(u, now) then LoginResult(false, users)
      else if !Whitelisted(u, saved) then LoginResult(false, users)
      else if password != DemoPassword then LoginResult(false, users[found.value := AfterFailure(u, now, saved)])
      else LoginResult(true, users[found.value := AfterSuccess(u, now)])
  }

  /** An unknown address is refused and changes nothing. */
  lemma UnknownEmailIsRefused(users: seq<User>, email: string, password: string, now: Timestamp, saved: Config)
    requires forall k :: 0 <= k < |users| ==> users[k].email != email
    ensures LoginStep(users, email, password, now, saved) == LoginResult(false, users)
  {
  }

  /** A locked account is refused before its password is looked at: even the
      right password fails and the failure count stays. */
  lemma LockedAccountIsRefused(users: seq<User>, email: string, password: string, now: Timestamp, saved: Config, k: nat)
    requires FindByEmail(users, email) == Some(k) && IsLocked(users[k], now)
    ensures LoginStep(users, email, password, now, saved) == LoginResult(false, users)
  {
  }

  /** With the whitelist required, an account not on it is refused and
      nothing changes. */
  lemma NonWhitelistedIsRefused(users: seq<User>, email: string, password: string, now: Timestamp, saved: Config, k: nat)
    requires FindByEmail(users, email) == Some(k) && !IsLocked(users[k], now)
    requires RequireWhitelist(saved) && users[k].whitelistEntry != Some(true)
    ensures LoginStep(users, email, password, now, saved) == LoginResult(false, users)
  {
  }

  /** A wrong password is refused, adds exactly one failure to that account,
      locks it for the configured minutes when the failures reach the limit,
      and leaves every other account as it was. */
  lemma WrongPasswordCounts(users: seq<User>, email: string, password: string, now: Timestamp, saved: Config, k: nat)
    requires FindByEmail(users, email) == Some(k) && !IsLocked(users[k], now) && Whitelisted(users[k], saved)
    requires password != DemoPassword
    ensures var r := LoginStep(users, email, password, now, saved);
      && !r.success && |r.users| == |users|
      && r.users[k].failedAttempts == users[k].failedAttempts + 1
      && (r.users[k].failedAttempts >= MaxFailedAttempts(saved) ==>
            r.users[k].blockedUntil == Some(LockUntil(now, LockoutMinutes(saved))))
      && (r.users[k].failedAttempts < MaxFailedAttempts(saved) ==> r.users[k].blockedUntil == users[k].blockedUntil)
      && r.users[k] == users[k].(failedAttempts := r.users[k].failedAttempts, blockedUntil := r.users[k].blockedUntil)
      && (forall j :: 0 <= j < |users| && j != k ==> r.users[j] == users[j])
  {
  }

  /** The right password signs in, clears the failures and the lock and
      records the time; no other account changes. */
  lemma RightPasswordSignsIn(users: seq<User>, email: string, now: Timestamp, saved: Config, k: nat)
    requires FindByEmail(users, email) == Some(k) && !IsLocked(users[k], now) && Whitelisted(users[k], saved)
    ensures var r := LoginStep(users, email, DemoPassword, now, saved);
      && r.success && |r.users| == |users|
      && r.users[k].failedAttempts == 0 && r.users[k].blockedUntil.None? && r.users[k].lastLogin == Some(now)
      && r.users[k] == users[k].(failedAttempts := 0, blockedUntil := None, lastLogin := Some(now))
      && (forall j :: 0 <= j < |users| && j != k ==> r.users[j] == users[j])
  {
  }

  /** Success needs a known, unlocked, admitted account and the demo
      password, and those are enough. */
  lemma LoginSucceedsExactly(users: seq<User>, email: string, password: string, now: Timestamp, saved: Config)
    ensures LoginStep(users, email, password, now, saved).success <==>
      exists k :: 0 <= k < |users| && FindByEmail(users, email) == Some(k) && !IsLocked(users[k], now)
        && Whitelisted(users[k], saved) && password == DemoPassword
  {
  }

  /** `n` wrong passwords in a row, all at `now`. */
  function WrongAttempts(users: seq<User>, email: string, password: string, now: Timestamp, saved: Config, n: nat): (r: seq<User>)
    ensures |r| == |users|
    decreases n
  {
    if n == 0 then users
    else LoginStep(WrongAttempts(users, email, password, now, saved, n - 1), email, password, now, saved).users
  }

  /** Starting from no failures, `n` wrong passwords below the limit leave `n`
      failures and the lock as it was, and the account stays where it was. */
  lemma {:induction false} WrongAttemptsCount(users: seq<User>, email: string, password: string, now: Timestamp,
                                              saved: Config, k: nat, n: nat)
    requires FindByEmail(users, email) == Some(k) && !IsLocked(users[k], now) && Whitelisted(users[k], saved)
    requires password != DemoPassword && users[k].failedAttempts == 0 && n < MaxFailedAttempts(saved)
    ensures WrongAttempts(users, email, password, now, saved, n) == users[k := users[k].(failedAttempts := n)]
  {
    if n == 0 {
      NoWrongAttempts(users, email, password, now, saved, k);
    } else {
      WrongAttemptsCount(users, email, password, now, saved, k, n - 1);
      NextWrongAttempt(users, email, password, now, saved, k, n);
    }
  }

  lemma NoWrongAttempts(users: seq<User>, email: string, password: string, now: Timestamp, saved: Config, k: nat)
    requires k < |users| && users[k].failedAttempts == 0
    ensures WrongAttempts(users, email, password, now, saved, 0) == users[k := users[k].(failedAttempts := 0)]
  {
    assert users[k].(failedAttempts := 0) == users[k];
  }

  /** The step of the count: one more wrong password after `n - 1`. */
  lemma NextWrongAttempt(users: seq<User>, email: string, password: string, now: Timestamp,
                         saved: Config, k: nat, n: nat)
    requires FindByEmail(users, email) == Some(k) && !IsLocked(users[k], now) && Whitelisted(users[k], saved)
    requires password != DemoPassword && users[k].failedAttempts == 0 && 1 <= n < MaxFailedAttempts(saved)
    requires WrongAttempts(users, email, password, now, saved, n - 1) == users[k := users[k].(failedAttempts := n - 1)]
    ensures WrongAttempts(users, email, password, now, saved, n) == users[k := users[k].(failedAttempts := n)]
  {
    var before := WrongAttempts(users, email, password, now, saved, n - 1);
    var u := users[k].(failedAttempts := n - 1);
    assert FindByEmail(before, email) == Some(k) && before[k] == u by {
      FindByEmailAfterUpdate(users, email, k, u);
    }
    assert WrongAttempts(users, email, password, now, saved, n) == before[k := users[k].(failedAttempts := n)] by {
      WrongAttemptBelowLimit(before, users[k], email, password, now, saved, k, n);
    }
    assert before[k := users[k].(failedAttempts := n)] == users[k := users[k].(failedAttempts := n)];
  }

  /** Replacing the found account by one with the same address keeps it the
      one found. */
  lemma FindByEmailAfterUpdate(users: seq<User>, email: string, k: nat, u: User)
    requires FindByEmail(users, email) == Some(k) && u.email == email
    ensures FindByEmail(users[k := u], email) == Some(k)
  {
    var v := users[k := u];
    assert v[k].email == email;
    assert forall j :: 0 <= j < k ==> v[j] == users[j];
    var r := FindByEmail(v, email);
  }

  /** After `n` wrong passwords the account is still found at `k`, holding
      `n` failures and otherwise as it was. */
  predicate CountedAt(users: seq<User>, email: string, password: string, now: Timestamp, saved: Config,
                      k: nat, n: nat)
    requires k < |users|
  {
    var before := WrongAttempts(users, email, password, now, saved, n);
    FindByEmail(before, email) == Some(k) && before[k] == users[k].(failedAttempts := n)
  }

  /** The wrong password that brings the failures to the limit locks the
      account from `now` for the configured minutes. */
  lemma {:induction false} WrongAttemptsReachLimit(users: seq<User>, email: string, password: string, now: Timestamp,
                                                   saved: Config, k: nat)
    requires FindByEmail(users, email) == Some(k) && !IsLocked(users[k], now) && Whitelisted(users[k], saved)
    requires password != DemoPassword && users[k].failedAttempts == 0 && MaxFailedAttempts(saved) >= 1
    requires LockoutMinutes(saved) > 0
    ensures var m := MaxFailedAttempts(saved) as nat;
      var after := WrongAttempts(users, email, password, now, saved, m);
      && FindByEmail(after, email) == Some(k)
      && after[k].failedAttempts == m
      && after[k].blockedUntil == Some(now + LockoutMinutes(saved) * 60000)
  {
    var minutes := LockoutMinutes(saved);
    ReachLimitAt(users, email, password, now, saved, k, MaxFailedAttempts(saved) as nat, minutes);
    assert LockUntil(now, minutes) == now + minutes * 60000;
  }

  /** `WrongAttemptsReachLimit` with the limit `m` and the lock length
      `minutes` read once. */
  lemma {:induction false} ReachLimitAt(users: seq<User>, email: string, password: string, now: Timestamp,
                     saved: Config, k: nat, m: nat, minutes: int)
    requires FindByEmail(users, email) == Some(k) && !IsLocked(users[k], now) && Whitelisted(users[k], saved)
    requires password != DemoPassword && users[k].failedAttempts == 0
    requires m == MaxFailedAttempts(saved) >= 1 && minutes == LockoutMinutes(saved) > 0
    ensures var after := WrongAttempts(users, email, password, now, saved, m);
      && FindByEmail(after, email) == Some(k)
      && after[k].failedAttempts == m
      && after[k].blockedUntil == Some(LockUntil(now, minutes))
  {
    OneShortOfLimit(users, email, password, now, saved, k, m - 1);
    LimitStep(users, email, password, now, saved, k, m, minutes);
  }

  /** The attempt that reaches the limit, from the account one short of it. */
  lemma {:induction false} LimitStep(users: seq<User>, email: string, password: string, now: Timestamp,
                                     saved: Config, k: nat, m: nat, minutes: int)
    requires k < |users| && !IsLocked(users[k], now) && Whitelisted(users[k], saved) && password != DemoPassword
    requires m == MaxFailedAttempts(saved) >= 1 && minutes == LockoutMinutes(saved) > 0
    requires CountedAt(users, email, password, now, saved, k, m - 1)
    ensures var after := WrongAttempts(users, email, password, now, saved, m);
      && FindByEmail(after, email) == Some(k)
      && after[k].failedAttempts == m
      && after[k].blockedUntil == Some(LockUntil(now, minutes))
  {
    var u := users[k].(failedAttempts := m - 1);
    var before := WrongAttempts(users, email, password, now, saved, m - 1);
    var failed := u.(failedAttempts := m, blockedUntil := Some(LockUntil(now, minutes)));
    LastWrongAttempt(before, u, email, password, now, saved, k, m, minutes);
    WrongAttemptsUnfold(users, email, password, now, saved, m);
    FindByEmailAfterUpdate(before, email, k, failed);
  }

  /** `WrongAttempts` for `n >= 1` is one more attempt after `n - 1`. */
  lemma WrongAttemptsUnfold(users: seq<User>, email: string, password: string, now: Timestamp, saved: Config, n: nat)
    requires n >= 1
    ensures WrongAttempts(users, email, password, now, saved, n)
      == LoginStep(WrongAttempts(users, email, password, now, saved, n - 1), email, password, now, saved).users
  {
  }

  /** The wrong password one short of the limit replaces the account by its
      locked state. */
  lemma LastWrongAttempt(before: seq<User>, u: User, email: string, password: string, now: Timestamp,
                         saved: Config, k: nat, m: nat, minutes: int)
    requires FindByEmail(before, email) == Some(k) && before[k] == u && !IsLocked(u, now) && Whitelisted(u, saved)
    requires password != DemoPassword && u.failedAttempts + 1 == m == MaxFailedAttempts(saved)
    requires minutes == LockoutMinutes(saved) > 0
    ensures LoginStep(before, email, password, now, saved).users
      == before[k := u.(failedAttempts := m, blockedUntil := Some(LockUntil(now, minutes)))]
  {
    WrongPasswordStep(before, email, password, now, saved, k);
  }

  /** Below the limit the account is still found where it was, holding the
      failures so far. */
  lemma {:induction false} OneShortOfLimit(users: seq<User>, email: string, password: string, now: Timestamp, saved: Config,
                        k: nat, n: nat)
    requires FindByEmail(users, email) == Some(k) && !IsLocked(users[k], now) && Whitelisted(users[k], saved)
    requires password != DemoPassword && users[k].failedAttempts == 0 && n < MaxFailedAttempts(saved)
    ensures CountedAt(users, email, password, now, saved, k, n)
  {
    WrongAttemptsCount(users, email, password, now, saved, k, n);
    FindByEmailAfterUpdate(users, email, k, users[k].(failedAttempts := n));
  }

  /** One more wrong password below the limit: the account holds `n`
      failures and is otherwise as it was. */
  lemma WrongAttemptBelowLimit(before: seq<User>, u: User, email: string, password: string, now: Timestamp,
                               saved: Config, k: nat, n: nat)
    requires n >= 1 && FindByEmail(before, email) == Some(k) && before[k] == u.(failedAttempts := n - 1)
    requires !IsLocked(u, now) && Whitelisted(u, saved)
    requires password != DemoPassword && n < MaxFailedAttempts(saved)
    ensures LoginStep(before, email, password, now, saved).users == before[k := u.(failedAttempts := n)]
  {
    WrongPasswordStep(before, email, password, now, saved, k);
  }

  /** A wrong password on an unlocked, admitted account replaces it by its
      state after a failure. */
  lemma WrongPasswordStep(users: seq<User>, email: string, password: string, now: Timestamp, saved: Config, k: nat)
    requires FindByEmail(users, email) == Some(k) && !IsLocked(users[k], now) && Whitelisted(users[k], saved)
    requires password != DemoPassword
    ensures LoginStep(users, email, password, now, saved) == LoginResult(false, users[k := AfterFailure(users[k], now, saved)])
  {
  }

  lemma FailureAtLimit(u: User, now: Timestamp, saved: Config)
    requires u.failedAttempts + 1 == MaxFailedAttempts(saved) && LockoutMinutes(saved) > 0
    ensures AfterFailure(u, now, saved)
      == u.(failedAttempts := u.failedAttempts + 1, blockedUntil := Some(now + LockoutMinutes(saved) * 60000))
  {
  }

  /** Lockout: from no failures, as many wrong passwords as the limit allows
      lock the account for the configured minutes; during the lock even the
      right password is refused. */
  lemma LimitOfWrongPasswordsLocks(users: seq<User>, email: string, password: string, now: Timestamp,
                                   saved: Config, k: nat, later: Timestamp)
    requires FindByEmail(users, email) == Some(k) && !IsLocked(users[k], now) && Whitelisted(users[k], saved)
    requires password != DemoPassword && users[k].failedAttempts == 0 && MaxFailedAttempts(saved) >= 1
    requires LockoutMinutes(saved) > 0 && now <= later < now + LockoutMinutes(saved) * 60000
    ensures var after := WrongAttempts(users, email, password, now, saved, MaxFailedAttempts(saved) as nat);
      && |after| == |users|
      && after[k].failedAttempts == MaxFailedAttempts(saved)
      && IsLocked(after[k], later)
      && !LoginStep(after, email, DemoPassword, later, saved).success
  {
    var after := WrongAttempts(users, email, password, now, saved, MaxFailedAttempts(saved) as nat);
    WrongAttemptsReachLimit(users, email, password, now, saved, k);
    LockedAccountIsRefused(after, email, DemoPassword, later, saved, k);
  }

  // ---------------------------------------------------------------------------
  // The provider
  // ---------------------------------------------------------------------------

  class AuthProvider {
    /** The demo account list, changed in place by `login`. */
    var users: seq<User>
    var user: Option<User>
    var isLoading: bool

    constructor()
      ensures users == AuthMockUsers() && user.None? && isLoading
    {
      users := AuthMockUsers();
      user := None;
      isLoading := true;
    }

    /** The mount effect: resume a saved session, if any, and stop loading. */
    method RestoreSession(saved: Option<User>)
      modifies this
      ensures user == saved && !isLoading && users == old(users)
    {
      user := saved;
      isLoading := false;
    }

    function IsAuthenticated(): bool
      reads this
    {
      user.Some?
    }

    /** `login`: the checks in the source's order; a refusal leaves the
        current user as it was. */
    method Login(email: string, password: string, now: Timestamp, saved: Config) returns (success: bool)
      modifies this
      ensures success == LoginStep(old(users), email, password, now, saved).success
      ensures users == LoginStep(old(users), email, password, now, saved).users
      ensures success ==> user == Some(users[FindByEmail(old(users), email).value])
      ensures !success ==> user == old(user)
      ensures !isLoading
    {
      isLoading := true;
      ghost var step := LoginStep(users, email, password, now, saved);
      var found := FindByEmail(users, email);
      if found.None? {
        assert step == LoginResult(false, users);
        isLoading := false;
        return false;
      }
      var k := found.value;
      var u := users[k];
      if u.blockedUntil.Some? && u.blockedUntil.value > now {
        assert step == LoginResult(false, users);
        isLoading := false;
        return false;
      }
      if RequireWhitelist(saved) && u.whitelistEntry != Some(true) {
        assert step == LoginResult(false, users);
        isLoading := false;
        return false;
      }
      if password != DemoPassword {
        u := u.(failedAttempts := u.failedAttempts + 1);
        if u.failedAttempts >= MaxFailedAttempts(saved) {
          u := u.(blockedUntil := Some(LockUntil(now, LockoutMinutes(saved))));
        }
        assert step == LoginResult(false, users[k := u]);
        users := users[k := u];
        isLoading := false;
        return false;
      }
      u := AfterSuccess(u, now);
      assert step == LoginResult(true, users[k := u]);
      users := users[k := u];
      user := Some(u);
      isLoading := false;
      return true;
    }

    /** `logout`. */
    method Logout()
      modifies this
      ensures user.None? && users == old(users) && isLoading == old(isLoading)
    {
      user := None;
    }
  }
}
