/** The dicts of attempts as the handlers change them. */
module AttemptsInPlace {
  import opened Wrappers
  import opened LoginAttempts

  class Attempts {
    var byIp: Table
    var byUser: Table

    function Now(): Store
      reads this
    {
      Store(byIp, byUser)
    }

    constructor ()
      ensures Now() == EMPTY
    {
      byIp, byUser := map[], map[];
    }

    method CheckIp(ip: string, now: real, window: real) returns (d: Decision)
      modifies this`byIp
      ensures (Now(), d) == Run(old(Now()), Step.CheckIp(ip), now, window)
    {
      d := Open;
      var k := Ip(ip);
      if k in byIp {
        if byIp[k].until > now {
          return Locked(byIp[k].until);
        }
        byIp := byIp[k := byIp[k].(attempts := Recent(byIp[k].attempts, now, window))];
      }
    }

    method CheckUser(name: string, now: real, window: real) returns (d: Decision)
      modifies this`byUser
      ensures (Now(), d) == Run(old(Now()), Step.CheckUser(name), now, window)
    {
      d := Open;
      var k := User(name);
      if k in byUser {
        if byUser[k].until > now {
          return Locked(byUser[k].until);
        }
        byUser := byUser[k := byUser[k].(attempts := Recent(byUser[k].attempts, now, window))];
      }
    }

    /** One dict of the sweep: the stale keys are collected first, and popped one by one. */
    static method Sweep(t: Table, now: real, window: real) returns (left: Table)
      ensures left == Swept(t, now, window)
    {
      var keys := set k | k in t && Stale(t[k], now, window);
      left := t;
      ghost var gone: set<Key> := {};
      while keys != {}
        invariant gone + keys == set k | k in t && Stale(t[k], now, window)
        invariant left == t - gone
        decreases |keys|
      {
        var k :| k in keys;
        left := left - {k};
        keys := keys - {k};
        gone := gone + {k};
      }
    }

    /** One attempt more under a key. */
    static method Track(t: Table, k: Key, now: real, window: real, limit: nat, lockout: real) returns (after: Table, locked: bool)
      ensures (after, locked) == Hit(t, k, now, window, limit, lockout)
    {
      hide Recent;
      after := t;
      if k !in after {
        after := after[k := Entry([], 0.0)];
      }
      after := after[k := after[k].(attempts := after[k].attempts + [now])];
      locked := |Recent(after[k].attempts, now, window)| >= limit;
      if locked {
        after := after[k := after[k].(until := now + lockout)];
      }
      assert after == t[k := after[k]];
    }

    method RecordFailedAttempt(ip: string, user: Option<string>, now: real, window: real, max: nat, lockout: real)
      returns (locked: bool)
      modifies this
      ensures (Now(), Failed(locked)) == Run(old(Now()), Fail(ip, user, max, lockout), now, window)
    {
      hide Swept, Hit;
      byIp := Sweep(byIp, now, window);
      byUser := Sweep(byUser, now, window);
      byIp, locked := Track(byIp, Ip(ip), now, window, max, lockout);
      if user.Some? {
        var too: bool;
        byUser, too := Track(byUser, User(user.value), now, window, max * 2, lockout);
        locked := locked || too;
      }
    }

    /** After a sign-in. */
    method ClearBoth(ip: string, name: string, now: real, window: real)
      modifies this
      ensures (Now(), Done) == Run(old(Now()), Succeed(ip, name), now, window)
    {
      assert Ip(ip) !in byIp ==> byIp - {Ip(ip)} == byIp;
      assert User(name) !in byUser ==> byUser - {User(name)} == byUser;
      if Ip(ip) in byIp {
        byIp := byIp - {Ip(ip)};
      }
      if User(name) in byUser {
        byUser := byUser - {User(name)};
      }
    }

    method OidcCallback(ip: string, now: real, window: real) returns (d: Decision)
      modifies this`byIp
      ensures (Now(), d) == Run(old(Now()), Callback(ip), now, window)
    {
      var k := Oidc(ip);
      if k in byIp {
        var recent := Recent(byIp[k].attempts, now, OIDC_WINDOW);
        if |recent| >= OIDC_LIMIT {
          return Limited;
        }
        byIp := byIp[k := Entry(recent + [now], 0.0)];
      } else {
        byIp := byIp[k := Entry([now], 0.0)];
      }
      d := Passed;
    }

    method PasswordCheck(ip: string, now: real, window: real) returns (d: Decision)
      modifies this`byIp
      ensures (Now(), d) == Run(old(Now()), VerifyPassword(ip), now, window)
    {
      var k := Verify(ip);
      if k in byIp {
        var recent := Recent(byIp[k].attempts, now, VERIFY_WINDOW);
        if |recent| >= VERIFY_LIMIT {
          return Limited;
        }
        byIp := byIp[k := Entry(recent + [now], 0.0)];
      } else {
        byIp := byIp[k := Entry([now], 0.0)];
      }
      d := Passed;
    }
  }
}
