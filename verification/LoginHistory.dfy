/**
 What the decisions on logins are, said of the requests that came in and their times alone: no
 table is kept, nothing is swept.
 */
module LoginHistory {
  import opened LoginAttempts

  // ----- what a request is to an entry -----

  /** A failed login from this address or for this user. */
  predicate Fails(step: Step, k: Key) {
    step.Fail? && (k == Ip(step.ip) || (step.user.Some? && k == User(step.user.value)))
  }

  /** A request that is counted under the entry when it is let through. */
  predicate Tries(step: Step, k: Key) {
    match k
    case Oidc(ip) => step == Callback(ip)
    case Verify(ip) => step == VerifyPassword(ip)
    case _ => Fails(step, k)
  }

  /** A sign-in from the address as the user, or an administrator's unlock. */
  predicate Clears(step: Step, k: Key) {
    match step
    case Succeed(ip, name) => k == Ip(ip) || k == User(name)
    case UnlockIp(key) => k == key && !k.User?
    case UnlockUsers(names) => k.User? && k.name in names
    case UnlockAllIps => !k.User?
    case _ => false
  }

  /** Cleared after the i-th request and before the j-th. */
  predicate Cleared(steps: Timed, i: nat, j: nat, k: Key) {
    exists m :: i < m < j && m < |steps| && Clears(steps[m].0, k)
  }

  /** The failed logins that count against k at the i-th request, with it: those less than the
      window ago that nothing has cleared. */
  function Failures(steps: Timed, i: nat, k: Key, window: real): set<nat>
    requires i < |steps|
  {
    set m: nat | m <= i && Fails(steps[m].0, k) && steps[i].1 - steps[m].1 < window && !Cleared(steps, m, i, k)
  }

  /** The i-th request is a failed login that locks k: as many as are allowed, or twice that many
      for a user name. */
  predicate LocksAt(steps: Timed, windows: Windows, i: nat, k: Key)
    requires i < |steps|
  {
    && Fails(steps[i].0, k)
    && |Failures(steps, i, k, windows(steps[i].1))| >= if k.User? then 2 * steps[i].0.max else steps[i].0.max
  }

  /** The last failure before the j-th request that locked k, and nothing has cleared it. */
  predicate LastLock(steps: Timed, windows: Windows, i: nat, j: nat, k: Key)
    requires j <= |steps|
  {
    && i < j && LocksAt(steps, windows, i, k) && !Cleared(steps, i, j, k)
    && forall m :: i < m < j ==> !LocksAt(steps, windows, m, k)
  }

  /** The requests that were let through under k before the j-th and still count. */
  function LetThrough(steps: Timed, ds: seq<Decision>, j: nat, k: Key, window: real): set<nat>
    requires j < |steps| <= |ds|
  {
    set m: nat | m < j && Tries(steps[m].0, k) && ds[m] == Passed && steps[j].1 - steps[m].1 < window && !Cleared(steps, m, j, k)
  }

  // ----- the table that never forgets, from its history -----

  /** The store after the first n requests. */
  function KeptAfter(steps: Timed, windows: Windows, n: nat): Store
    requires n <= |steps|
  {
    if n == 0 then EMPTY
    else Kept(KeptAfter(steps, windows, n - 1), steps[n - 1].0, steps[n - 1].1, windows(steps[n - 1].1)).0
  }

  function KeptDecision(steps: Timed, windows: Windows, n: nat): Decision
    requires n < |steps|
  {
    Kept(KeptAfter(steps, windows, n), steps[n].0, steps[n].1, windows(steps[n].1)).1
  }

  /** What is counted under k at the time now, of the first n requests. */
  function Standing(steps: Timed, windows: Windows, n: nat, k: Key, now: real, window: real): set<nat>
    requires n <= |steps|
  {
    set m: nat | m < n && Tries(steps[m].0, k) && KeptDecision(steps, windows, m) != Limited
                 && now - steps[m].1 < window && !Cleared(steps, m, n, k)
  }

  lemma OneMoreStanding(steps: Timed, windows: Windows, n: nat, k: Key, now: real, window: real)
    requires n < |steps|
    ensures Standing(steps, windows, n + 1, k, now, window) ==
            if Clears(steps[n].0, k) then {}
            else Standing(steps, windows, n, k, now, window)
                 + if Tries(steps[n].0, k) && KeptDecision(steps, windows, n) != Limited && now - steps[n].1 < window then {n} else {}
  {
    hide KeptDecision;
    assert Clears(steps[n].0, k) ==> !Tries(steps[n].0, k);
    forall m: nat | m < n
      ensures Cleared(steps, m, n + 1, k) <==> Cleared(steps, m, n, k) || Clears(steps[n].0, k)
    {
      if Clears(steps[n].0, k) {
        assert Cleared(steps, m, n + 1, k);
      }
    }
    hide Clears, Tries;
    assert !Cleared(steps, n, n + 1, k);
  }

  /** What one request makes of the entry k of the table that never forgets. */
  lemma KeptEntry(s: Store, step: Step, now: real, window: real, k: Key)
    ensures var after := TableOf(Kept(s, step, now, window).0, k);
            var before := TableOf(s, k);
            && Attempts(after, k) == (if Clears(step, k) then []
                                      else if Tries(step, k) && Kept(s, step, now, window).1 != Limited then Attempts(before, k) + [now]
                                      else Attempts(before, k))
            && (Clears(step, k) ==> Until(after, k) == 0.0)
            && (!Clears(step, k) && !Tries(step, k) ==> Until(after, k) == Until(before, k))
  {
    hide Recent;
  }

  lemma RecentWith(s: seq<real>, t: real, now: real, window: real)
    ensures |Recent(s + [t], now, window)| == |Recent(s, now, window)| + if now - t < window then 1 else 0
    ensures Recent([], now, window) == []
  {
    assert (s + [t])[..|s|] == s;
  }

  lemma KeptAfterIs(steps: Timed, windows: Windows, n: nat)
    requires n < |steps|
    ensures var kept := Kept(KeptAfter(steps, windows, n), steps[n].0, steps[n].1, windows(steps[n].1));
            KeptAfter(steps, windows, n + 1) == kept.0 && KeptDecision(steps, windows, n) == kept.1
  {
    hide Kept;
  }

  lemma OneMore(s: set<nat>, n: nat)
    requires n !in s
    ensures |s + {n}| == |s| + 1
  {
  }

  /** The attempts on record are those that stand. */
  lemma {:induction false} AttemptsStand(steps: Timed, windows: Windows, n: nat, k: Key, now: real, window: real)
    requires n <= |steps|
    ensures |Recent(Attempts(TableOf(KeptAfter(steps, windows, n), k), k), now, window)|
         == |Standing(steps, windows, n, k, now, window)|
  {
    hide Kept, Tries, Clears, Recent, Standing, KeptDecision, KeptAfter;
    RecentWith([], now, now, window);
    if n == 0 {
      NoneStanding(steps, windows, k, now, window);
    } else {
      var m := n - 1;
      var s := KeptAfter(steps, windows, m);
      var t := steps[m].1;
      AttemptsStand(steps, windows, m, k, now, window);
      OneMoreStanding(steps, windows, m, k, now, window);
      NotYetStanding(steps, windows, m, k, now, window);
      KeptAfterIs(steps, windows, m);
      KeptEntry(s, steps[m].0, t, windows(t), k);
      RecentWith(Attempts(TableOf(s, k), k), t, now, window);
      OneMore(Standing(steps, windows, m, k, now, window), m);
    }
  }

  lemma NoneStanding(steps: Timed, windows: Windows, k: Key, now: real, window: real)
    ensures Attempts(TableOf(KeptAfter(steps, windows, 0), k), k) == []
    ensures Standing(steps, windows, 0, k, now, window) == {}
  {
  }

  lemma NotYetStanding(steps: Timed, windows: Windows, n: nat, k: Key, now: real, window: real)
    requires n <= |steps|
    ensures n !in Standing(steps, windows, n, k, now, window)
  {
  }

  // ----- locks -----

  lemma FailIsNotLimited(steps: Timed, windows: Windows, n: nat, k: Key)
    requires n < |steps| && Fails(steps[n].0, k)
    ensures KeptDecision(steps, windows, n) != Limited
  {
    hide Recent, KeptAfter;
  }

  /** A failed login of the table that never forgets, for the keys it is about. */
  lemma KeptFailure(s: Store, step: Step, now: real, window: real, k: Key)
    requires Fails(step, k)
    ensures var after, before := TableOf(Kept(s, step, now, window).0, k), TableOf(s, k);
            var locked := |Recent(Attempts(before, k) + [now], now, window)| >= if k.User? then 2 * step.max else step.max;
            Until(after, k) == if locked then now + step.lockout else Until(before, k)
  {
    hide Recent;
  }

  /** At a failed login those that stand, and it, are the failures that count. */
  lemma FailuresStand(steps: Timed, windows: Windows, n: nat, k: Key)
    requires n < |steps| && Fails(steps[n].0, k) && windows(steps[n].1) > 0.0
    ensures var (t, window) := (steps[n].1, windows(steps[n].1));
            |Recent(Attempts(TableOf(KeptAfter(steps, windows, n), k), k) + [t], t, window)| == |Failures(steps, n, k, window)|
  {
    hide KeptDecision, KeptAfter, Recent, Failures, Standing, Fails;
    var (t, window) := (steps[n].1, windows(steps[n].1));
    AttemptsStand(steps, windows, n, k, t, window);
    RecentWith(Attempts(TableOf(KeptAfter(steps, windows, n), k), k), t, t, window);
    NotYetStanding(steps, windows, n, k, t, window);
    OneMore(Standing(steps, windows, n, k, t, window), n);
    FailuresAre(steps, windows, n, k);
  }

  lemma FailuresAre(steps: Timed, windows: Windows, n: nat, k: Key)
    requires n < |steps| && Fails(steps[n].0, k) && windows(steps[n].1) > 0.0
    ensures var (t, window) := (steps[n].1, windows(steps[n].1));
            Failures(steps, n, k, window) == Standing(steps, windows, n, k, t, window) + {n}
  {
    hide KeptDecision, KeptAfter;
    var (t, window) := (steps[n].1, windows(steps[n].1));
    forall m: nat | m < n && Fails(steps[m].0, k) ensures KeptDecision(steps, windows, m) != Limited {
      FailIsNotLimited(steps, windows, m, k);
    }
    assert !Cleared(steps, n, n, k);
    LocksTry(k);
    hide Cleared, Fails, Tries;
  }

  lemma LocksTry(k: Key)
    ensures forall step: Step :: Fails(step, k) ==> Tries(step, k)
    ensures forall step: Step :: Locks(k) && Tries(step, k) ==> Fails(step, k)
    ensures forall step: Step :: Fails(step, k) ==> Locks(k)
  {
  }

  lemma NoLock(steps: Timed, windows: Windows, k: Key)
    ensures Until(TableOf(KeptAfter(steps, windows, 0), k), k) == 0.0
  {
  }

  lemma LockIs(steps: Timed, windows: Windows, n: nat, k: Key)
    requires n < |steps|
    ensures LocksAt(steps, windows, n, k) <==>
            Fails(steps[n].0, k)
            && |Failures(steps, n, k, windows(steps[n].1))| >= if k.User? then 2 * steps[n].0.max else steps[n].0.max
    ensures Clears(steps[n].0, k) ==> !Fails(steps[n].0, k)
    ensures Locks(k) ==> (Tries(steps[n].0, k) <==> Fails(steps[n].0, k))
  {
    hide Failures;
  }

  lemma ClearedThen(steps: Timed, i: nat, n: nat, k: Key)
    requires i < n <= |steps|
    ensures Cleared(steps, i, n, k) <==> Cleared(steps, i, n - 1, k) || (i < n - 1 && Clears(steps[n - 1].0, k))
  {
    hide Clears;
    if i < n - 1 && Clears(steps[n - 1].0, k) {
      assert Cleared(steps, i, n, k);
    }
  }

  /** The lock on record is the one the last failure set that nothing cleared. */
  lemma {:induction false} LockStands(steps: Timed, windows: Windows, n: nat, k: Key) returns (i: nat)
    requires n <= |steps| && Locks(k) && forall m :: 0 <= m < n ==> windows(steps[m].1) > 0.0
    ensures var until := Until(TableOf(KeptAfter(steps, windows, n), k), k);
            if i < n then LastLock(steps, windows, i, n, k) && until == steps[i].1 + steps[i].0.lockout
            else until == 0.0 && forall m :: 0 <= m < n && LocksAt(steps, windows, m, k) ==> Cleared(steps, m, n, k)
  {
    hide Recent, Kept, KeptDecision, LocksAt, Clears, KeptAfter;
    if n == 0 {
      NoLock(steps, windows, k);
      return 0;
    }
    var m := n - 1;
    var (step, t) := steps[m];
    i := LockStands(steps, windows, m, k);
    KeptAfterIs(steps, windows, m);
    KeptEntry(KeptAfter(steps, windows, m), step, t, windows(t), k);
    LockIs(steps, windows, m, k);
    forall x: nat | x < n ensures Cleared(steps, x, n, k) <==> Cleared(steps, x, m, k) || (x < m && Clears(step, k)) {
      ClearedThen(steps, x, n, k);
    }
    hide Cleared;
    if Fails(step, k) {
      KeptFailure(KeptAfter(steps, windows, m), step, t, windows(t), k);
      FailuresStand(steps, windows, m, k);
    }
    if LocksAt(steps, windows, m, k) {
      NothingBetween(steps, m, k);
      i := m;
    } else if Clears(step, k) || i >= m {
      i := n;
    }
  }

  lemma NothingBetween(steps: Timed, m: nat, k: Key)
    ensures !Cleared(steps, m, m + 1, k) && !Cleared(steps, m, m, k)
  {
  }

  // ----- the decisions of a run -----

  lemma {:induction false} DecisionsKept(steps: Timed, windows: Windows, n: nat, j: nat)
    requires n <= j < |steps|
    ensures |KeptDecisions(KeptAfter(steps, windows, n), steps[n..], windows)| == |steps| - n
    ensures KeptDecisions(KeptAfter(steps, windows, n), steps[n..], windows)[j - n] == KeptDecision(steps, windows, j)
    decreases |steps| - n
  {
    hide Kept, KeptAfter, KeptDecision;
    KeptAfterIs(steps, windows, n);
    DecisionsOf(KeptAfter(steps, windows, n), steps[n..], windows);
    assert steps[n..][1..] == steps[n + 1..];
    if n < j {
      DecisionsKept(steps, windows, n + 1, j);
    }
  }

  lemma DecisionIs(steps: Timed, from: real, windows: Windows, j: nat)
    requires Proper(windows) && from > 0.0 && InOrder(steps, from) && j < |steps|
    requires forall k :: k in Keys(steps[j].0) ==> CutsForwardOf(windows, k)
    ensures |Decisions(EMPTY, steps, windows)| == |steps|
    ensures Decisions(EMPTY, steps, windows)[j] == KeptDecision(steps, windows, j)
  {
    EmptyIsAlike(from, windows(from));
    DecisionsOf(EMPTY, steps, windows);
    assert KeptAfter(steps, windows, 0) == EMPTY && steps[0..] == steps;
    hide KeptDecision, KeptAfter, KeyAlike, InOrder, Proper, CutsForwardOf;
    DecisionIsAlike(EMPTY, EMPTY, steps, from, windows, j);
    DecisionsKept(steps, windows, 0, j);
  }

  lemma {:induction false} TimesInOrder(steps: Timed, from: real, windows: Windows, i: nat, j: nat)
    requires Proper(windows) && from > 0.0 && InOrder(steps, from) && i <= j < |steps|
    ensures 0.0 < from <= steps[i].1 <= steps[j].1
    decreases |steps|
  {
    if i > 0 {
      TimesInOrder(steps[1..], steps[0].1, windows, i - 1, j - 1);
    } else if j > 0 {
      TimesInOrder(steps[1..], steps[0].1, windows, 0, j - 1);
    }
  }

  /** The windows an administrator may set for the locks to be what the history says: none that
      reaches back behind what was cut off before. */
  ghost predicate NeverBack(windows: Windows) {
    forall s: real, t: real :: 0.0 < s <= t && s - windows(s) > 0.0 ==> s - windows(s) <= t - windows(t)
  }

  lemma NeverBackIs(windows: Windows, k: Key)
    requires NeverBack(windows) && Locks(k)
    ensures CutsForwardOf(windows, k)
  {
  }

  predicate ChecksLock(step: Step, k: Key) {
    match step case CheckIp(ip) => k == Ip(ip) case CheckUser(name) => k == User(name) case _ => false
  }

  lemma CheckKept(s: Store, step: Step, now: real, window: real, k: Key)
    requires ChecksLock(step, k)
    ensures Locks(k) && Keys(step) == {k}
    ensures Kept(s, step, now, window).1 == if Until(TableOf(s, k), k) > now then Locked(Until(TableOf(s, k), k)) else Open
  {
  }

  /** A lock check answers locked exactly when a failed login before it locked the address or the
      user, the last to do so, nothing has cleared it since, and its lockout has not passed; and
      it names the end of that lockout.  Otherwise it answers open. */
  lemma CheckIsLockedIff(steps: Timed, from: real, windows: Windows, j: nat, k: Key)
    requires Proper(windows) && NeverBack(windows) && from > 0.0 && InOrder(steps, from)
    requires j < |steps| && ChecksLock(steps[j].0, k)
    ensures |Decisions(EMPTY, steps, windows)| == |steps|
    ensures var d := Decisions(EMPTY, steps, windows)[j];
            && (d == Open || d.Locked?)
            && (d == Open <==> !exists i: nat :: LastLock(steps, windows, i, j, k) && steps[j].1 < steps[i].1 + steps[i].0.lockout)
            && (d.Locked? ==> exists i: nat :: LastLock(steps, windows, i, j, k) && d.until == steps[i].1 + steps[i].0.lockout)
  {
    hide KeptAfter, LocksAt, InOrder, Decisions, LastLock;
    CheckKept(KeptAfter(steps, windows, j), steps[j].0, steps[j].1, windows(steps[j].1), k);
    NeverBackIs(windows, k);
    DecisionIs(steps, from, windows, j);
    forall m | 0 <= m < j ensures windows(steps[m].1) > 0.0 {
      TimesInOrder(steps, from, windows, m, j);
    }
    TimesInOrder(steps, from, windows, j, j);
    var i := LockStands(steps, windows, j, k);
    hide Kept;
    forall x: nat | LastLock(steps, windows, x, j, k) ensures i < j && x == i {
      OneLast(steps, windows, x, j, k);
      if i < j {
        TwoLast(steps, windows, x, i, j, k);
      }
    }
  }

  lemma OneLast(steps: Timed, windows: Windows, i: nat, j: nat, k: Key)
    requires j <= |steps| && LastLock(steps, windows, i, j, k)
    ensures i < j && LocksAt(steps, windows, i, k) && !Cleared(steps, i, j, k)
  {
    hide LocksAt;
  }

  lemma TwoLast(steps: Timed, windows: Windows, i: nat, x: nat, j: nat, k: Key)
    requires j <= |steps| && LastLock(steps, windows, i, j, k) && LastLock(steps, windows, x, j, k)
    ensures i == x
  {
    hide LocksAt;
  }

  /** With one lockout throughout: while it has not passed since any failure that locked, however
      many came after that, until a sign-in or an unlock. */
  lemma SteadyLockoutHolds(steps: Timed, from: real, windows: Windows, lockout: real, j: nat, k: Key)
    requires Proper(windows) && NeverBack(windows) && from > 0.0 && InOrder(steps, from)
    requires forall m :: 0 <= m < |steps| && steps[m].0.Fail? ==> steps[m].0.lockout == lockout
    requires j < |steps| && ChecksLock(steps[j].0, k)
    ensures |Decisions(EMPTY, steps, windows)| == |steps|
    ensures Decisions(EMPTY, steps, windows)[j].Locked? <==>
            exists i: nat :: i < j && LocksAt(steps, windows, i, k) && !Cleared(steps, i, j, k) && steps[j].1 < steps[i].1 + lockout
  {
    CheckIsLockedIff(steps, from, windows, j, k);
    forall m | 0 <= m < j ensures windows(steps[m].1) > 0.0 {
      TimesInOrder(steps, from, windows, m, j);
    }
    CheckKept(EMPTY, steps[j].0, 1.0, 1.0, k);
    var x := LockStands(steps, windows, j, k);
    forall i: nat | i < j && LocksAt(steps, windows, i, k) ensures steps[i].0.Fail? {
    }
    hide KeptAfter, LocksAt, InOrder, Decisions, Cleared;
    if i: nat :| i < j && LocksAt(steps, windows, i, k) && !Cleared(steps, i, j, k) && steps[j].1 < steps[i].1 + lockout {
      assert i <= x < j;
      TimesInOrder(steps, from, windows, i, x);
      assert steps[j].1 < steps[x].1 + steps[x].0.lockout;
    }
  }

  // ----- what a failed login answers -----

  lemma FailKept(s: Store, step: Step, now: real, window: real)
    requires step.Fail?
    ensures Kept(s, step, now, window).1 ==
            Failed(|Recent(Attempts(s.byIp, Ip(step.ip)) + [now], now, window)| >= step.max
                   || (step.user.Some?
                       && |Recent(Attempts(s.byUser, User(step.user.value)) + [now], now, window)| >= 2 * step.max))
  {
    hide Recent;
  }

  /** In the table that never forgets, with whatever windows. */
  lemma KeptFailureLocks(steps: Timed, windows: Windows, j: nat)
    requires j < |steps| && steps[j].0.Fail? && windows(steps[j].1) > 0.0
    ensures var step := steps[j].0;
            KeptDecision(steps, windows, j) ==
            Failed(LocksAt(steps, windows, j, Ip(step.ip))
                   || (step.user.Some? && LocksAt(steps, windows, j, User(step.user.value))))
  {
    hide KeptAfter, Failures, Recent;
    var step := steps[j].0;
    FailKept(KeptAfter(steps, windows, j), step, steps[j].1, windows(steps[j].1));
    FailuresStand(steps, windows, j, Ip(step.ip));
    if step.user.Some? {
      FailuresStand(steps, windows, j, User(step.user.value));
    }
  }

  /** A failed login says that it locked exactly when it is the last one the address or the user
      had left. */
  lemma FailureLocksIff(steps: Timed, from: real, windows: Windows, j: nat)
    requires Proper(windows) && NeverBack(windows) && from > 0.0 && InOrder(steps, from) && j < |steps| && steps[j].0.Fail?
    ensures |Decisions(EMPTY, steps, windows)| == |steps|
    ensures var step := steps[j].0;
            Decisions(EMPTY, steps, windows)[j] ==
            Failed(LocksAt(steps, windows, j, Ip(step.ip))
                   || (step.user.Some? && LocksAt(steps, windows, j, User(step.user.value))))
  {
    hide KeptDecision, LocksAt, InOrder, Decisions;
    TimesInOrder(steps, from, windows, j, j);
    KeptFailureLocks(steps, windows, j);
    forall k | k in Keys(steps[j].0) ensures CutsForwardOf(windows, k) {
      NeverBackIs(windows, k);
    }
    DecisionIs(steps, from, windows, j);
  }

  /** The failed login j answers what the history says. */
  predicate FailureTold(steps: Timed, windows: Windows, j: nat) {
    j < |steps| && j < |Decisions(EMPTY, steps, windows)| && steps[j].0.Fail? ==>
      var step := steps[j].0;
      Decisions(EMPTY, steps, windows)[j] ==
      Failed(LocksAt(steps, windows, j, Ip(step.ip))
             || (step.user.Some? && LocksAt(steps, windows, j, User(step.user.value))))
  }

  /** So does every failed login of every run. */
  ghost predicate FailuresAreTold(windows: Windows) {
    forall steps: Timed, from: real, j: nat :: from > 0.0 && InOrder(steps, from) ==> FailureTold(steps, windows, j)
  }

  /** That is so exactly when the window, as it is set over time, never reaches back behind what it
      cut off before - as none that stays the same does. */
  lemma FailuresAreToldIff(windows: Windows)
    requires Proper(windows)
    ensures FailuresAreTold(windows) <==> NeverBack(windows)
  {
    hide LocksAt, Decisions;
    if NeverBack(windows) {
      forall steps: Timed, from: real, j: nat | from > 0.0 && InOrder(steps, from) ensures FailureTold(steps, windows, j) {
        if j < |steps| && steps[j].0.Fail? {
          FailureLocksIff(steps, from, windows, j);
        }
      }
    } else {
      var s: real, t: real :| 0.0 < s <= t && s - windows(s) > 0.0 && t - windows(t) < s - windows(s);
      var steps := Grows(s - windows(s), s, t);
      GrowingWindowShows(windows, s, t);
      KeptFailureLocks(steps, windows, 2);
      assert KeptAfter(steps, windows, 0) == EMPTY && steps[0..] == steps;
      DecisionsKept(steps, windows, 0, 2);
      assert !FailureTold(steps, windows, 2);
    }
  }

  // ----- the limiters -----

  predicate Limits(step: Step, k: Key) {
    match step case Callback(ip) => k == Oidc(ip) case VerifyPassword(ip) => k == Verify(ip) case _ => false
  }

  lemma LimitKept(s: Store, step: Step, now: real, window: real, k: Key)
    requires Limits(step, k)
    ensures Tries(step, k) && Keys(step) == {k}
    ensures Kept(s, step, now, window).1 ==
            if |Recent(Attempts(s.byIp, k), now, if k.Oidc? then 60.0 else 300.0)| >= if k.Oidc? then 10 else 5 then Limited else Passed
  {
    hide Recent;
  }

  lemma LimitsAre(step: Step, k: Key)
    requires Tries(step, k) && !Locks(k)
    ensures Limits(step, k) && Keys(step) == {k}
  {
  }

  /** A callback from an address is let through exactly when less than 10 were in the minute
      before it, and a password check when less than 5 were in the five minutes before, those
      before an unlock aside - with an attempt window of that length at least. */
  lemma LimitedIff(steps: Timed, from: real, windows: Windows, j: nat, k: Key)
    requires Proper(windows) && from > 0.0 && InOrder(steps, from) && j < |steps| && Limits(steps[j].0, k)
    requires forall s: real :: s - windows(s) > 0.0 ==> windows(s) >= if k.Oidc? then 60.0 else 300.0
    ensures |Decisions(EMPTY, steps, windows)| == |steps|
    ensures var ds := Decisions(EMPTY, steps, windows);
            ds[j] == if |LetThrough(steps, ds, j, k, if k.Oidc? then 60.0 else 300.0)| >= if k.Oidc? then 10 else 5
                     then Limited else Passed
  {
    hide KeptAfter, InOrder, Decisions, Recent;
    var horizon := if k.Oidc? then 60.0 else 300.0;
    assert CutsForwardOf(windows, k);
    LimitKept(KeptAfter(steps, windows, j), steps[j].0, steps[j].1, windows(steps[j].1), k);
    DecisionIs(steps, from, windows, j);
    var ds := Decisions(EMPTY, steps, windows);
    forall m: nat | m < j && Tries(steps[m].0, k)
      ensures ds[m] == Passed <==> KeptDecision(steps, windows, m) != Limited
    {
      LimitsAre(steps[m].0, k);
      LimitKept(KeptAfter(steps, windows, m), steps[m].0, steps[m].1, windows(steps[m].1), k);
      DecisionIs(steps, from, windows, m);
    }
    AttemptsStand(steps, windows, j, k, steps[j].1, horizon);
    hide KeptDecision;
    assert Standing(steps, windows, j, k, steps[j].1, horizon) == LetThrough(steps, ds, j, k, horizon);
  }
}
