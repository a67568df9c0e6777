/**
 The table of attempts behind the login, the OIDC callback and the password check
 (pegaprox/api/auth.py), which is swept of old entries, and one that never forgets.  Times
 are seconds since 1970.
 */
module LoginAttempts {
  import opened Wrappers

  /** Three kinds of entry share the dict by address; the other dict is by user name. */
  datatype Key = Ip(address: string) | Oidc(address: string) | Verify(address: string) | User(name: string)

  /** until: 0 for an entry that has no lock. */
  datatype Entry = Entry(attempts: seq<real>, until: real)

  type Table = map<Key, Entry>

  datatype Store = Store(byIp: Table, byUser: Table)

  const OIDC_WINDOW: real := 60.0
  const OIDC_LIMIT: nat := 10
  const VERIFY_WINDOW: real := 300.0
  const VERIFY_LIMIT: nat := 5

  /** The attempts less than so long ago. */
  function Recent(s: seq<real>, now: real, window: real): seq<real> {
    if s == [] then []
    else Recent(s[..|s| - 1], now, window) + if now - s[|s| - 1] < window then [s[|s| - 1]] else []
  }

  function Attempts(t: Table, k: Key): seq<real> {
    if k in t then t[k].attempts else []
  }

  function Until(t: Table, k: Key): real {
    if k in t then t[k].until else 0.0
  }

  // ----- what the handlers do -----

  datatype Decision = Locked(until: real) | Open | Failed(locked: bool) | Limited | Passed | Done

  /** The lock check: it also drops old attempts from an entry that is not locked. */
  function Checked(t: Table, k: Key, now: real, window: real): (Table, Decision) {
    if k !in t then (t, Open)
    else if t[k].until > now then (t, Locked(t[k].until))
    else (t[k := t[k].(attempts := Recent(t[k].attempts, now, window))], Open)
  }

  /** max(attempts or [0]) */
  function Newest(s: seq<real>): (m: real)
    ensures forall i :: 0 <= i < |s| ==> s[i] <= m
    ensures s != [] ==> m in s
  {
    if s == [] then 0.0
    else if |s| == 1 then s[0]
    else
      var m := Newest(s[..|s| - 1]);
      if s[|s| - 1] > m then s[|s| - 1] else m
  }

  /** An entry the sweep drops: no lock, and nothing within the window. */
  predicate Stale(e: Entry, now: real, window: real) {
    e.until < now && Newest(e.attempts) < now - window
  }

  function Swept(t: Table, now: real, window: real): Table {
    map k | k in t && !Stale(t[k], now, window) :: t[k]
  }

  /** One more failed attempt, and whether that is one too many. */
  function Hit(t: Table, k: Key, now: real, window: real, limit: nat, lockout: real): (Table, bool) {
    var attempts := Attempts(t, k) + [now];
    var locked := |Recent(attempts, now, window)| >= limit;
    (t[k := Entry(attempts, if locked then now + lockout else Until(t, k))], locked)
  }

  /** record_failed_attempt */
  function Recorded(s: Store, ip: string, user: Option<string>, now: real, window: real, max: nat, lockout: real): (Store, Decision) {
    var byIp, byUser := Swept(s.byIp, now, window), Swept(s.byUser, now, window);
    var one := Hit(byIp, Ip(ip), now, window, max, lockout);
    if user.None? then (Store(one.0, byUser), Failed(one.1))
    else
      var two := Hit(byUser, User(user.value), now, window, max * 2, lockout);
      (Store(one.0, two.0), Failed(one.1 || two.1))
  }

  /** The limiters of the OIDC callback and of the password check. */
  function Limiter(t: Table, k: Key, now: real, window: real, limit: nat): (Table, Decision) {
    if k !in t then (t[k := Entry([now], 0.0)], Passed)
    else
      var recent := Recent(t[k].attempts, now, window);
      if |recent| >= limit then (t, Limited) else (t[k := Entry(recent + [now], 0.0)], Passed)
  }

  /** What touches the table; max and lockout as set when it happens. */
  datatype Step =
    | CheckIp(ip: string)
    | CheckUser(name: string)
    | Fail(ip: string, user: Option<string>, max: nat, lockout: real)
    | Succeed(ip: string, name: string)
    | Callback(ip: string)
    | VerifyPassword(ip: string)
    | UnlockIp(key: Key)
    | UnlockUsers(names: set<string>)
    | UnlockAllIps

  function Users(names: set<string>): set<Key> {
    set n | n in names :: User(n)
  }

  function Run(s: Store, step: Step, now: real, window: real): (Store, Decision) {
    match step
    case CheckIp(ip) => var c := Checked(s.byIp, Ip(ip), now, window); (s.(byIp := c.0), c.1)
    case CheckUser(user) => var c := Checked(s.byUser, User(user), now, window); (s.(byUser := c.0), c.1)
    case Fail(ip, user, max, lockout) => Recorded(s, ip, user, now, window, max, lockout)
    case Succeed(ip, user) => (Store(s.byIp - {Ip(ip)}, s.byUser - {User(user)}), Done)
    case Callback(ip) => var c := Limiter(s.byIp, Oidc(ip), now, OIDC_WINDOW, OIDC_LIMIT); (s.(byIp := c.0), c.1)
    case VerifyPassword(ip) => var c := Limiter(s.byIp, Verify(ip), now, VERIFY_WINDOW, VERIFY_LIMIT); (s.(byIp := c.0), c.1)
    case UnlockIp(key) => (s.(byIp := s.byIp - {key}), Done)
    case UnlockUsers(names) => (s.(byUser := s.byUser - Users(names)), Done)
    case UnlockAllIps => (s.(byIp := map[]), Done)
  }

  // ----- a table that never forgets -----

  function Asked(t: Table, k: Key, now: real): Decision {
    if Until(t, k) > now then Locked(Until(t, k)) else Open
  }

  function Counted(t: Table, k: Key, now: real, window: real, limit: nat): (Table, Decision) {
    if |Recent(Attempts(t, k), now, window)| >= limit then (t, Limited)
    else (t[k := Entry(Attempts(t, k) + [now], 0.0)], Passed)
  }

  function Noted(s: Store, ip: string, user: Option<string>, now: real, window: real, max: nat, lockout: real): (Store, Decision) {
    var one := Hit(s.byIp, Ip(ip), now, window, max, lockout);
    if user.None? then (s.(byIp := one.0), Failed(one.1))
    else
      var two := Hit(s.byUser, User(user.value), now, window, max * 2, lockout);
      (Store(one.0, two.0), Failed(one.1 || two.1))
  }

  /** The same handlers over a table nothing is dropped from but what a sign-in or an
      administrator clears. */
  function Kept(s: Store, step: Step, now: real, window: real): (Store, Decision) {
    match step
    case CheckIp(ip) => (s, Asked(s.byIp, Ip(ip), now))
    case CheckUser(user) => (s, Asked(s.byUser, User(user), now))
    case Fail(ip, user, max, lockout) => Noted(s, ip, user, now, window, max, lockout)
    case Callback(ip) => var c := Counted(s.byIp, Oidc(ip), now, OIDC_WINDOW, OIDC_LIMIT); (s.(byIp := c.0), c.1)
    case VerifyPassword(ip) => var c := Counted(s.byIp, Verify(ip), now, VERIFY_WINDOW, VERIFY_LIMIT); (s.(byIp := c.0), c.1)
    case _ => Run(s, step, now, window)
  }

  // ----- recent attempts -----

  predicate Positive(s: seq<real>) {
    forall i :: 0 <= i < |s| ==> s[i] > 0.0
  }

  /** An attempt that is not recent is not later either, while the cut does not move back. */
  lemma {:induction false} RecentLater(s: seq<real>, now: real, window: real, later: real, less: real)
    requires Positive(s) && (now - window <= 0.0 || now - window <= later - less)
    ensures Recent(Recent(s, now, window), later, less) == Recent(s, later, less)
  {
    if s != [] {
      var t := s[..|s| - 1];
      assert Positive(t);
      RecentLater(t, now, window, later, less);
      if now - s[|s| - 1] < window {
        var r := Recent(t, now, window);
        assert (r + [s[|s| - 1]])[..|r|] == r;
      } else {
        assert Recent(t, now, window) + [] == Recent(t, now, window);
      }
    }
  }

  lemma {:induction false} RecentIsPositive(s: seq<real>, now: real, window: real)
    requires Positive(s)
    ensures Positive(Recent(s, now, window))
  {
    if s != [] {
      assert Positive(s[..|s| - 1]);
      RecentIsPositive(s[..|s| - 1], now, window);
    }
  }

  lemma {:induction false} NothingRecent(s: seq<real>, now: real, window: real)
    requires forall i :: 0 <= i < |s| ==> now - s[i] >= window
    ensures Recent(s, now, window) == []
  {
    if s != [] {
      NothingRecent(s[..|s| - 1], now, window);
    }
  }

  lemma OneMoreRecent(s: seq<real>, now: real, window: real)
    requires window > 0.0
    ensures Recent(s + [now], now, window) == Recent(s, now, window) + [now]
  {
    assert (s + [now])[..|s|] == s;
  }

  // ----- the two tables -----

  /** How far back each kind of entry is looked at. */
  function Horizon(k: Key, window: real): real {
    match k case Oidc(_) => OIDC_WINDOW case Verify(_) => VERIFY_WINDOW case _ => window
  }

  /** The same attempts within the horizon, and the same lock if there still is one. */
  predicate Alike(a: Table, b: Table, k: Key, now: real, window: real) {
    && Recent(Attempts(a, k), now, Horizon(k, window)) == Recent(Attempts(b, k), now, Horizon(k, window))
    && (Until(a, k) == Until(b, k) || (Until(a, k) <= now && Until(b, k) <= now))
    && Positive(Attempts(a, k)) && Positive(Attempts(b, k))
  }

  function TableOf(s: Store, k: Key): Table {
    if k.User? then s.byUser else s.byIp
  }

  predicate KeyAlike(a: Store, b: Store, k: Key, now: real, window: real) {
    Alike(TableOf(a, k), TableOf(b, k), k, now, window)
  }

  ghost predicate StoresAlike(a: Store, b: Store, now: real, window: real) {
    forall k :: KeyAlike(a, b, k, now, window)
  }

  /** A lock's attempts are looked at over the window that is set. */
  predicate Locks(k: Key) {
    k.Ip? || k.User?
  }

  lemma AlikeLater(a: Table, b: Table, k: Key, now: real, later: real, window: real, less: real)
    requires Alike(a, b, k, now, window) && now <= later
    requires Locks(k) ==> now - window <= 0.0 || now - window <= later - less
    ensures Alike(a, b, k, later, less)
  {
    hide Recent, Positive;
    RecentLater(Attempts(a, k), now, Horizon(k, window), later, Horizon(k, less));
    RecentLater(Attempts(b, k), now, Horizon(k, window), later, Horizon(k, less));
  }

  /** The sweep drops nothing that counts, when its window is no shorter than what is looked at or
      reaches back to 1970. */
  lemma SweepIsAlike(a: Table, b: Table, k: Key, now: real, window: real)
    requires Alike(a, b, k, now, window) && (window >= Horizon(k, window) || now - window <= 0.0) && now > 0.0
    ensures Alike(Swept(a, now, window), b, k, now, window)
  {
    hide Recent, Newest;
    var t := Swept(a, now, window);
    if k in a && k !in t {
      if now - window <= 0.0 {
        NothingStale(a[k], now, window);
      }
      SweptHadNothing(a[k], now, window, Horizon(k, window));
      NothingRecent([], now, Horizon(k, window));
    }
  }

  lemma NothingStale(e: Entry, now: real, window: real)
    requires Positive(e.attempts) && now - window <= 0.0
    ensures !Stale(e, now, window)
  {
    assert e.attempts == [] ==> Newest(e.attempts) == 0.0;
  }

  lemma SweptHadNothing(e: Entry, now: real, window: real, horizon: real)
    requires Stale(e, now, window) && horizon <= window
    ensures Recent(e.attempts, now, horizon) == []
  {
    NothingRecent(e.attempts, now, horizon);
  }

  lemma CheckIsAlike(a: Table, b: Table, k: Key, now: real, window: real)
    requires Alike(a, b, k, now, window) && Locks(k) && now > 0.0
    ensures Checked(a, k, now, window).1 == Asked(b, k, now)
    ensures Alike(Checked(a, k, now, window).0, b, k, now, window)
  {
    hide Recent, Positive;
    if k in a {
      RecentLater(a[k].attempts, now, window, now, window);
      RecentIsPositive(a[k].attempts, now, window);
    }
  }

  lemma HitIsAlike(a: Table, b: Table, k: Key, now: real, window: real, limit: nat, lockout: real)
    requires Alike(a, b, k, now, window) && Locks(k) && window > 0.0 && now > 0.0
    ensures Hit(a, k, now, window, limit, lockout).1 == Hit(b, k, now, window, limit, lockout).1
    ensures Alike(Hit(a, k, now, window, limit, lockout).0, Hit(b, k, now, window, limit, lockout).0, k, now, window)
  {
    hide Recent, Positive;
    PositiveMore(Attempts(a, k), now);
    PositiveMore(Attempts(b, k), now);
    OneMoreRecent(Attempts(a, k), now, window);
    OneMoreRecent(Attempts(b, k), now, window);
  }

  lemma PositiveMore(s: seq<real>, now: real)
    requires now > 0.0
    ensures Positive([])
    ensures Positive(s) ==> Positive(s + [now])
  {
  }

  lemma LimiterIsAlike(a: Table, b: Table, k: Key, now: real, window: real, limit: nat)
    requires Alike(a, b, k, now, window) && Horizon(k, window) > 0.0 && limit > 0 && now > 0.0
    ensures var h := Horizon(k, window);
            && Limiter(a, k, now, h, limit).1 == Counted(b, k, now, h, limit).1
            && Alike(Limiter(a, k, now, h, limit).0, Counted(b, k, now, h, limit).0, k, now, window)
  {
    hide Recent, Positive;
    var h := Horizon(k, window);
    PositiveMore(Recent(Attempts(a, k), now, h), now);
    PositiveMore(Attempts(b, k), now);
    PositiveMore([], now);
    NothingRecent([], now, h);
    RecentLater(Attempts(a, k), now, h, now, h);
    RecentIsPositive(Attempts(a, k), now, h);
    OneMoreRecent(Recent(Attempts(a, k), now, h), now, h);
    OneMoreRecent(Attempts(b, k), now, h);
    assert [] + [now] == [now];
    OneMoreRecent([], now, h);
  }

  lemma ClearedIsAlike(a: Table, b: Table, k: Key, now: real, window: real)
    requires k !in a && k !in b
    ensures Alike(a, b, k, now, window)
  {
  }

  /** A step keeps two stores alike in one key. */
  lemma StepIsAlike(a: Store, b: Store, step: Step, now: real, window: real, k: Key)
    requires KeyAlike(a, b, k, now, window) && now > 0.0 && window > 0.0
    requires window >= Horizon(k, window) || now - window <= 0.0
    ensures KeyAlike(Run(a, step, now, window).0, Kept(b, step, now, window).0, k, now, window)
  {
    hide Recent, Positive, Hit, Limiter, Counted, Checked, Swept;
    match step {
      case CheckIp(ip) => OthersChecked(a.byIp, Ip(ip), now, window);
        if k == Ip(ip) {
          CheckIsAlike(a.byIp, b.byIp, k, now, window);
        }
      case CheckUser(user) => OthersChecked(a.byUser, User(user), now, window);
        if k == User(user) {
          CheckIsAlike(a.byUser, b.byUser, k, now, window);
        }
      case Fail(ip, user, max, lockout) => FailIsAlike(a, b, ip, user, max, lockout, now, window, k);
      case Callback(ip) => OthersLimited(a.byIp, b.byIp, Oidc(ip), now, OIDC_WINDOW, OIDC_LIMIT);
        if k == Oidc(ip) {
          LimiterIsAlike(a.byIp, b.byIp, k, now, window, OIDC_LIMIT);
        }
      case VerifyPassword(ip) => OthersLimited(a.byIp, b.byIp, Verify(ip), now, VERIFY_WINDOW, VERIFY_LIMIT);
        if k == Verify(ip) {
          LimiterIsAlike(a.byIp, b.byIp, k, now, window, VERIFY_LIMIT);
        }
      case _ =>
        var x, y := TableOf(Run(a, step, now, window).0, k), TableOf(Run(b, step, now, window).0, k);
        if k !in x && k !in y {
          ClearedIsAlike(x, y, k, now, window);
        }
    }
  }

  lemma OthersChecked(t: Table, k: Key, now: real, window: real)
    ensures forall x :: x != k ==> Attempts(Checked(t, k, now, window).0, x) == Attempts(t, x) && Until(Checked(t, k, now, window).0, x) == Until(t, x)
  {
    hide Recent;
  }

  lemma OthersHit(t: Table, k: Key, now: real, window: real, limit: nat, lockout: real)
    ensures var h := Hit(t, k, now, window, limit, lockout).0;
            forall x :: x != k ==> Attempts(h, x) == Attempts(t, x) && Until(h, x) == Until(t, x)
  {
    hide Recent;
  }

  lemma OthersLimited(a: Table, b: Table, k: Key, now: real, window: real, limit: nat)
    ensures var t := Limiter(a, k, now, window, limit).0;
            forall x :: x != k ==> Attempts(t, x) == Attempts(a, x) && Until(t, x) == Until(a, x)
    ensures var t := Counted(b, k, now, window, limit).0;
            forall x :: x != k ==> Attempts(t, x) == Attempts(b, x) && Until(t, x) == Until(b, x)
  {
    hide Recent;
  }

  lemma FailIsAlike(a: Store, b: Store, ip: string, user: Option<string>, max: nat, lockout: real, now: real, window: real, k: Key)
    requires KeyAlike(a, b, k, now, window) && now > 0.0 && window > 0.0
    requires window >= Horizon(k, window) || now - window <= 0.0
    ensures KeyAlike(Recorded(a, ip, user, now, window, max, lockout).0, Noted(b, ip, user, now, window, max, lockout).0, k, now, window)
  {
    hide Recent, Positive, Hit, Swept;
    SweepIsAlike(TableOf(a, k), TableOf(b, k), k, now, window);
    var byIp, byUser := Swept(a.byIp, now, window), Swept(a.byUser, now, window);
    OthersHit(byIp, Ip(ip), now, window, max, lockout);
    OthersHit(b.byIp, Ip(ip), now, window, max, lockout);
    if k == Ip(ip) {
      HitIsAlike(byIp, b.byIp, k, now, window, max, lockout);
    }
    if user.Some? {
      OthersHit(byUser, User(user.value), now, window, max * 2, lockout);
      OthersHit(b.byUser, User(user.value), now, window, max * 2, lockout);
      if k == User(user.value) {
        HitIsAlike(byUser, b.byUser, k, now, window, max * 2, lockout);
      }
    }
  }

  /** The entries a step decides by. */
  function Keys(step: Step): set<Key> {
    match step
    case CheckIp(ip) => {Ip(ip)}
    case CheckUser(user) => {User(user)}
    case Fail(ip, user, _, _) => {Ip(ip)} + if user.Some? then {User(user.value)} else {}
    case Callback(ip) => {Oidc(ip)}
    case VerifyPassword(ip) => {Verify(ip)}
    case _ => {}
  }

  lemma DecidedAlike(a: Store, b: Store, step: Step, now: real, window: real)
    requires now > 0.0 && window > 0.0
    requires forall k :: k in Keys(step) ==> KeyAlike(a, b, k, now, window) && (window >= Horizon(k, window) || now - window <= 0.0)
    ensures Run(a, step, now, window).1 == Kept(b, step, now, window).1
  {
    hide Recent, Positive, Hit, Limiter, Counted, Checked, Asked, Swept, Alike;
    match step {
      case CheckIp(ip) =>
        assert KeyAlike(a, b, Ip(ip), now, window);
        CheckIsAlike(a.byIp, b.byIp, Ip(ip), now, window);
      case CheckUser(user) =>
        assert KeyAlike(a, b, User(user), now, window);
        CheckIsAlike(a.byUser, b.byUser, User(user), now, window);
      case Fail(ip, user, max, lockout) =>
        assert KeyAlike(a, b, Ip(ip), now, window);
        SweepIsAlike(a.byIp, b.byIp, Ip(ip), now, window);
        HitIsAlike(Swept(a.byIp, now, window), b.byIp, Ip(ip), now, window, max, lockout);
        if user.Some? {
          assert KeyAlike(a, b, User(user.value), now, window);
          SweepIsAlike(a.byUser, b.byUser, User(user.value), now, window);
          HitIsAlike(Swept(a.byUser, now, window), b.byUser, User(user.value), now, window, max * 2, lockout);
        }
      case Callback(ip) =>
        assert KeyAlike(a, b, Oidc(ip), now, window);
        LimiterIsAlike(a.byIp, b.byIp, Oidc(ip), now, window, OIDC_LIMIT);
      case VerifyPassword(ip) =>
        assert KeyAlike(a, b, Verify(ip), now, window);
        LimiterIsAlike(a.byIp, b.byIp, Verify(ip), now, window, VERIFY_LIMIT);
      case _ =>
    }
  }

  lemma EmptyIsAlike(now: real, window: real)
    ensures StoresAlike(EMPTY, EMPTY, now, window)
  {
  }

  // ----- runs -----

  type Timed = seq<(Step, real)>

  /** Requests come in no particular pace, but never before the one before them. */
  predicate InOrder(steps: Timed, from: real) {
    steps != [] ==> from <= steps[0].1 && InOrder(steps[1..], steps[0].1)
  }

  /** The attempt window an administrator has set, at each moment. */
  type Windows = real -> real

  function Decisions(s: Store, steps: Timed, windows: Windows): seq<Decision>
    decreases |steps|
  {
    if steps == [] then []
    else
      var one := Run(s, steps[0].0, steps[0].1, windows(steps[0].1));
      [one.1] + Decisions(one.0, steps[1..], windows)
  }

  function KeptDecisions(s: Store, steps: Timed, windows: Windows): seq<Decision>
    decreases |steps|
  {
    if steps == [] then []
    else
      var one := Kept(s, steps[0].0, steps[0].1, windows(steps[0].1));
      [one.1] + KeptDecisions(one.0, steps[1..], windows)
  }

  const EMPTY: Store := Store(map[], map[])

  /** Windows are of some length. */
  ghost predicate Proper(windows: Windows) {
    forall t: real :: t > 0.0 ==> windows(t) > 0.0
  }

  /** What the window cuts off at s is old for the password check too, and stays cut off. */
  predicate KeepsCut(windows: Windows, s: real, t: real) {
    s - windows(s) > 0.0 ==> windows(s) >= VERIFY_WINDOW && s - windows(s) <= t - windows(t)
  }

  /** At every time the window is five minutes or more, and it never reaches back behind what it
      cut off before; one that reaches back before 1970 cuts nothing off. */
  ghost predicate CutsForward(windows: Windows) {
    forall s: real, t: real :: 0.0 < s <= t ==> KeepsCut(windows, s, t)
  }

  /** What the window cuts off at s is old for this entry too, and stays cut off. */
  predicate KeepsCutOf(windows: Windows, k: Key, s: real, t: real) {
    s - windows(s) > 0.0 ==> windows(s) >= Horizon(k, windows(s)) && (Locks(k) ==> s - windows(s) <= t - windows(t))
  }

  ghost predicate CutsForwardOf(windows: Windows, k: Key) {
    forall s: real, t: real :: 0.0 < s <= t ==> KeepsCutOf(windows, k, s, t)
  }

  /** A decision of a run depends on its own entries alone. */
  lemma {:induction false} DecisionIsAlike(a: Store, b: Store, steps: Timed, from: real, windows: Windows, j: nat)
    requires Proper(windows) && from > 0.0 && InOrder(steps, from) && j < |steps|
    requires forall k :: k in Keys(steps[j].0) ==> KeyAlike(a, b, k, from, windows(from)) && CutsForwardOf(windows, k)
    ensures j < |Decisions(a, steps, windows)| && j < |KeptDecisions(b, steps, windows)|
    ensures Decisions(a, steps, windows)[j] == KeptDecisions(b, steps, windows)[j]
    decreases |steps|
  {
    hide Alike, Run, Kept;
    var (step, now) := steps[0];
    var window := windows(now);
    forall k | k in Keys(steps[j].0)
      ensures KeyAlike(a, b, k, now, window) && (window >= Horizon(k, window) || now - window <= 0.0)
      ensures KeyAlike(Run(a, step, now, window).0, Kept(b, step, now, window).0, k, now, window)
    {
      assert KeepsCutOf(windows, k, from, now) && KeepsCutOf(windows, k, now, now);
      AlikeLater(TableOf(a, k), TableOf(b, k), k, from, now, windows(from), window);
      StepIsAlike(a, b, step, now, window, k);
    }
    if j == 0 {
      DecidedAlike(a, b, step, now, window);
    } else {
      DecisionIsAlike(Run(a, step, now, window).0, Kept(b, step, now, window).0, steps[1..], now, windows, j - 1);
    }
  }

  lemma {:induction false} DecisionsOf(s: Store, steps: Timed, windows: Windows)
    ensures |Decisions(s, steps, windows)| == |KeptDecisions(s, steps, windows)| == |steps|
    decreases |steps|
  {
    if steps != [] {
      hide Run, Kept;
      DecisionsOf(Run(s, steps[0].0, steps[0].1, windows(steps[0].1)).0, steps[1..], windows);
      DecisionsOf(Kept(s, steps[0].0, steps[0].1, windows(steps[0].1)).0, steps[1..], windows);
    }
  }

  /** From stores that are alike, the same decisions. */
  lemma RunsAreAlike(a: Store, b: Store, steps: Timed, from: real, windows: Windows)
    requires StoresAlike(a, b, from, windows(from)) && Proper(windows) && CutsForward(windows) && from > 0.0 && InOrder(steps, from)
    ensures Decisions(a, steps, windows) == KeptDecisions(b, steps, windows)
  {
    DecisionsOf(a, steps, windows);
    DecisionsOf(b, steps, windows);
    forall k, s: real, t: real | 0.0 < s <= t ensures KeepsCutOf(windows, k, s, t) {
      assert KeepsCut(windows, s, t);
    }
    hide KeepsCutOf, Decisions, KeptDecisions, InOrder, KeyAlike;
    forall j | 0 <= j < |steps| ensures Decisions(a, steps, windows)[j] == KeptDecisions(b, steps, windows)[j] {
      DecisionIsAlike(a, b, steps, from, windows, j);
    }
  }

  /** No decision of any run shows that the table is swept. */
  ghost predicate SweepIsInvisible(windows: Windows) {
    forall steps, from: real :: from > 0.0 && InOrder(steps, from) ==> Decisions(EMPTY, steps, windows) == KeptDecisions(EMPTY, steps, windows)
  }

  // ----- a window shorter than five minutes -----

  /** Five password checks, and a failed login from elsewhere before they are forgotten. */
  function Shows(a: real, later: real): Timed {
    var check := (VerifyPassword("a"), a);
    [check, check, check, check, check, (Fail("b", None, 5, 300.0), later), (VerifyPassword("a"), later)]
  }

  function Times(n: nat, a: real): seq<real> {
    seq(n, _ => a)
  }

  lemma {:induction false} TimesAreRecent(n: nat, a: real, now: real, window: real)
    requires now - a < window
    ensures Recent(Times(n, a), now, window) == Times(n, a)
  {
    if n > 0 {
      assert Times(n, a)[..n - 1] == Times(n - 1, a);
      TimesAreRecent(n - 1, a, now, window);
    }
  }

  function Checks(n: nat, a: real): Store
    requires n > 0
  {
    Store(map[Verify("a") := Entry(Times(n, a), 0.0)], map[])
  }

  lemma FirstCheck(a: real, window: real)
    ensures Run(EMPTY, VerifyPassword("a"), a, window) == (Checks(1, a), Passed)
    ensures Kept(EMPTY, VerifyPassword("a"), a, window) == (Checks(1, a), Passed)
  {
    assert Times(1, a) == [a] == [] + [a];
    NothingRecent([], a, VERIFY_WINDOW);
  }

  lemma OneCheckMore(n: nat, a: real, window: real)
    requires 0 < n < VERIFY_LIMIT
    ensures Run(Checks(n, a), VerifyPassword("a"), a, window) == (Checks(n + 1, a), Passed)
    ensures Kept(Checks(n, a), VerifyPassword("a"), a, window) == (Checks(n + 1, a), Passed)
  {
    TimesAreRecent(n, a, a, VERIFY_WINDOW);
    assert Times(n, a) + [a] == Times(n + 1, a);
    var k := Verify("a");
    assert Checks(n, a).byIp[k := Entry(Times(n + 1, a), 0.0)] == Checks(n + 1, a).byIp;
  }

  lemma {:induction false} NewestOfTimes(n: nat, a: real)
    requires n > 0
    ensures Newest(Times(n, a)) == a
  {
    assert Newest(Times(n, a)) in Times(n, a);
  }

  lemma LastTwo(a: real, now: real, windows: Windows)
    requires 0.0 < a < now - windows(now) && now - a < VERIFY_WINDOW && windows(now) > 0.0
    ensures var last := Shows(a, now)[5..];
            Decisions(Checks(5, a), last, windows) != KeptDecisions(Checks(5, a), last, windows)
  {
    var last := Shows(a, now)[5..];
    var window := windows(now);
    assert |last| == 2 && last[0].1 == now;
    assert last[1..][0] == last[1] && last[1..][1..] == [];
    NewestOfTimes(5, a);
    TimesAreRecent(5, a, now, VERIFY_WINDOW);
    var swept := Run(Checks(5, a), last[0].0, now, window).0;
    assert Verify("a") !in Swept(Checks(5, a).byIp, now, window);
    assert Verify("a") !in swept.byIp;
    assert Run(swept, last[1].0, now, window).1 == Passed;
    var kept := Kept(Checks(5, a), last[0].0, now, window).0;
    assert kept.byIp[Verify("a")] == Entry(Times(5, a), 0.0);
    assert Kept(kept, last[1].0, now, window).1 == Limited;
    assert Decisions(swept, last[1..], windows) == [Passed] + [] && KeptDecisions(kept, last[1..], windows) == [Limited] + [];
    assert Decisions(Checks(5, a), last, windows)[1] == Passed;
    assert KeptDecisions(Checks(5, a), last, windows)[1] == Limited;
  }

  lemma {:induction false} ChecksFirst(n: nat, a: real, now: real, windows: Windows)
    requires 0 < n <= 5
    requires Decisions(Checks(5, a), Shows(a, now)[5..], windows) != KeptDecisions(Checks(5, a), Shows(a, now)[5..], windows)
    ensures Decisions(Checks(n, a), Shows(a, now)[n..], windows) != KeptDecisions(Checks(n, a), Shows(a, now)[n..], windows)
    decreases 5 - n
  {
    hide Run, Kept;
    if n < 5 {
      ChecksFirst(n + 1, a, now, windows);
      OneCheckMore(n, a, windows(a));
      var steps := Shows(a, now)[n..];
      assert steps[0] == (VerifyPassword("a"), a) && steps[1..] == Shows(a, now)[n + 1..];
      assert Decisions(Checks(n, a), steps, windows)[1..] == Decisions(Checks(n + 1, a), steps[1..], windows);
      assert KeptDecisions(Checks(n, a), steps, windows)[1..] == KeptDecisions(Checks(n + 1, a), steps[1..], windows);
    }
  }

  /** A window that is shorter at some time lets a password check through then. */
  lemma ShortWindowShows(windows: Windows, now: real)
    requires 0.0 < windows(now) < VERIFY_WINDOW && now - windows(now) > 0.0
    ensures !SweepIsInvisible(windows)
  {
    var low := if now - VERIFY_WINDOW > 0.0 then now - VERIFY_WINDOW else 0.0;
    var a := (low + (now - windows(now))) / 2.0;
    LastTwo(a, now, windows);
    ChecksFirst(1, a, now, windows);
    FirstCheck(a, windows(a));
    var steps := Shows(a, now);
    hide Run, Kept;
    assert steps[0] == (VerifyPassword("a"), a) && steps[1..] == Shows(a, now)[1..];
    assert Decisions(EMPTY, steps, windows)[1..] == Decisions(Checks(1, a), steps[1..], windows);
    assert KeptDecisions(EMPTY, steps, windows)[1..] == KeptDecisions(Checks(1, a), steps[1..], windows);
    ShowsInOrder(a, now);
  }

  lemma ShowsInOrder(a: real, later: real)
    requires a <= later
    ensures InOrder(Shows(a, later), a)
  {
    var s := Shows(a, later);
    assert InOrder(s[7..], s[6].1);
    assert s[6..][1..] == s[7..] && s[5..][1..] == s[6..] && s[4..][1..] == s[5..];
    assert s[3..][1..] == s[4..] && s[2..][1..] == s[3..] && s[1..][1..] == s[2..];
    assert InOrder(s[6..], s[5].1);
    assert InOrder(s[5..], s[4].1);
    assert InOrder(s[4..], s[3].1);
    assert InOrder(s[3..], s[2].1);
    assert InOrder(s[2..], s[1].1);
    assert InOrder(s[1..], s[0].1);
  }

  // ----- a window that grows -----

  /** A failed login, the lock check that forgets it, and another failure that would have locked. */
  function Grows(a: real, s: real, t: real): Timed {
    [(Fail("a", None, 2, 300.0), a), (CheckIp("a"), s), (Fail("a", None, 2, 300.0), t)]
  }

  lemma OneDecision(s: Store, step: Step, now: real, rest: Timed, windows: Windows)
    ensures Decisions(s, [(step, now)] + rest, windows) ==
            [Run(s, step, now, windows(now)).1] + Decisions(Run(s, step, now, windows(now)).0, rest, windows)
    ensures KeptDecisions(s, [(step, now)] + rest, windows) ==
            [Kept(s, step, now, windows(now)).1] + KeptDecisions(Kept(s, step, now, windows(now)).0, rest, windows)
  {
    hide Run, Kept;
    assert ([(step, now)] + rest)[1..] == rest;
  }

  const FAILURE: Step := Fail("a", None, 2, 300.0)

  /** A window that reaches further back at t than the one before it cut off lets a login through. */
  lemma GrowingWindowShows(windows: Windows, s: real, t: real)
    requires Proper(windows) && 0.0 < s <= t && s - windows(s) > 0.0 && t - windows(t) < s - windows(s)
    ensures !SweepIsInvisible(windows)
    ensures var a := s - windows(s); var steps := Grows(a, s, t);
            && a > 0.0 && InOrder(steps, a) && |Decisions(EMPTY, steps, windows)| == |KeptDecisions(EMPTY, steps, windows)| == 3
            && Decisions(EMPTY, steps, windows)[2] == Failed(false) && KeptDecisions(EMPTY, steps, windows)[2] == Failed(true)
  {
    var a := s - windows(s);
    var steps := Grows(a, s, t);
    assert windows(a) > 0.0 && windows(s) > 0.0 && windows(t) > 0.0;
    hide *;
    FirstFailure(a, windows(a));
    CheckForgets(a, s, windows(s));
    SecondFailure(a, t, windows(t));
    GrowsInOrder(a, s, t);
    ThreeDecisions(FAILURE, CheckIp("a"), FAILURE, a, s, t, windows,
                   Store(map[Ip("a") := Entry([a], 0.0)], map[]), Store(map[Ip("a") := Entry([], 0.0)], map[]));
    DecisionsOf(EMPTY, steps, windows);
    ItShows(steps, a, windows);
  }

  lemma ThreeDecisions(x: Step, y: Step, z: Step, a: real, s: real, t: real, windows: Windows, one: Store, two: Store)
    requires Run(EMPTY, x, a, windows(a)).0 == one && Kept(EMPTY, x, a, windows(a)).0 == one
    requires Run(one, y, s, windows(s)).0 == two && Kept(one, y, s, windows(s)).0 == one
    ensures var steps := [(x, a)] + ([(y, s)] + ([(z, t)] + []));
            var ran, kept := Decisions(EMPTY, steps, windows), KeptDecisions(EMPTY, steps, windows);
            && |ran| > 2 && ran[2] == Run(two, z, t, windows(t)).1
            && |kept| > 2 && kept[2] == Kept(one, z, t, windows(t)).1
  {
    hide *;
    var last: Timed := [];
    var three := [(z, t)] + last;
    OneDecision(two, z, t, last, windows);
    OneDecision(one, z, t, last, windows);
    OneDecision(one, y, s, three, windows);
    OneDecision(EMPTY, x, a, [(y, s)] + three, windows);
  }

  lemma ItShows(steps: Timed, from: real, windows: Windows)
    requires from > 0.0 && InOrder(steps, from) && Decisions(EMPTY, steps, windows) != KeptDecisions(EMPTY, steps, windows)
    ensures !SweepIsInvisible(windows)
  {
  }

  lemma GrowsInOrder(a: real, s: real, t: real)
    requires a <= s <= t
    ensures InOrder(Grows(a, s, t), a) && |Grows(a, s, t)| == 3
    ensures Grows(a, s, t) == [(FAILURE, a)] + ([(CheckIp("a"), s)] + ([(FAILURE, t)] + []))
  {
    var steps := Grows(a, s, t);
    assert InOrder(steps[2..], s) && InOrder(steps[1..], a);
  }

  lemma FirstFailure(a: real, window: real)
    requires window > 0.0
    ensures var one := Store(map[Ip("a") := Entry([a], 0.0)], map[]);
            Run(EMPTY, FAILURE, a, window).0 == one && Kept(EMPTY, FAILURE, a, window).0 == one
  {
    assert [] + [a] == [a];
    OneMoreRecent([], a, window);
    NothingRecent([], a, window);
    assert Swept(map[], a, window) == map[];
  }

  lemma CheckForgets(a: real, now: real, window: real)
    requires now - a >= window && now > 0.0
    ensures var one := Store(map[Ip("a") := Entry([a], 0.0)], map[]);
            && Run(one, CheckIp("a"), now, window).0 == Store(map[Ip("a") := Entry([], 0.0)], map[])
            && Kept(one, CheckIp("a"), now, window).0 == one
  {
    NothingRecent([a], now, window);
    var one := Store(map[Ip("a") := Entry([a], 0.0)], map[]);
    assert one.byIp[Ip("a") := Entry([], 0.0)] == map[Ip("a") := Entry([], 0.0)];
  }

  lemma SecondFailure(a: real, now: real, window: real)
    requires now - a < window && window > 0.0
    ensures Run(Store(map[Ip("a") := Entry([], 0.0)], map[]), FAILURE, now, window).1 == Failed(false)
    ensures Kept(Store(map[Ip("a") := Entry([a], 0.0)], map[]), FAILURE, now, window).1 == Failed(true)
  {
    assert [] + [now] == [now];
    OneMoreRecent([], now, window);
    NothingRecent([], now, window);
    OneMoreRecent([a], now, window);
    TimesAreRecent(1, a, now, window);
    assert Times(1, a) == [a];
  }

  /** Every locked or not locked, limited or not limited, of every run of logins, callbacks,
      password checks and unlocks is that of a table that never drops an entry - exactly when
      the attempt window, as an administrator sets it over time, is never shorter than the five
      minutes of the password check and never reaches back behind what it cut off before. */
  lemma SweepIsInvisibleIff(windows: Windows)
    requires Proper(windows)
    ensures SweepIsInvisible(windows) <==> CutsForward(windows)
  {
    if CutsForward(windows) {
      forall steps, from: real | from > 0.0 && InOrder(steps, from)
        ensures Decisions(EMPTY, steps, windows) == KeptDecisions(EMPTY, steps, windows)
      {
        EmptyIsAlike(from, windows(from));
        RunsAreAlike(EMPTY, EMPTY, steps, from, windows);
      }
    } else {
      var s: real, t: real :| 0.0 < s <= t && !KeepsCut(windows, s, t);
      if windows(s) < VERIFY_WINDOW {
        ShortWindowShows(windows, s);
      } else {
        GrowingWindowShows(windows, s, t);
      }
    }
  }

  /** With a window that is never changed: exactly when it is five minutes or more.  An
      administrator may set it down to one minute. */
  lemma FixedWindowIff(window: real)
    requires window > 0.0
    ensures SweepIsInvisible(_ => window) <==> window >= VERIFY_WINDOW
  {
    var windows: Windows := _ => window;
    SweepIsInvisibleIff(windows);
    if window < VERIFY_WINDOW {
      assert !KeepsCut(windows, window + 1.0, window + 1.0);
    }
  }
}
