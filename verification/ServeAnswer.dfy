/**
 Serving answer files to prepared installers (pegaprox/api/auto_install.py): the rows of the
 profiles and of their runs, and what each handler does to them.  A fetch reads the profile,
 yields, and claims its use in one guarded statement.
 */
module ServeAnswer {
  import opened Wrappers

  type Id = string

  const RUNS_KEPT: nat := 1000

  /** What an administrator sets; max: how often a file may be fetched, 0 without limit. */
  datatype Terms = Terms(enabled: bool, max: nat, expires: Option<int>, answer: string)

  datatype Profile = Profile(token: string, terms: Terms, uses: nat)

  /** fingerprint: of the machine, empty when it sent nothing to know it by. */
  datatype Run = Run(profile: Id, fingerprint: string, callback: string, started: int)

  datatype Store = Store(profiles: map<Id, Profile>, runs: map<Id, Run>)

  /** A fetch between its read and its claim. */
  datatype Fetch = Fetch(profile: Id, token: string, answer: string)

  /** What the database answers to the queries of one claim: the run of the machine, the id of
      a new one, and the runs its DELETE spares. */
  datatype Picks = Picks(existing: Option<Id>, newId: Id, kept: set<Id>)

  predicate Expired(terms: Terms, now: int) {
    terms.expires.Some? && terms.expires.value <= now
  }

  predicate Usable(p: Profile, now: int) {
    p.terms.enabled && !Expired(p.terms, now) && (p.terms.max == 0 || p.uses < p.terms.max)
  }

  /** The profile a token belongs to; tokens are unique. */
  predicate HasToken(s: Store, id: Id, token: string) {
    id in s.profiles && s.profiles[id].token == token
  }

  predicate Claims(s: Store, f: Fetch, now: int) {
    HasToken(s, f.profile, f.token) && Usable(s.profiles[f.profile], now)
  }

  function RunsOf(runs: map<Id, Run>, id: Id): set<Id> {
    set r | r in runs && runs[r].profile == id
  }

  function SameMachine(runs: map<Id, Run>, id: Id, fingerprint: string): set<Id> {
    set r | r in RunsOf(runs, id) && runs[r].fingerprint == fingerprint
  }

  /** The latest run of the machine, if it can be known again. */
  predicate PicksExisting(runs: map<Id, Run>, id: Id, fingerprint: string, existing: Option<Id>) {
    if fingerprint == "" || SameMachine(runs, id, fingerprint) == {} then existing == None
    else
      && existing.Some? && existing.value in SameMachine(runs, id, fingerprint)
      && forall r :: r in SameMachine(runs, id, fingerprint) ==> runs[r].started <= runs[existing.value].started
  }

  /** The latest runs of a profile, as many as are kept. */
  predicate Newest(runs: map<Id, Run>, id: Id, kept: set<Id>) {
    && kept <= RunsOf(runs, id)
    && |kept| == (if |RunsOf(runs, id)| < RUNS_KEPT then |RunsOf(runs, id)| else RUNS_KEPT)
    && forall a, b :: a in kept && b in RunsOf(runs, id) - kept ==> runs[b].started <= runs[a].started
  }

  function WithRun(runs: map<Id, Run>, f: Fetch, fingerprint: string, callback: string, now: int, picks: Picks): (Id, map<Id, Run>) {
    var run := Run(f.profile, fingerprint, callback, now);
    match picks.existing
    case Some(r) => (r, runs[r := run])
    case None =>
      var more := runs[picks.newId := run];
      (picks.newId, more - (RunsOf(more, f.profile) - picks.kept))
  }

  /** Picks are what the database can answer. */
  predicate Answers(s: Store, f: Fetch, fingerprint: string, callback: string, now: int, picks: Picks) {
    && PicksExisting(s.runs, f.profile, fingerprint, picks.existing)
    && picks.newId !in s.runs
    && (picks.existing == None ==> Newest(s.runs[picks.newId := Run(f.profile, fingerprint, callback, now)], f.profile, picks.kept))
  }

  /** The claim of a fetch: the use and the run, or nothing. */
  function Claimed(s: Store, f: Fetch, fingerprint: string, callback: string, now: int, picks: Picks): Store {
    if !Claims(s, f, now) then s
    else
      var p := s.profiles[f.profile];
      Store(s.profiles[f.profile := p.(uses := p.uses + 1)], WithRun(s.runs, f, fingerprint, callback, now, picks).1)
  }

  function CreatedIn(s: Store, id: Id, token: string, terms: Terms): Store {
    s.(profiles := s.profiles[id := Profile(token, terms, 0)])
  }

  function EditedIn(s: Store, id: Id, terms: Terms): Store {
    if id !in s.profiles then s else s.(profiles := s.profiles[id := s.profiles[id].(terms := terms)])
  }

  function RotatedIn(s: Store, id: Id, token: string): Store {
    if id !in s.profiles then s else s.(profiles := s.profiles[id := s.profiles[id].(token := token, uses := 0)])
  }

  function DeletedFrom(s: Store, id: Id): Store {
    if id !in s.profiles then s else Store(s.profiles - {id}, s.runs - RunsOf(s.runs, id))
  }

  // ----- what the database can always answer -----

  lemma {:induction false} OldestOf(runs: map<Id, Run>, ids: set<Id>) returns (oldest: Id)
    requires ids != {} && forall r :: r in ids ==> r in runs
    ensures oldest in ids && forall r :: r in ids ==> runs[oldest].started <= runs[r].started
    decreases |ids|
  {
    var r :| r in ids;
    oldest := r;
    var rest := ids - {r};
    assert ids == rest + {r};
    if rest != {} {
      var other := OldestOf(runs, rest);
      if runs[other].started < runs[r].started {
        oldest := other;
      }
    }
  }

  lemma {:induction false} SomeAreNewest(runs: map<Id, Run>, ids: set<Id>, n: nat) returns (kept: set<Id>)
    requires n <= |ids| && forall r :: r in ids ==> r in runs
    ensures kept <= ids && |kept| == n
    ensures forall a, b :: a in kept && b in ids - kept ==> runs[b].started <= runs[a].started
    decreases |ids|
  {
    if |ids| == n {
      kept := ids;
    } else {
      var oldest := OldestOf(runs, ids);
      kept := SomeAreNewest(runs, ids - {oldest}, n);
    }
  }

  lemma {:induction false} LatestOf(runs: map<Id, Run>, ids: set<Id>) returns (latest: Id)
    requires ids != {} && forall r :: r in ids ==> r in runs
    ensures latest in ids && forall r :: r in ids ==> runs[r].started <= runs[latest].started
    decreases |ids|
  {
    var r :| r in ids;
    latest := r;
    var rest := ids - {r};
    assert ids == rest + {r};
    if rest != {} {
      var other := LatestOf(runs, rest);
      if runs[other].started > runs[r].started {
        latest := other;
      }
    }
  }

  /** Whatever rows there are, the queries of a claim have an answer. */
  lemma QueriesHaveAnswers(s: Store, f: Fetch, fingerprint: string, callback: string, now: int, newId: Id)
    requires newId !in s.runs
    ensures exists picks: Picks :: picks.newId == newId && Answers(s, f, fingerprint, callback, now, picks)
  {
    var more := s.runs[newId := Run(f.profile, fingerprint, callback, now)];
    var ids := RunsOf(more, f.profile);
    var kept := SomeAreNewest(more, ids, if |ids| < RUNS_KEPT then |ids| else RUNS_KEPT);
    var mine := SameMachine(s.runs, f.profile, fingerprint);
    var existing := None;
    if fingerprint != "" && mine != {} {
      var latest := LatestOf(s.runs, mine);
      existing := Some(latest);
    }
    assert Answers(s, f, fingerprint, callback, now, Picks(existing, newId, kept));
  }

  /** A new run outlives the pruning that comes with it when it is the latest; one second's
      worth of a thousand runs, or a clock set back, and it may not. */
  lemma NewRunIsKept(s: Store, f: Fetch, fingerprint: string, callback: string, now: int, picks: Picks)
    requires Answers(s, f, fingerprint, callback, now, picks) && picks.existing == None
    requires forall r :: r in RunsOf(s.runs, f.profile) ==> s.runs[r].started < now
    ensures picks.newId in WithRun(s.runs, f, fingerprint, callback, now, picks).1
  {
    var more := s.runs[picks.newId := Run(f.profile, fingerprint, callback, now)];
    var ids := RunsOf(more, f.profile);
    assert |ids - {picks.newId}| == |ids| - 1;
    if picks.newId !in picks.kept {
      Smaller(picks.kept, ids - {picks.newId});
    }
  }

  lemma {:induction false} Smaller(a: set<Id>, b: set<Id>)
    requires a <= b
    ensures |a| <= |b|
  {
    assert b == a + (b - a);
    assert |a + (b - a)| == |a| + |b - a|;
  }
}
