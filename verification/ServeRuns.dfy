/**
 Whole runs of the answer-file endpoints: any number of fetches between their read and their
 claim, while profiles are made, edited, rotated and deleted and runs are cleared.  The log
 of what happened is the reference: what a profile allows is read off it alone.
 */
module ServeRuns {
  import opened Wrappers
  import opened ServeAnswer

  datatype Event =
    | Created(id: Id, token: string, terms: Terms)
    | Edited(id: Id, terms: Terms)
    | Rotated(id: Id, token: string)
    | Deleted(id: Id)
    | Served(id: Id, fetch: Fetch, at: int, run: Id, fingerprint: string, callback: string, read: nat)

  /** A fetch in flight, and how long the log was when it read its profile. */
  datatype InFlight = InFlight(fetch: Fetch, read: nat)

  datatype World = World(store: Store, inFlight: map<nat, InFlight>, log: seq<Event>)

  datatype Step =
    | Create(id: Id, token: string, terms: Terms)
    | Edit(id: Id, terms: Terms)
    | Rotate(id: Id, token: string)
    | Delete(id: Id)
    | Read(n: nat, id: Id, token: string, now: int)
    | Claim(n: nat, fingerprint: string, callback: string, now: int, picks: Picks)
    | Drop(n: nat)
    | Clear(run: Id)

  // ----- what the log says -----

  function TokenOf(log: seq<Event>, id: Id): Option<string> {
    if log == [] then None
    else match log[|log| - 1]
      case Created(i, t, _) => if i == id then Some(t) else TokenOf(log[..|log| - 1], id)
      case Rotated(i, t) => if i == id then Some(t) else TokenOf(log[..|log| - 1], id)
      case Deleted(i) => if i == id then None else TokenOf(log[..|log| - 1], id)
      case _ => TokenOf(log[..|log| - 1], id)
  }

  function TermsOf(log: seq<Event>, id: Id): Option<Terms> {
    if log == [] then None
    else match log[|log| - 1]
      case Created(i, _, t) => if i == id then Some(t) else TermsOf(log[..|log| - 1], id)
      case Edited(i, t) => if i == id then Some(t) else TermsOf(log[..|log| - 1], id)
      case Deleted(i) => if i == id then None else TermsOf(log[..|log| - 1], id)
      case _ => TermsOf(log[..|log| - 1], id)
  }

  /** The answers served since the token was last made. */
  function ServedSince(log: seq<Event>, id: Id): nat {
    if log == [] then 0
    else match log[|log| - 1]
      case Created(i, _, _) => if i == id then 0 else ServedSince(log[..|log| - 1], id)
      case Rotated(i, _) => if i == id then 0 else ServedSince(log[..|log| - 1], id)
      case Deleted(i) => if i == id then 0 else ServedSince(log[..|log| - 1], id)
      case Served(i, _, _, _, _, _, _) => ServedSince(log[..|log| - 1], id) + if i == id then 1 else 0
      case Edited(_, _) => ServedSince(log[..|log| - 1], id)
  }

  /** The larger of two limits, None being without one. */
  function Larger(a: Option<nat>, b: Option<nat>): Option<nat> {
    if a.None? || b.None? then None else if a.value < b.value then b else a
  }

  function Limit(terms: Terms): Option<nat> {
    if terms.max == 0 then None else Some(terms.max)
  }

  /** The largest limit in force since the token was last made. */
  function Peak(log: seq<Event>, id: Id): Option<nat> {
    if log == [] then Some(0)
    else
      var before := log[..|log| - 1];
      match log[|log| - 1]
      case Created(i, _, t) => if i == id then Limit(t) else Peak(before, id)
      case Rotated(i, _) => if i == id && TermsOf(before, id).Some? then Limit(TermsOf(before, id).value) else Peak(before, id)
      case Edited(i, t) => if i == id then Larger(Peak(before, id), Limit(t)) else Peak(before, id)
      case _ => Peak(before, id)
  }

  /** The last answer a run was written for. */
  function LastServe(log: seq<Event>, run: Id): Option<Event> {
    if log == [] then None
    else if log[|log| - 1].Served? && log[|log| - 1].run == run then Some(log[|log| - 1])
    else LastServe(log[..|log| - 1], run)
  }

  /** A fetch may take an answer: its token is the current one, and the terms in force let it. */
  predicate Allowed(log: seq<Event>, id: Id, token: string, now: int) {
    var terms := TermsOf(log, id);
    && TokenOf(log, id) == Some(token)
    && terms.Some? && terms.value.enabled && !Expired(terms.value, now)
    && (terms.value.max == 0 || ServedSince(log, id) < terms.value.max)
  }

  /** What a fetch read: the token and the answer in force then. */
  predicate WasRead(log: seq<Event>, f: Fetch, read: nat) {
    && read <= |log|
    && TokenOf(log[..read], f.profile) == Some(f.token)
    && TermsOf(log[..read], f.profile).Some? && TermsOf(log[..read], f.profile).value.answer == f.answer
  }

  // ----- steps -----

  predicate Issued(log: seq<Event>, token: string) {
    exists i :: 0 <= i < |log| && (log[i].Created? || log[i].Rotated?) && log[i].token == token
  }

  predicate Called(log: seq<Event>, callback: string) {
    exists i :: 0 <= i < |log| && log[i].Served? && log[i].callback == callback
  }

  /** New ids and new tokens are new, and the database answers its queries. */
  predicate Possible(w: World, step: Step) {
    match step
    case Create(id, token, _) => id !in w.store.profiles && !Issued(w.log, token)
    case Rotate(_, token) => !Issued(w.log, token)
    case Read(n, id, token, _) => n !in w.inFlight && HasToken(w.store, id, token)
    case Claim(n, fingerprint, callback, now, picks) =>
      n in w.inFlight && !Called(w.log, callback)
      && Answers(w.store, w.inFlight[n].fetch, fingerprint, callback, now, picks)
    case _ => true
  }

  function Logged(w: World, store: Store, e: Event): World {
    w.(store := store, log := w.log + [e])
  }

  function Next(w: World, step: Step): World
    requires Possible(w, step)
  {
    match step
    case Create(id, token, terms) => Logged(w, CreatedIn(w.store, id, token, terms), Created(id, token, terms))
    case Edit(id, terms) => if id !in w.store.profiles then w else Logged(w, EditedIn(w.store, id, terms), Edited(id, terms))
    case Rotate(id, token) => if id !in w.store.profiles then w else Logged(w, RotatedIn(w.store, id, token), Rotated(id, token))
    case Delete(id) => if id !in w.store.profiles then w else Logged(w, DeletedFrom(w.store, id), Deleted(id))
    case Read(n, id, token, now) =>
      var p := w.store.profiles[id];
      if Usable(p, now) then w.(inFlight := w.inFlight[n := InFlight(Fetch(id, token, p.terms.answer), |w.log|)]) else w
    case Claim(n, fingerprint, callback, now, picks) =>
      var x := w.inFlight[n];
      var over := w.(inFlight := w.inFlight - {n});
      if !Claims(w.store, x.fetch, now) then over
      else
        Logged(over, Claimed(w.store, x.fetch, fingerprint, callback, now, picks),
               Served(x.fetch.profile, x.fetch, now, WithRun(w.store.runs, x.fetch, fingerprint, callback, now, picks).0,
                      fingerprint, callback, x.read))
    case Drop(n) => w.(inFlight := w.inFlight - {n})
    case Clear(run) => w.(store := w.store.(runs := w.store.runs - {run}))
  }

  const START: World := World(Store(map[], map[]), map[], [])

  predicate RunPossible(w: World, steps: seq<Step>)
    decreases |steps|
  {
    steps != [] ==> Possible(w, steps[0]) && RunPossible(Next(w, steps[0]), steps[1..])
  }

  function After(w: World, steps: seq<Step>): World
    requires RunPossible(w, steps)
    decreases |steps|
  {
    if steps == [] then w else After(Next(w, steps[0]), steps[1..])
  }

  // ----- the invariant -----

  /** The row of a profile is what the log says. */
  predicate RowIs(p: Option<Profile>, log: seq<Event>, id: Id) {
    && p.Some? == TokenOf(log, id).Some? == TermsOf(log, id).Some?
    && (p.Some? ==>
          && p.value == Profile(TokenOf(log, id).value, TermsOf(log, id).value, ServedSince(log, id))
          && Larger(Peak(log, id), Limit(p.value.terms)) == Peak(log, id)
          && (Peak(log, id).Some? ==> p.value.uses <= Peak(log, id).value))
  }

  function Row(s: Store, id: Id): Option<Profile> {
    if id in s.profiles then Some(s.profiles[id]) else None
  }

  ghost predicate RowsAre(w: World) {
    forall id :: RowIs(Row(w.store, id), w.log, id)
  }

  /** Every answer served was allowed when it was, and is what its fetch had read. */
  predicate ServedRightly(log: seq<Event>, j: nat)
    requires j < |log| && log[j].Served?
  {
    && Allowed(log[..j], log[j].id, log[j].fetch.token, log[j].at)
    && log[j].fetch.profile == log[j].id
    && log[j].read <= j && WasRead(log[..j], log[j].fetch, log[j].read)
  }

  predicate AllServedRightly(log: seq<Event>) {
    forall j :: 0 <= j < |log| && log[j].Served? ==> ServedRightly(log, j)
  }

  predicate CallbacksDiffer(log: seq<Event>) {
    forall i, j :: 0 <= i < j < |log| && log[i].Served? && log[j].Served? ==> log[i].callback != log[j].callback
  }

  /** A run says what the last answer served for it said. */
  predicate RunIs(run: Run, last: Option<Event>) {
    last.Some? && last.value.Served? && run == Run(last.value.id, last.value.fingerprint, last.value.callback, last.value.at)
  }

  /** A machine that can be known again has one run of a profile. */
  predicate OnePerMachine(runs: map<Id, Run>) {
    forall a, b :: a in runs && b in runs && a != b && runs[a].fingerprint != "" ==>
      runs[a].profile != runs[b].profile || runs[a].fingerprint != runs[b].fingerprint
  }

  predicate RunsAre(w: World) {
    && (forall r :: r in w.store.runs ==> RunIs(w.store.runs[r], LastServe(w.log, r)) && w.store.runs[r].profile in w.store.profiles)
    && OnePerMachine(w.store.runs)
  }

  ghost predicate RunsAreFew(w: World) {
    forall id :: |RunsOf(w.store.runs, id)| <= RUNS_KEPT
  }

  predicate FetchesAre(w: World) {
    forall n :: n in w.inFlight ==> WasRead(w.log, w.inFlight[n].fetch, w.inFlight[n].read)
  }

  ghost predicate Inv(w: World) {
    RowsAre(w) && AllServedRightly(w.log) && CallbacksDiffer(w.log) && RunsAre(w) && RunsAreFew(w) && FetchesAre(w)
  }

  // ----- a longer log -----

  lemma LogGrows(log: seq<Event>, e: Event, id: Id)
    ensures TokenOf(log + [e], id) ==
            if (e.Created? || e.Rotated?) && e.id == id then Some(e.token)
            else if e.Deleted? && e.id == id then None else TokenOf(log, id)
    ensures TermsOf(log + [e], id) ==
            if (e.Created? || e.Edited?) && e.id == id then Some(e.terms)
            else if e.Deleted? && e.id == id then None else TermsOf(log, id)
    ensures ServedSince(log + [e], id) ==
            if (e.Created? || e.Rotated? || e.Deleted?) && e.id == id then 0
            else ServedSince(log, id) + if e.Served? && e.id == id then 1 else 0
    ensures Peak(log + [e], id) ==
            if e.Created? && e.id == id then Limit(e.terms)
            else if e.Rotated? && e.id == id && TermsOf(log, id).Some? then Limit(TermsOf(log, id).value)
            else if e.Edited? && e.id == id then Larger(Peak(log, id), Limit(e.terms)) else Peak(log, id)
  {
    assert (log + [e])[..|log|] == log && (log + [e])[|log|] == e;
  }

  lemma LastServeGrows(log: seq<Event>, e: Event, run: Id)
    ensures LastServe(log + [e], run) == if e.Served? && e.run == run then Some(e) else LastServe(log, run)
  {
    assert (log + [e])[..|log|] == log && (log + [e])[|log|] == e;
  }

  lemma PrefixStays(log: seq<Event>, e: Event, read: nat)
    requires read <= |log|
    ensures (log + [e])[..read] == log[..read]
  {
  }

  lemma ReadsStay(log: seq<Event>, e: Event, f: Fetch, read: nat)
    requires WasRead(log, f, read)
    ensures WasRead(log + [e], f, read)
  {
    PrefixStays(log, e, read);
  }

  lemma ServesStay(log: seq<Event>, e: Event)
    requires AllServedRightly(log)
    requires e.Served? ==> Allowed(log, e.id, e.fetch.token, e.at) && e.fetch.profile == e.id && WasRead(log, e.fetch, e.read)
    ensures AllServedRightly(log + [e])
  {
    hide Allowed, TokenOf, TermsOf;
    var more := log + [e];
    forall j | 0 <= j < |more| && more[j].Served? ensures ServedRightly(more, j) {
      PrefixStays(log, e, j);
      if j < |log| {
        assert more[j] == log[j];
        assert ServedRightly(log, j);
      } else {
        assert more[..j] == log;
      }
    }
  }

  lemma FetchesStay(w: World, e: Event)
    requires FetchesAre(w)
    ensures FetchesAre(w.(log := w.log + [e]))
  {
    hide WasRead;
    forall n | n in w.inFlight ensures WasRead(w.log + [e], w.inFlight[n].fetch, w.inFlight[n].read) {
      ReadsStay(w.log, e, w.inFlight[n].fetch, w.inFlight[n].read);
    }
  }

  // ----- every step keeps the invariant -----

  lemma ProfileRowsStay(w: World, step: Step)
    requires RowsAre(w) && Possible(w, step) && (step.Create? || step.Edit? || step.Rotate? || step.Delete?)
    ensures RowsAre(Next(w, step))
  {
    hide TokenOf, TermsOf, ServedSince, Peak, Issued;
    var after := Next(w, step);
    if after.log != w.log {
      var e := after.log[|w.log|];
      forall id ensures RowIs(Row(after.store, id), after.log, id) {
        LogGrows(w.log, e, id);
        assert RowIs(Row(w.store, id), w.log, id);
      }
    }
  }

  lemma OtherPartsStay(w: World, step: Step)
    requires Inv(w) && Possible(w, step) && (step.Create? || step.Edit? || step.Rotate? || step.Delete?)
    ensures AllServedRightly(Next(w, step).log) && CallbacksDiffer(Next(w, step).log) && FetchesAre(Next(w, step))
  {
    hide TokenOf, TermsOf, ServedSince, Peak, Issued, Allowed, WasRead, RowsAre, RunsAre, RunsAreFew, ServedRightly;
    var after := Next(w, step);
    if after.log != w.log {
      var e := after.log[|w.log|];
      ServesStay(w.log, e);
      FetchesStay(w, e);
    }
  }

  lemma RunsStay(w: World, step: Step)
    requires RunsAre(w) && RunsAreFew(w) && Possible(w, step) && (step.Create? || step.Edit? || step.Rotate? || step.Delete?)
    ensures RunsAre(Next(w, step)) && RunsAreFew(Next(w, step))
  {
    hide LastServe, Issued;
    var after := Next(w, step);
    if after.log != w.log {
      var e := after.log[|w.log|];
      forall r | r in after.store.runs ensures LastServe(after.log, r) == LastServe(w.log, r) {
        LastServeGrows(w.log, e, r);
      }
      forall id ensures |RunsOf(after.store.runs, id)| <= RUNS_KEPT {
        FewerRuns(w.store.runs, after.store.runs, id);
      }
    }
  }

  lemma FewerRuns(runs: map<Id, Run>, fewer: map<Id, Run>, id: Id)
    requires forall r :: r in fewer ==> r in runs && fewer[r] == runs[r]
    ensures |RunsOf(fewer, id)| <= |RunsOf(runs, id)|
  {
    Smaller(RunsOf(fewer, id), RunsOf(runs, id));
  }

  /** A claim that is refused changes nothing but the fetch, and one that is not was allowed. */
  lemma ClaimIffAllowed(w: World, f: Fetch, now: int)
    requires RowsAre(w)
    ensures Claims(w.store, f, now) <==> Allowed(w.log, f.profile, f.token, now)
  {
    assert RowIs(Row(w.store, f.profile), w.log, f.profile);
  }

  /** The world after a claim that goes through. */
  function ClaimEvent(w: World, step: Step): Event
    requires step.Claim? && Possible(w, step)
  {
    var x := w.inFlight[step.n];
    Served(x.fetch.profile, x.fetch, step.now,
           WithRun(w.store.runs, x.fetch, step.fingerprint, step.callback, step.now, step.picks).0,
           step.fingerprint, step.callback, x.read)
  }

  lemma ClaimKeepsRows(w: World, step: Step)
    requires RowsAre(w) && step.Claim? && Possible(w, step) && Claims(w.store, w.inFlight[step.n].fetch, step.now)
    ensures RowsAre(Next(w, step))
  {
    hide TokenOf, TermsOf, ServedSince, Peak, Called, Answers, WithRun;
    var e := ClaimEvent(w, step);
    var after := Next(w, step);
    forall id ensures RowIs(Row(after.store, id), after.log, id) {
      LogGrows(w.log, e, id);
      assert RowIs(Row(w.store, id), w.log, id);
    }
  }

  lemma ClaimKeepsLog(w: World, step: Step)
    requires Inv(w) && step.Claim? && Possible(w, step) && Claims(w.store, w.inFlight[step.n].fetch, step.now)
    ensures AllServedRightly(Next(w, step).log) && CallbacksDiffer(Next(w, step).log) && FetchesAre(Next(w, step))
  {
    hide WasRead, Allowed, Claims, RowsAre, RunsAre, RunsAreFew, Answers, WithRun, ServedRightly;
    var e := ClaimEvent(w, step);
    var x := w.inFlight[step.n];
    ClaimIffAllowed(w, x.fetch, step.now);
    ServesStay(w.log, e);
    FetchesStay(w, e);
  }

  lemma StillOnePerMachine(runs: map<Id, Run>, f: Fetch, fingerprint: string, callback: string, now: int, picks: Picks)
    requires OnePerMachine(runs) && PicksExisting(runs, f.profile, fingerprint, picks.existing)
    ensures OnePerMachine(WithRun(runs, f, fingerprint, callback, now, picks).1)
  {
    var mine := SameMachine(runs, f.profile, fingerprint);
    forall r | r in runs && r !in mine ensures runs[r].profile != f.profile || runs[r].fingerprint != fingerprint {
      assert r in RunsOf(runs, f.profile) <==> runs[r].profile == f.profile;
    }
    if picks.existing.Some? {
      forall r | r in mine ensures r == picks.existing.value {
      }
    }
  }

  lemma ClaimKeepsRuns(w: World, step: Step)
    requires RunsAre(w) && step.Claim? && Possible(w, step) && Claims(w.store, w.inFlight[step.n].fetch, step.now)
    ensures RunsAre(Next(w, step))
  {
    hide LastServe, Called, Newest, Usable, OnePerMachine, PicksExisting;
    var e := ClaimEvent(w, step);
    var after := Next(w, step);
    var runs := after.store.runs;
    forall r | r in runs ensures RunIs(runs[r], LastServe(after.log, r)) && runs[r].profile in after.store.profiles {
      LastServeGrows(w.log, e, r);
    }
    StillOnePerMachine(w.store.runs, w.inFlight[step.n].fetch, step.fingerprint, step.callback, step.now, step.picks);
  }

  lemma ClaimKeepsFew(w: World, step: Step)
    requires RunsAreFew(w) && RunsAre(w) && step.Claim? && Possible(w, step) && Claims(w.store, w.inFlight[step.n].fetch, step.now)
    ensures RunsAreFew(Next(w, step))
  {
    hide LastServe, Called, Usable;
    var x := w.inFlight[step.n].fetch;
    var run := Run(x.profile, step.fingerprint, step.callback, step.now);
    var runs := Next(w, step).store.runs;
    forall id ensures |RunsOf(runs, id)| <= RUNS_KEPT {
      if step.picks.existing.Some? {
        assert RunsOf(runs, id) == RunsOf(w.store.runs, id);
      } else if id == x.profile {
        assert RunsOf(runs, id) == step.picks.kept;
      } else {
        FewerOthers(w.store.runs, runs, id);
      }
    }
  }

  lemma FewerOthers(runs: map<Id, Run>, others: map<Id, Run>, id: Id)
    requires forall r :: r in others && others[r].profile == id ==> r in runs && others[r] == runs[r]
    ensures |RunsOf(others, id)| <= |RunsOf(runs, id)|
  {
    Smaller(RunsOf(others, id), RunsOf(runs, id));
  }

  lemma StepKeeps(w: World, step: Step)
    requires Inv(w) && Possible(w, step)
    ensures Inv(Next(w, step))
  {
    hide RowIs, RunIs, WasRead, Allowed, ServedRightly, Issued, Called, Answers, WithRun, LastServe, Row;
    match step {
      case Read(n, id, token, now) => ReadKeeps(w, step);
      case Claim(n, fingerprint, callback, now, picks) =>
        if Claims(w.store, w.inFlight[n].fetch, now) {
          ClaimKeepsRows(w, step);
          ClaimKeepsLog(w, step);
          ClaimKeepsRuns(w, step);
          ClaimKeepsFew(w, step);
        } else {
          SameRows(w, Next(w, step));
        }
      case Drop(n) => SameRows(w, Next(w, step));
      case Clear(run) =>
        SameRows(w, Next(w, step));
        forall id ensures |RunsOf(Next(w, step).store.runs, id)| <= RUNS_KEPT {
          FewerRuns(w.store.runs, Next(w, step).store.runs, id);
        }
      case _ =>
        ProfileRowsStay(w, step);
        OtherPartsStay(w, step);
        RunsStay(w, step);
    }
  }

  lemma SameRows(w: World, after: World)
    requires RowsAre(w) && after.log == w.log && after.store.profiles == w.store.profiles
    ensures RowsAre(after)
  {
    hide RowIs;
    forall id ensures RowIs(Row(after.store, id), after.log, id) {
      assert RowIs(Row(w.store, id), w.log, id);
    }
  }

  lemma ReadKeeps(w: World, step: Step)
    requires Inv(w) && step.Read? && Possible(w, step)
    ensures Inv(Next(w, step))
  {
    hide RunIs, ServedRightly, LastServe, Peak, ServedSince, TokenOf, TermsOf, CallbacksDiffer;
    SameRows(w, Next(w, step));
    assert RowIs(Row(w.store, step.id), w.log, step.id);
    assert w.log[..|w.log|] == w.log;
  }

  lemma StartHolds()
    ensures Inv(START)
  {
    forall id ensures |RunsOf(START.store.runs, id)| <= RUNS_KEPT {
      assert RunsOf(START.store.runs, id) == {};
    }
  }

  lemma {:induction false} InvHolds(w: World, steps: seq<Step>)
    requires Inv(w) && RunPossible(w, steps)
    ensures Inv(After(w, steps))
    decreases |steps|
  {
    hide Inv, Possible, Next;
    if steps != [] {
      StepKeeps(w, steps[0]);
      InvHolds(Next(w, steps[0]), steps[1..]);
    }
  }

  // ----- what holds of every run -----

  /** However fetches interleave with everything else: the use counter is the number of answers
      served since the token was last made, and stays within the largest limit in force since. */
  lemma UsesAreServed(steps: seq<Step>, id: Id)
    requires RunPossible(START, steps) && id in After(START, steps).store.profiles
    ensures var w := After(START, steps);
            && w.store.profiles[id].uses == ServedSince(w.log, id)
            && (Peak(w.log, id).Some? ==> ServedSince(w.log, id) <= Peak(w.log, id).value)
  {
    StartHolds();
    InvHolds(START, steps);
    var w := After(START, steps);
    assert RowIs(Row(w.store, id), w.log, id);
  }

  /** No answer is served but to the token then current, with the profile enabled, not expired
      and below the limit then in force. */
  lemma ServedWasAllowed(steps: seq<Step>, j: nat)
    requires RunPossible(START, steps) && j < |After(START, steps).log| && After(START, steps).log[j].Served?
    ensures var log := After(START, steps).log;
            Allowed(log[..j], log[j].id, log[j].fetch.token, log[j].at) && WasRead(log[..j], log[j].fetch, log[j].read)
  {
    StartHolds();
    InvHolds(START, steps);
    assert ServedRightly(After(START, steps).log, j);
  }

  lemma {:induction false} LastServeIs(log: seq<Event>, run: Id)
    requires LastServe(log, run).Some?
    ensures exists j :: 0 <= j < |log| && log[j] == LastServe(log, run).value && log[j].Served? && log[j].run == run
                        && forall k :: j < k < |log| ==> !(log[k].Served? && log[k].run == run)
  {
    var n := |log| - 1;
    if log[n].Served? && log[n].run == run {
    } else {
      LastServeIs(log[..n], run);
      var j :| 0 <= j < n && log[..n][j] == LastServe(log[..n], run).value && log[..n][j].run == run
               && forall k :: j < k < n ==> !(log[..n][k].Served? && log[..n][k].run == run);
      forall k | j < k < |log| ensures !(log[k].Served? && log[k].run == run) {
        assert k < n ==> log[..n][k] == log[k];
      }
      assert log[j] == log[..n][j];
    }
  }

  /** The callback token stored with a run is the one in the last file served for it; those in
      earlier files find no run any more. */
  lemma CallbackIsLatest(steps: seq<Step>, run: Id)
    requires RunPossible(START, steps) && run in After(START, steps).store.runs
    ensures var w := After(START, steps);
            exists j :: 0 <= j < |w.log| && w.log[j].Served? && w.log[j].run == run
                        && w.log[j].callback == w.store.runs[run].callback && w.log[j].fingerprint == w.store.runs[run].fingerprint
                        && (forall k :: j < k < |w.log| ==> !(w.log[k].Served? && w.log[k].run == run))
                        && forall i :: 0 <= i < j && w.log[i].Served? ==> w.log[i].callback != w.store.runs[run].callback
  {
    hide RowsAre, AllServedRightly, FetchesAre, RunsAreFew, After, RunPossible, LastServe;
    StartHolds();
    InvHolds(START, steps);
    var w := After(START, steps);
    assert RunIs(w.store.runs[run], LastServe(w.log, run));
    LastServeIs(w.log, run);
  }

  /** A callback finds at most one run. */
  lemma CallbacksFindOneRun(steps: seq<Step>, a: Id, b: Id)
    requires RunPossible(START, steps)
    requires a in After(START, steps).store.runs && b in After(START, steps).store.runs
    ensures After(START, steps).store.runs[a].callback == After(START, steps).store.runs[b].callback ==> a == b
  {
    hide RowsAre, AllServedRightly, FetchesAre, RunsAreFew, After, RunPossible, LastServe, OnePerMachine;
    StartHolds();
    InvHolds(START, steps);
    var w := After(START, steps);
    assert RunIs(w.store.runs[a], LastServe(w.log, a)) && RunIs(w.store.runs[b], LastServe(w.log, b));
    LastServeIs(w.log, a);
    LastServeIs(w.log, b);
  }

  // ----- tokens that are gone -----

  /** A token that was made and is no profile's now. */
  ghost predicate Dead(log: seq<Event>, token: string) {
    Issued(log, token) && forall id :: TokenOf(log, id) != Some(token)
  }

  lemma IssuedGrows(log: seq<Event>, e: Event, token: string)
    ensures Issued(log + [e], token) <==> Issued(log, token) || ((e.Created? || e.Rotated?) && e.token == token)
  {
    var more := log + [e];
    assert more[|log|] == e && forall i :: 0 <= i < |log| ==> more[i] == log[i];
  }

  lemma DeadStays(w: World, step: Step, token: string)
    requires RowsAre(w) && Possible(w, step) && Dead(w.log, token)
    ensures Dead(Next(w, step).log, token)
    ensures var log := Next(w, step).log;
            w.log <= log && forall j :: |w.log| <= j < |log| && log[j].Served? ==> log[j].fetch.token != token
  {
    hide TokenOf, Answers, WithRun, Allowed, Usable, Issued;
    var log := Next(w, step).log;
    if log != w.log {
      var e := log[|w.log|];
      IssuedGrows(w.log, e, token);
      forall id ensures TokenOf(log, id) != Some(token) {
        LogGrows(w.log, e, id);
      }
      if step.Claim? {
        ClaimIffAllowed(w, w.inFlight[step.n].fetch, step.now);
        NotDeadIfAllowed(w.log, w.inFlight[step.n].fetch, step.now);
      }
    }
  }

  lemma NotDeadIfAllowed(log: seq<Event>, f: Fetch, now: int)
    requires Allowed(log, f.profile, f.token, now)
    ensures !Dead(log, f.token)
  {
  }

  lemma {:induction false} DeadServesNothing(w: World, steps: seq<Step>, token: string)
    requires Inv(w) && RunPossible(w, steps) && Dead(w.log, token)
    ensures var log := After(w, steps).log;
            w.log <= log && forall j :: |w.log| <= j < |log| && log[j].Served? ==> log[j].fetch.token != token
    decreases |steps|
  {
    hide Inv, Next, Possible, Dead;
    if steps != [] {
      assert RowsAre(w) by { InvRows(w); }
      DeadStays(w, steps[0], token);
      StepKeeps(w, steps[0]);
      DeadServesNothing(Next(w, steps[0]), steps[1..], token);
    }
  }

  lemma InvRows(w: World)
    requires Inv(w)
    ensures RowsAre(w)
  {
  }

  /** The tokens of profiles were made, and no two profiles have the same. */
  ghost predicate TokensAre(log: seq<Event>) {
    && (forall id :: TokenOf(log, id).Some? ==> Issued(log, TokenOf(log, id).value))
    && forall a, b :: a != b && TokenOf(log, a).Some? ==> TokenOf(log, a) != TokenOf(log, b)
  }

  lemma TokensStay(log: seq<Event>, e: Event)
    requires TokensAre(log) && (e.Created? || e.Rotated? ==> !Issued(log, e.token))
    ensures TokensAre(log + [e])
  {
    hide TokenOf, Issued;
    var more := log + [e];
    forall id ensures TokenOf(more, id).Some? ==> Issued(more, TokenOf(more, id).value) {
      LogGrows(log, e, id);
      if TokenOf(more, id).Some? {
        IssuedGrows(log, e, TokenOf(more, id).value);
      }
    }
    forall a, b | a != b && TokenOf(more, a).Some? ensures TokenOf(more, a) != TokenOf(more, b) {
      LogGrows(log, e, a);
      LogGrows(log, e, b);
    }
  }

  lemma {:induction false} TokensHold(w: World, steps: seq<Step>)
    requires TokensAre(w.log) && RunPossible(w, steps)
    ensures TokensAre(After(w, steps).log)
    decreases |steps|
  {
    hide TokensAre, Answers, WithRun, Claims, Usable, Issued;
    if steps != [] {
      var log := Next(w, steps[0]).log;
      if log != w.log {
        TokensStay(w.log, log[|w.log|]);
      }
      TokensHold(Next(w, steps[0]), steps[1..]);
    }
  }

  /** A token names one profile at most. */
  lemma TokenNamesOneProfile(steps: seq<Step>, a: Id, b: Id, token: string)
    requires RunPossible(START, steps)
    requires HasToken(After(START, steps).store, a, token) && HasToken(After(START, steps).store, b, token)
    ensures a == b
  {
    StartHolds();
    InvHolds(START, steps);
    TokensHold(START, steps);
    var w := After(START, steps);
    assert RowIs(Row(w.store, a), w.log, a) && RowIs(Row(w.store, b), w.log, b);
  }

  lemma {:induction false} StepsSplit(w: World, steps: seq<Step>, more: seq<Step>)
    requires RunPossible(w, steps) && RunPossible(After(w, steps), more)
    ensures RunPossible(w, steps + more) && After(w, steps + more) == After(After(w, steps), more)
    decreases |steps|
  {
    hide Possible, Next;
    if steps == [] {
      assert steps + more == more;
    } else {
      assert (steps + more)[1..] == steps[1..] + more && (steps + more)[0] == steps[0];
      StepsSplit(Next(w, steps[0]), steps[1..], more);
    }
  }

  /** Rotating a token revokes it for good: whatever was in flight and whatever comes after, no
      answer is served to the old token any more. */
  lemma RotationRevokes(steps: seq<Step>, id: Id, token: string, later: seq<Step>)
    requires RunPossible(START, steps) && id in After(START, steps).store.profiles
    requires Possible(After(START, steps), Rotate(id, token))
    requires RunPossible(Next(After(START, steps), Rotate(id, token)), later)
    ensures var w := After(START, steps);
            var log := After(Next(w, Rotate(id, token)), later).log;
            forall j :: |w.log| < j < |log| && log[j].Served? ==> log[j].fetch.token != w.store.profiles[id].token
  {
    hide TokenOf, Inv, Issued, RunPossible, After;
    var w := After(START, steps);
    var old' := w.store.profiles[id].token;
    var step := Rotate(id, token);
    StartHolds();
    InvHolds(START, steps);
    NoTokensYet();
    TokensHold(START, steps);
    InvRows(w);
    assert RowIs(Row(w.store, id), w.log, id);
    forall i ensures TokenOf(Next(w, step).log, i) != Some(old') {
      LogGrows(w.log, Rotated(id, token), i);
    }
    IssuedGrows(w.log, Rotated(id, token), old');
    StepKeeps(w, step);
    DeadServesNothing(Next(w, step), later, old');
  }

  lemma NoTokensYet()
    ensures TokensAre(START.log)
  {
  }

  // ----- the last use -----

  predicate Changes(step: Step) {
    step.Create? || step.Edit? || step.Rotate? || step.Delete?
  }

  /** While nobody changes profiles, any number of racing fetches take no more than the uses
      that are left. */
  lemma {:induction false} LimitIsNotOversold(w: World, steps: seq<Step>, id: Id)
    requires RunPossible(w, steps) && id in w.store.profiles
    requires forall i :: 0 <= i < |steps| ==> !Changes(steps[i])
    ensures id in After(w, steps).store.profiles
    ensures var p, q := w.store.profiles[id], After(w, steps).store.profiles[id];
            && q.token == p.token && q.terms == p.terms
            && (p.terms.max > 0 ==> q.uses <= if p.uses < p.terms.max then p.terms.max else p.uses)
            && (!p.terms.enabled ==> q.uses == p.uses)
    decreases |steps|
  {
    hide Answers, WithRun, Expired;
    if steps != [] {
      assert !Changes(steps[0]);
      assert forall i :: 0 <= i < |steps[1..]| ==> steps[1..][i] == steps[i + 1];
      LimitIsNotOversold(Next(w, steps[0]), steps[1..], id);
    }
  }

  // ----- which answer -----

  predicate Touches(e: Event, id: Id) {
    (e.Created? || e.Edited? || e.Deleted?) && e.id == id
  }

  lemma {:induction false} TermsUntouched(log: seq<Event>, id: Id, from: nat)
    requires from <= |log| && forall k :: from <= k < |log| ==> !Touches(log[k], id)
    ensures TermsOf(log, id) == TermsOf(log[..from], id)
    decreases |log|
  {
    if from == |log| {
      assert log[..from] == log;
    } else {
      var n := |log| - 1;
      assert log[..n][..from] == log[..from];
      assert forall k :: from <= k < n ==> log[..n][k] == log[k];
      TermsUntouched(log[..n], id, from);
      assert !Touches(log[n], id);
    }
  }

  /** The last event from the from-th on that touches the profile is the k-th. */
  predicate LastTouched(log: seq<Event>, id: Id, from: nat, k: nat) {
    from <= k < |log| && Touches(log[k], id) && forall m :: k < m < |log| ==> !Touches(log[m], id)
  }

  lemma {:induction false} TouchedAtAll(log: seq<Event>, id: Id, from: nat) returns (k: nat)
    requires from <= |log| && exists m :: from <= m < |log| && Touches(log[m], id)
    ensures LastTouched(log, id, from, k)
    decreases |log|
  {
    var n := |log| - 1;
    if Touches(log[n], id) {
      k := n;
    } else {
      k := TouchedAtAll(log[..n], id, from);
    }
  }

  /** The event gives the profile this answer. */
  predicate Carries(e: Event, answer: string) {
    (e.Created? || e.Edited?) && e.terms.answer == answer
  }

  lemma TermsTouched(log: seq<Event>, id: Id, k: nat)
    requires LastTouched(log, id, 0, k)
    ensures TermsOf(log, id) == if log[k].Deleted? then None else Some(log[k].terms)
  {
    TermsUntouched(log, id, k + 1);
    assert log[..k + 1][..k] == log[..k] && log[..k + 1][k] == log[k];
  }

  /** The file served is the profile's current one exactly when nothing touched the profile
      between the read and the claim, or the last event that did carries the answer read. */
  lemma AnswerIsCurrentIff(steps: seq<Step>, j: nat)
    requires RunPossible(START, steps)
    requires j < |After(START, steps).log| && After(START, steps).log[j].Served?
    ensures var log := After(START, steps).log;
            var e := log[j];
            var now := TermsOf(log[..j], e.id);
            && now.Some? && e.read <= j
            && (now.value.answer == e.fetch.answer <==>
                  || (forall k :: e.read <= k < j ==> !Touches(log[k], e.id))
                  || (exists k: nat :: LastTouched(log[..j], e.id, e.read, k) && Carries(log[k], e.fetch.answer)))
  {
    hide TermsOf, TokenOf, After, RunPossible;
    ServedWasAllowed(steps, j);
    StartHolds();
    InvHolds(START, steps);
    var log := After(START, steps).log;
    assert ServedRightly(log, j);
    var e, before := log[j], log[..j];
    assert forall k :: 0 <= k < j ==> before[k] == log[k];
    if forall k :: e.read <= k < j ==> !Touches(log[k], e.id) {
      TermsUntouched(before, e.id, e.read);
    } else {
      var k := TouchedAtAll(before, e.id, e.read);
      TermsTouched(before, e.id, k);
    }
  }

  lemma FirstStep(w: World, step: Step, rest: seq<Step>)
    requires Possible(w, step) && RunPossible(Next(w, step), rest)
    ensures RunPossible(w, [step] + rest) && After(w, [step] + rest) == After(Next(w, step), rest)
  {
    hide Possible, Next;
    assert ([step] + rest)[1..] == rest;
  }

  lemma NoStep(w: World)
    ensures RunPossible(w, []) && After(w, []) == w
  {
  }

  /** A claim after an edit, with the token as it was: it goes by the new terms, and the file it
      serves is the one that was read. */
  lemma ClaimAfterEdit(w: World, n: nat, terms: Terms, fingerprint: string, callback: string, now: int, picks: Picks)
    requires n in w.inFlight && Possible(w, Claim(n, fingerprint, callback, now, picks))
    requires HasToken(w.store, w.inFlight[n].fetch.profile, w.inFlight[n].fetch.token)
    ensures var id := w.inFlight[n].fetch.profile;
            var edited := Next(w, Edit(id, terms));
            Possible(edited, Claim(n, fingerprint, callback, now, picks))
            && var after := Next(edited, Claim(n, fingerprint, callback, now, picks));
               && id in after.store.profiles && after.store.profiles[id].terms == terms
               && if Usable(w.store.profiles[id].(terms := terms), now) then
                    && |after.log| == |edited.log| + 1 && after.log[|edited.log|].Served?
                    && after.log[|edited.log|].id == id && after.log[|edited.log|].fetch == w.inFlight[n].fetch
                  else after.log == edited.log && after.store == edited.store
  {
    hide Newest, SameMachine, WithRun;
    var log, e := w.log, Edited(w.inFlight[n].fetch.profile, terms);
    assert forall i :: 0 <= i < |log| ==> (log + [e])[i] == log[i];
  }

  /** When it was, the file served can be the one from before the edit: the claim guards the
      token and the limits, not the text. */
  lemma EditedAnswerIsStale()
    ensures exists steps :: RunPossible(START, steps)
                            && var w := After(START, steps);
                               w.log != [] && w.log[|w.log| - 1].Served?
                               && "p" in w.store.profiles && w.store.profiles["p"].terms.answer != w.log[|w.log| - 1].fetch.answer
  {
    hide RunPossible, After, SameMachine;
    var old', new' := Terms(true, 0, None, "old"), Terms(true, 0, None, "new");
    var picks := Picks(None, "r", {"r"});
    var create, read, edit, claim := Create("p", "t", old'), Read(0, "p", "t", 0), Edit("p", new'), Claim(0, "", "c", 0, picks);
    var w1 := Next(START, create);
    var w2 := Next(w1, read);
    assert w2.inFlight[0].fetch == Fetch("p", "t", "old");
    assert Possible(w2, claim) by {
      var runs := w2.store.runs["r" := Run("p", "", "c", 0)];
      assert RunsOf(runs, "p") == {"r"};
    }
    ClaimAfterEdit(w2, 0, new', "", "c", 0, picks);
    var w3 := Next(w2, edit);
    var w4 := Next(w3, claim);
    hide Possible, Next;
    NoStep(w4);
    FirstStep(w3, claim, []);
    FirstStep(w2, edit, [claim] + []);
    FirstStep(w1, read, [edit] + ([claim] + []));
    FirstStep(START, create, [read] + ([edit] + ([claim] + [])));
  }
}
