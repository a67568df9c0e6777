/**
 What a fetch may read and take, by what happened before it, and which runs a step does away
 with.
 */
module ServeSteps {
  import opened Wrappers
  import opened ServeAnswer
  import opened ServeRuns

  /** The terms in force let a fetch through: enabled, not expired, and with an answer left. */
  predicate LetsThrough(terms: Terms, served: nat, now: int) {
    && terms.enabled
    && (terms.expires.Some? ==> now < terms.expires.value)
    && (terms.max != 0 ==> served < terms.max)
  }

  /** In every run a fetch reads its profile exactly when the terms in force then, and the answers
      served under the token since it was made, let it through; it takes down the answer in force. */
  lemma ReadIff(steps: seq<Step>, n: nat, id: Id, token: string, now: int)
    requires RunPossible(START, steps) && Possible(After(START, steps), Read(n, id, token, now))
    ensures var w := After(START, steps); var w' := Next(w, Read(n, id, token, now));
            && TermsOf(w.log, id).Some? && TokenOf(w.log, id) == Some(token)
            && var terms := TermsOf(w.log, id).value;
               && (n in w'.inFlight <==> LetsThrough(terms, ServedSince(w.log, id), now))
               && (n in w'.inFlight ==> w'.inFlight[n].fetch == Fetch(id, token, terms.answer))
               && w'.store == w.store && w'.log == w.log
               && w'.inFlight - {n} == w.inFlight
  {
    hide TermsOf, TokenOf, ServedSince, RunPossible, After;
    StartHolds();
    InvHolds(START, steps);
    var w := After(START, steps);
    assert RowIs(Row(w.store, id), w.log, id);
    assert w.inFlight - {n} == w.inFlight;
  }

  /** And its claim goes through exactly when its token is the one in force, and the terms and the
      answers served let it; then one more answer is served of that profile, and no other profile
      changes. */
  lemma ClaimIff(steps: seq<Step>, n: nat, fingerprint: string, callback: string, now: int, picks: Picks)
    requires RunPossible(START, steps) && Possible(After(START, steps), Claim(n, fingerprint, callback, now, picks))
    ensures var w := After(START, steps); var w' := Next(w, Claim(n, fingerprint, callback, now, picks));
            var f := w.inFlight[n].fetch;
            && (|w'.log| > |w.log| <==>
                  TokenOf(w.log, f.profile) == Some(f.token) && TermsOf(w.log, f.profile).Some?
                  && LetsThrough(TermsOf(w.log, f.profile).value, ServedSince(w.log, f.profile), now))
            && (|w'.log| <= |w.log| ==> w'.store == w.store)
            && (|w'.log| > |w.log| ==>
                  && w'.store.profiles.Keys == w.store.profiles.Keys && f.profile in w.store.profiles
                  && w'.store.profiles[f.profile] == w.store.profiles[f.profile].(uses := w.store.profiles[f.profile].uses + 1)
                  && forall id :: id in w.store.profiles && id != f.profile ==> w'.store.profiles[id] == w.store.profiles[id])
            && w'.inFlight == w.inFlight - {n}
  {
    hide TermsOf, TokenOf, ServedSince, RunPossible, After, WithRun, Answers, Called;
    StartHolds();
    InvHolds(START, steps);
    var w := After(START, steps);
    assert RowIs(Row(w.store, w.inFlight[n].fetch.profile), w.log, w.inFlight[n].fetch.profile);
  }

  // ----- the runs -----

  /** The claim of this step goes through and begins a run for a machine that had none. */
  predicate BeginsRun(w: World, step: Step)
    requires Possible(w, step)
  {
    step.Claim? && Claims(w.store, w.inFlight[step.n].fetch, step.now) && step.picks.existing.None?
  }

  /** A run is gone after a step exactly when an administrator cleared it, its profile was deleted, or
      a run of its profile was begun with as many kept already, and it is none of the latest. */
  lemma RunIsGoneIff(w: World, step: Step, r: Id)
    requires Possible(w, step) && r in w.store.runs
    ensures r !in Next(w, step).store.runs <==>
              || step == Clear(r)
              || (step.Delete? && step.id in w.store.profiles && w.store.runs[r].profile == step.id)
              || (BeginsRun(w, step) && w.store.runs[r].profile == w.inFlight[step.n].fetch.profile && r !in step.picks.kept)
    ensures BeginsRun(w, step) && |RunsOf(w.store.runs, w.inFlight[step.n].fetch.profile)| < 1000 ==> r in Next(w, step).store.runs
    ensures BeginsRun(w, step) && r !in Next(w, step).store.runs ==>
              |step.picks.kept| == 1000 && forall a :: a in step.picks.kept && a in w.store.runs ==> w.store.runs[r].started <= w.store.runs[a].started
  {
    if BeginsRun(w, step) {
      PrunedRuns(w.store, w.inFlight[step.n].fetch, step.fingerprint, step.callback, step.now, step.picks, r);
    }
  }

  lemma PrunedRuns(s: Store, f: Fetch, fingerprint: string, callback: string, now: int, picks: Picks, r: Id)
    requires Answers(s, f, fingerprint, callback, now, picks) && picks.existing.None? && r in s.runs
    ensures var runs := WithRun(s.runs, f, fingerprint, callback, now, picks).1;
            && (r !in runs <==> s.runs[r].profile == f.profile && r !in picks.kept)
            && (|RunsOf(s.runs, f.profile)| < 1000 ==> r in runs)
            && (r !in runs ==> |picks.kept| == 1000
                               && forall a :: a in picks.kept && a in s.runs ==> s.runs[r].started <= s.runs[a].started)
  {
    var more := s.runs[picks.newId := Run(f.profile, fingerprint, callback, now)];
    var ids := RunsOf(more, f.profile);
    assert ids == RunsOf(s.runs, f.profile) + {picks.newId};
    if |ids| <= 1000 {
      if x :| x in ids - picks.kept {
        Smaller(picks.kept, ids - {x});
      }
      assert ids <= picks.kept;
    }
    assert r in ids <==> s.runs[r].profile == f.profile;
  }

  /** What is left of the others: no step changes a run but the claim that takes it for its machine. */
  lemma RunIsChangedIff(w: World, step: Step, r: Id)
    requires Possible(w, step) && r in w.store.runs && r in Next(w, step).store.runs
    ensures Next(w, step).store.runs[r] == w.store.runs[r]
         || (step.Claim? && Claims(w.store, w.inFlight[step.n].fetch, step.now) && step.picks.existing == Some(r))
  {
    hide TermsOf, TokenOf, Called;
  }
}
