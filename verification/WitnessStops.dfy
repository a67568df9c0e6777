/**
 A start that answered and was stopped after that counts for nothing: the next one repeats it.
 */
module WitnessStops {
  import opened Wrappers
  import opened WitnessBoot
  import opened WitnessRuns
  import opened WitnessSettles

  predicate StartsOnTrial(base: Option<Installed>, d: Disk) {
    var r := Choose(base, d, true, true);
    r.Runs? && r.trial
  }

  /** The pass with which a start puts a tree on trial, made from the file as it is read back;
      h: what that says. */
  lemma TrialPass(base: Option<Installed>, was: Disk) returns (d: Disk, h: Health)
    requires CountsStarts(was.health.trial) && StartsOnTrial(base, was)
    ensures var r := Choose(base, was, true, true); var s := OnePass(base, d, h, true, true);
            && s.Ends? && s.chosen.Runs? && s.chosen.trial && s.chosen.path == r.path && r.why == StartsTrial
            && 0 <= Tried(h.trial, r.path) < TRIES
            && var t := Trial(r.path, Count(Tried(h.trial, r.path) + 1), false, false);
               r.disk == d.(health := r.disk.health) && r.disk.health.trial == t && Load(r.disk.health) == h.(trial := t)
  {
    hide OnePass, Choose;
    ChooseIs(base, was, true, true);
    LoadIsShort(was.health);
    d, h := was, Load(was.health);
    var r := OnePass(base, d, h, true, true);
    if r.Again? {
      MarkingWrites(base, was);
      SecondTrial(base, was);
      TrialsAreStarted(base, r.disk, r.health);
      LoadIsShort(r.health);
      d, h := r.disk, Load(r.health);
    } else {
      FirstPassTrial(base, was);
      TrialsAreStarted(base, d, h);
    }
  }

  lemma TrialsAreStarted(base: Option<Installed>, d: Disk, h: Health)
    requires var r := OnePass(base, d, h, true, true); r.Ends? && r.chosen.Runs? && r.chosen.trial
    ensures OnePass(base, d, h, true, true).chosen.why == StartsTrial
  {
    hide Best, Tried;
  }

  lemma TriedStopped(p: Path, n: int)
    requires n > 0
    ensures Tried(Trial(p, Count(n), true, true), p) == n - 1
  {
  }

  /** What the two marks write. */
  lemma StoppedIs(d: Disk, p: Path, n: int)
    requires d.health.trial == Trial(p, Count(n), false, false)
    ensures var stopped := MarkedStopped(MarkedUp(d, p), p); var t := Trial(p, Count(n), true, true);
            stopped == d.(health := Load(d.health).(trial := t)) && Load(stopped.health) == stopped.health
  {
  }

  /** The start after one that answered and was stopped then does what that one did, for every
      base and disk; of the lists in health.json it leaves what a reader would have got. */
  lemma StoppedStartRepeats(base: Option<Installed>, was: Disk)
    requires CountsStarts(was.health.trial) && StartsOnTrial(base, was)
    ensures var r := Choose(base, was, true, true);
            var stopped := MarkedStopped(MarkedUp(r.disk, r.path), r.path);
            && Choose(base, stopped, true, true) == r.(disk := r.disk.(health := Load(r.disk.health)))
            && OnePass(base, stopped, Load(stopped.health), true, true).Ends?
  {
    hide OnePass, Choose, Tried, MarkedUp, MarkedStopped, Load;
    var d, h := TrialPass(base, was);
    var r := Choose(base, was, true, true);
    var n := Tried(h.trial, r.path) + 1;
    var t := Trial(r.path, Count(n), true, true);
    StoppedIs(r.disk, r.path, n);
    var stopped := MarkedStopped(MarkedUp(r.disk, r.path), r.path);
    assert stopped == d.(health := h.(trial := t));
    TriedStopped(r.path, n);
    TrialGoesOn(base, d, h, t, stopped.health);
    ChooseIs(base, stopped, true, true);
  }

  /** A start that answered and was stopped after that never was: the next start leaves the
      disk it left, with the lists of health.json as they are read back, and counts the failed
      starts there were before it. */
  lemma CleanStopIsInvisible(w: World)
    requires Inv(w) && StartsOnTrial(Some(w.base), w.disk)
    ensures var once := Started(w);
            var stopped := Next(Next(once, Answers), IsStopped);
            && Started(stopped).disk == once.disk.(health := Load(once.disk.health))
            && Started(stopped).run == once.run
            && MarkedNow(stopped.base, stopped.disk).None?
            && forall p :: FailedStarts(stopped.log, p) == FailedStarts(Carried(w), p)
  {
    hide OnePass, Choose, FailedStarts, MarkedUp, MarkedStopped, LinksGood, SomethingUsable, Load;
    StoppedStartRepeats(Some(w.base), w.disk);
    var once := Started(w);
    var kept := Carried(w);
    var path := once.run.value.path;
    var stopped := Next(Next(once, Answers), IsStopped);
    var begun, ended := Record(path, false, false, false), Record(path, true, true, false);
    assert once.log == kept + [begun];
    assert stopped.log == kept + [ended];
    forall p ensures FailedStarts(stopped.log, p) == FailedStarts(kept, p) {
      CountAppends(kept, ended, p);
    }
  }
}
