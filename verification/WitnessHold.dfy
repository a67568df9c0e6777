/**
 An update to the leader's release (witness.py, update --to-leader): held by its version, it is
 preferred to every base until another update or its own mark.
 */
module WitnessHold {
  import opened Wrappers
  import opened Release
  import opened WitnessBoot
  import opened WitnessRuns
  import opened WitnessUpdates

  /** What current names is code of version v, held and not marked bad. */
  predicate Holds(d: Disk, v: Version) {
    && d.current.Some? && CodeAt(d, d.current.value) == Some(v) && !IsBad(d, Update(d.current.value))
    && d.health.down == Some(v)
  }

  lemma HeldIsBest(base: Option<Installed>, d: Disk, v: Version)
    requires Holds(d, v)
    ensures var usable := Usable(Candidates(base, d), Load(d.health).bad);
            && usable != [] && Best(Load(d.health), usable).path == Update(d.current.value)
            && (|usable| > 1 <==> base.Some? && !IsBad(d, Base(base.value.at)))
  {
    hide ReleaseKey, Less, Highest, Last;
    var h := Load(d.health);
    var mine := Candidate(Update(d.current.value), v);
    if base.Some? {
      var b := Candidate(Base(base.value.at), base.value.version);
      assert Candidates(base, d) == [b, mine];
      assert [b, mine][1..] == [mine] && [mine][1..] == [];
      assert Usable([b, mine], h.bad) == if IsBad(d, b.path) then [mine] else [b, mine];
      assert HeldDown(h, [mine]) == Some(mine) && HeldDown(h, [b, mine]) == Some(mine);
    } else {
      assert Candidates(base, d) == [mine] && [mine][1..] == [];
    }
  }

  /** Held code starts, however new the base is, unless its tries are spent and there is something
      to go back to. */
  lemma HeldStarts(base: Option<Installed>, d: Disk, v: Version)
    requires Holds(d, v)
    ensures var r := Choose(base, d, true, true);
            (r.Runs? && r.path == Update(d.current.value)) <==> !TrialSpent(base, d)
  {
    hide Best, Tried, Choose, Usable, Candidates;
    HeldIsBest(base, d, v);
    ChooseIs(base, d, true, true);
    var h := Load(d.health);
    var r := OnePass(base, d, h, true, true);
    if r.Again? {
      GoneFromCurrent(base, d, h);
      OnlyCandidatesStart(base, r.disk, r.health);
    }
  }

  /** An update to the leader's release is held and starts next, over any base and whatever its
      release, but for the two exceptions of every update. */
  lemma LeadersUpdateStarts(base: Option<Installed>, d: Disk, b: Bundle, retry: bool, mine: Version, now: int)
    requires FitName(b) && Genuine(d, b)
    requires TakeUpdate(d, b, retry, true, mine, now).Took?
    ensures var d' := TakeUpdate(d, b, retry, true, mine, now).disk;
            var r := Choose(base, d', true, true);
            && d'.current == Some(NameOf(b))
            && (Holds(d', b.version) <==> !PrunesItself(d, b, now))
            && ((r.Runs? && r.path == Update(NameOf(b))) <==> !TrialSpent(base, d') && !PrunesItself(d, b, now))
  {
    hide TakeUpdate, Choose, ReleaseKey, Tried, Previous, PrunesItself, FitName, Genuine;
    var d' := TakeUpdate(d, b, retry, true, mine, now).disk;
    UpdateWrites(d, b, retry, true, mine, now);
    if PrunesItself(d, b, now) {
      NoCodeNoStart(base, d');
    } else {
      HeldStarts(base, d', b.version);
    }
  }

  // ----- until another update -----

  /** A start marks the held code bad. */
  predicate MarksHeld(w: World, step: Step) {
    step.Start? && w.disk.current.Some? && MarkedNow(w.base, w.disk) == Some(Update(w.disk.current.value))
  }

  lemma StartHolds(w: World, v: Version)
    requires Holds(w.disk, v) && !MarksHeld(w, Start)
    ensures Holds(Started(w).disk, v) && Started(w).disk.current == w.disk.current
  {
    hide Best, Tried, Choose, Usable, Candidates;
    HeldIsBest(Some(w.base), w.disk, v);
    ChooseIs(Some(w.base), w.disk, true, true);
  }

  lemma StepHolds(w: World, step: Step, v: Version)
    requires Holds(w.disk, v) && !step.Updates? && !MarksHeld(w, step)
    ensures Holds(Next(w, step).disk, v) && Next(w, step).disk.current == w.disk.current
  {
    hide Started, MarksHeld;
    if step.Start? {
      StartHolds(w, v);
    }
  }

  /** Over any run without another update, through any bases and any starts, the hold lasts until
      a start marks that very code: it is what every start in between runs. */
  lemma {:induction false} HoldLasts(w: World, steps: seq<Step>, v: Version)
    requires Holds(w.disk, v)
    requires forall i :: 0 <= i < |steps| ==> !steps[i].Updates?
    ensures || (exists i :: 0 <= i < |steps| && MarksHeld(After(w, steps[..i]), steps[i]))
            || (Holds(After(w, steps).disk, v) && After(w, steps).disk.current == w.disk.current)
    decreases |steps|
  {
    hide Next, MarksHeld, Holds;
    if steps != [] && !MarksHeld(w, steps[0]) {
      var rest := steps[1..];
      StepHolds(w, steps[0], v);
      assert forall i :: 0 <= i < |rest| ==> rest[i] == steps[i + 1];
      HoldLasts(Next(w, steps[0]), rest, v);
      if i :| 0 <= i < |rest| && MarksHeld(After(Next(w, steps[0]), rest[..i]), rest[i]) {
        assert steps[..i + 1][0] == steps[0] && steps[..i + 1][1..] == rest[..i];
        assert MarksHeld(After(w, steps[..i + 1]), steps[i + 1]);
      }
    } else if steps != [] {
      assert After(w, steps[..0]) == w;
    }
  }
}
