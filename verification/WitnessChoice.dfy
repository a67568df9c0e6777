/**
 What single starts and commands make of a trial: one that ends well, one that never answers, one
 that cannot be counted, and the code a command next to the service runs.
 */
module WitnessChoice {
  import opened Wrappers
  import opened Release
  import opened WitnessBoot
  import opened WitnessRuns

  // ----- a trial that ends well -----

  /** The candidates of a start, as the health file and the links are. */
  lemma SameCandidates(base: Option<Installed>, d: Disk, e: Disk)
    requires e.files == d.files && e.current == d.current && e.previous == d.previous
    ensures Candidates(base, e) == Candidates(base, d)
    ensures forall bad :: Previous(e, bad) == Previous(d, bad)
  {
  }

  /** A pass that puts a tree on trial: with that tree healthy, the same pass settles for it. */
  lemma HealthyPass(base: Option<Installed>, d: Disk, h: Health, e: Disk, g: Health)
    requires var r := OnePass(base, d, h, true, true); r.Ends? && r.chosen.Runs? && r.chosen.trial
    requires e.files == d.files && e.current == d.current && e.previous == d.previous
    requires g.bad == h.bad && g.same == h.same && g.down == h.down && OnePass(base, d, h, true, true).chosen.path in g.ok
    ensures OnePass(base, e, g, true, true) == Ends(Runs(OnePass(base, d, h, true, true).chosen.path, false, Settled, e))
  {
    SameCandidates(base, d, e);
    var usable := Usable(Candidates(base, d), h.bad);
    if usable != [] {
      SameBest(h, g, usable);
    }
    hide Best, Tried, Candidates, Previous, Usable;
  }

  lemma SameBest(h: Health, g: Health, usable: seq<Candidate>)
    requires usable != [] && g.same == h.same && g.down == h.down
    ensures Best(g, usable) == Best(h, usable)
  {
    hide ReleaseKey, Less;
    SameHighest(h, g, usable[0], usable[1..]);
    SameHeld(h, g, usable);
  }

  lemma {:induction false} SameHighest(h: Health, g: Health, best: Candidate, rest: seq<Candidate>)
    requires g.same == h.same
    ensures Highest(g, best, rest) == Highest(h, best, rest)
    decreases |rest|
  {
    hide ReleaseKey, Less;
    if rest != [] {
      assert Below(g, best, rest[0]) == Below(h, best, rest[0]);
      SameHighest(h, g, if Below(h, best, rest[0]) then rest[0] else best, rest[1..]);
    }
  }

  lemma {:induction false} SameHeld(h: Health, g: Health, found: seq<Candidate>)
    requires g.down == h.down
    ensures HeldDown(g, found) == HeldDown(h, found)
  {
    if found != [] {
      SameHeld(h, g, found[1..]);
    }
  }

  /** A start that puts a tree on trial and marks nothing. */
  predicate PutsOnTrial(w: World) {
    MarkedNow(w.base, w.disk).None? && Started(w).run.Some? && Started(w).run.value.trial
  }

  lemma TrialStart(w: World)
    requires Choose(Some(w.base), w.disk, true, true).Runs? && PutsOnTrial(w)
    ensures var h := Load(w.disk.health);
            var r := OnePass(Some(w.base), w.disk, h, true, true);
            var p := Started(w).run.value.path;
            && r.Ends? && r.chosen.Runs? && r.chosen.trial && r.chosen.path == p && Started(w).disk == r.chosen.disk
            && p !in h.ok && p !in h.bad && Tried(h.trial, p) < TRIES
            && r.chosen.disk == w.disk.(health := h.(trial := Trial(p, Count(Tried(h.trial, p) + 1), false, false)))
            && (p.Base? ==> |Usable(Candidates(Some(w.base), w.disk), h.bad)| > 1)
  {
    hide Best, Tried, Candidates, Previous, Usable, Choose;
    ChooseIs(Some(w.base), w.disk, true, true);
  }

  /** A tree on trial that answered and came up healthy: the next start runs it again, off trial,
      and changes nothing. */
  lemma ProvenTreeRuns(w: World)
    requires Choose(Some(w.base), w.disk, true, true).Runs? && PutsOnTrial(w)
    ensures var p := Started(w).run.value.path;
            var up := Next(Next(Started(w), Answers), ComesUp);
            Choose(Some(w.base), up.disk, true, true) == Runs(p, false, Settled, up.disk)
  {
    hide Choose, Started, OnePass, Candidates, Previous, Usable, Load;
    TrialStart(w);
    var once := Started(w);
    var h := Load(w.disk.health);
    var up := Next(Next(once, Answers), ComesUp).disk;
    LoadAgain(w.disk.health);
    UpAndOk(once.disk, once.run.value.path, h);
    LoadAgain(up.health);
    StartedRuns(w);
    HealthyPass(Some(w.base), w.disk, h, up, Load(up.health));
    ChooseIs(Some(w.base), up, true, true);
  }

  lemma StartedRuns(w: World)
    requires Choose(Some(w.base), w.disk, true, true).Runs?
    ensures Started(w).run.Some? && Started(w).base == w.base && !Started(w).run.value.answered
  {
    hide Choose;
  }

  lemma LoadAgain(h: Health)
    ensures Load(Load(h)) == Load(h)
    ensures |Load(h).bad| <= 32 && |Load(h).ok| <= 32
    ensures Load(h).same == h.same && Load(h).down == h.down && Load(h).trial == h.trial
  {
  }

  lemma UpAndOk(d: Disk, p: Path, h: Health)
    requires Load(h) == h && p !in h.ok && p !in h.bad
    requires d.health.ok == h.ok && d.health.bad == h.bad && d.health.same == h.same && d.health.down == h.down
    ensures var e := MarkedOk(MarkedUp(d, p), p); var g := Load(e.health);
            && e.files == d.files && e.current == d.current && e.previous == d.previous
            && p in g.ok && g.bad == h.bad && g.same == h.same && g.down == h.down
  {
    var ok, bad := d.health.ok, d.health.bad;
    assert Last(ok, REMEMBERED) == ok && Last(bad, REMEMBERED) == bad;
    WithoutNone(bad, p);
    LastOfMore(ok, p);
    hide Last, Without;
    var up := MarkedUp(d, p);
    assert up.health == d.health.(trial := up.health.trial);
    assert MarkedOk(up, p).health == d.health.(ok := ok + [p], trial := MarkedOk(up, p).health.trial);
  }

  lemma LastOfMore(s: seq<Path>, p: Path)
    ensures p in Last(s + [p], REMEMBERED)
  {
    var read := Last(s + [p], REMEMBERED);
    assert read[|read| - 1] == p;
  }

  lemma {:induction false} WithoutNone(s: seq<Path>, p: Path)
    requires p !in s
    ensures Without(s, p) == s
  {
    if s != [] {
      WithoutNone(s[1..], p);
      assert [s[0]] + s[1..] == s;
    }
  }

  // ----- a trial that never answers -----

  /** A tree on trial that never answered has no other try: the next start marks it and runs
      something else. */
  lemma NeverAnsweredIsTheLast(w: World)
    requires Choose(Some(w.base), w.disk, true, true).Runs? && PutsOnTrial(w)
    ensures var p := Started(w).run.value.path;
            var hung := Next(Started(w), NeverAnswers);
            && MarkedNow(w.base, hung.disk) == Some(p)
            && var r := Choose(Some(w.base), hung.disk, true, true); r.Runs? ==> r.path != p
  {
    hide Choose, Started, OnePass, Candidates, Previous, Usable, Load;
    TrialStart(w);
    StartedRuns(w);
    var once := Started(w);
    var p := once.run.value.path;
    var h := Load(w.disk.health);
    var hung := Next(once, NeverAnswers).disk;
    LoadAgain(w.disk.health);
    Spent(once.disk, p, h);
    var g := Load(hung.health);
    SpentPass(Some(w.base), w.disk, h, hung, g);
    var r := OnePass(Some(w.base), hung, g, true, true);
    ChooseIs(Some(w.base), hung, true, true);
    LeftOver(Some(w.base), w.disk, h, hung, g, p);
  }

  lemma Spent(d: Disk, p: Path, h: Health)
    requires Load(h) == h && d.health == h.(trial := d.health.trial) && OnTrial(d.health, p) && !d.health.trial.stopped
    ensures var e := SpentTrial(d, p); var g := Load(e.health);
            && e.files == d.files && e.current == d.current && e.previous == d.previous
            && g == h.(trial := g.trial) && Tried(g.trial, p) >= TRIES
  {
    assert Load(d.health) == d.health;
  }

  lemma SpentPass(base: Option<Installed>, d: Disk, h: Health, e: Disk, g: Health)
    requires var r := OnePass(base, d, h, true, true); r.Ends? && r.chosen.Runs? && r.chosen.trial
    requires e.files == d.files && e.current == d.current && e.previous == d.previous
    requires g == h.(trial := g.trial) && Tried(g.trial, OnePass(base, d, h, true, true).chosen.path) >= TRIES
    ensures var p := OnePass(base, d, h, true, true).chosen.path;
            var r := OnePass(base, e, g, true, true);
            r.Again? && r.disk.failed == Some(p) && p in r.health.bad
  {
    SameCandidates(base, d, e);
    var usable := Usable(Candidates(base, d), h.bad);
    if usable != [] {
      SameBest(h, g, usable);
    }
    hide Best, Tried, Candidates, Previous, Usable, GoneBack;
  }

  lemma AgainPass(base: Option<Installed>, d: Disk, h: Health, e: Disk, g: Health)
    requires var r := OnePass(base, d, h, true, true); r.Ends? && r.chosen.Runs? && r.chosen.trial
    requires e.files == d.files && e.current == d.current && e.previous == d.previous
    requires var p := OnePass(base, d, h, true, true).chosen.path; g == h.(trial := Trial(p, Count(1), false, false))
    ensures var p := OnePass(base, d, h, true, true).chosen.path;
            OnePass(base, e, g, true, true)
            == Ends(Runs(p, true, StartsTrial, e.(health := g.(trial := Trial(p, Count(2), false, false)))))
  {
    SameCandidates(base, d, e);
    var usable := Usable(Candidates(base, d), h.bad);
    if usable != [] {
      SameBest(h, g, usable);
    }
    hide Best, Candidates, Previous, Usable;
  }

  /** A tree has two starts to come up: when it was put on trial afresh and both ended with no
      answer, the third start marks it. */
  lemma TwoTries(w: World)
    requires Choose(Some(w.base), w.disk, true, true).Runs? && PutsOnTrial(w)
    requires Tried(w.disk.health.trial, Started(w).run.value.path) == 0
    ensures var p := Started(w).run.value.path;
            var two := Started(Started(w));
            && two.run == Some(Running(p, true, false)) && MarkedNow(w.base, Started(w).disk).None?
            && MarkedNow(w.base, two.disk) == Some(p)
  {
    hide Choose, OnePass, Candidates, Previous, Usable, Load;
    TrialStart(w);
    StartedRuns(w);
    var once := Started(w);
    var p := once.run.value.path;
    var h := Load(w.disk.health);
    LoadAgain(w.disk.health);
    TrialsKept(h);
    AgainPass(Some(w.base), w.disk, h, once.disk, h.(trial := Trial(p, Count(1), false, false)));
    ChooseIs(Some(w.base), once.disk, true, true);
    var two := Started(once);
    SpentPass(Some(w.base), w.disk, h, two.disk, h.(trial := Trial(p, Count(2), false, false)));
  }

  lemma TrialsKept(h: Health)
    ensures Load(h) == h ==> forall t :: Load(h.(trial := t)) == h.(trial := t)
  {
  }

  /** Once p is marked something else is what runs. */
  lemma LeftOver(base: Option<Installed>, d: Disk, h: Health, e: Disk, g: Health, p: Path)
    requires e.files == d.files && e.current == d.current && e.previous == d.previous && g.bad == h.bad
    requires OnePass(base, e, g, true, true).Again? && OnePass(base, e, g, true, true).disk.failed == Some(p)
    requires p.Base? ==> |Usable(Candidates(base, d), h.bad)| > 1
    ensures var r := OnePass(base, e, g, true, true);
            var s := OnePass(base, r.disk, r.health, true, true);
            s.Ends? && s.chosen.Runs? ==> s.chosen.path != p
  {
    SameCandidates(base, d, e);
    var r := OnePass(base, e, g, true, true);
    MarkedPass(base, e, g);
    if p.Update? {
      RunsACandidate(base, r.disk, r.health);
    } else {
      var found := Candidates(base, d);
      assert found[1] in Usable(found, h.bad);
      RunsUnmarked(base, r.disk, r.health, p);
    }
  }

  lemma MarkedPass(base: Option<Installed>, d: Disk, h: Health)
    requires OnePass(base, d, h, true, true).Again?
    ensures var r := OnePass(base, d, h, true, true);
            && r.disk.failed.Some?
            && var p := r.disk.failed.value;
               && r.health.bad == h.bad + [p] && r.disk.files == d.files
               && (p.Base? ==> r.disk.current == d.current)
               && (p.Update? ==> (r.disk.current.Some? ==> Update(r.disk.current.value) != p))
  {
    hide Best, Tried, Candidates;
  }

  lemma RunsACandidate(base: Option<Installed>, d: Disk, h: Health)
    ensures var r := OnePass(base, d, h, true, true);
            r.Ends? && r.chosen.Runs? ==>
              r.chosen.path.Base? || (d.current.Some? && r.chosen.path == Update(d.current.value))
  {
    hide Best, Tried;
  }

  lemma RunsUnmarked(base: Option<Installed>, d: Disk, h: Health, p: Path)
    requires p in h.bad && Usable(Candidates(base, d), h.bad) != []
    ensures var r := OnePass(base, d, h, true, true); r.Ends? && r.chosen.Runs? ==> r.chosen.path != p
  {
    hide Best, Tried, Candidates, Previous, GoneBack;
  }

  // ----- the code a command runs -----

  predicate BaseUsable(base: Option<Installed>, d: Disk) {
    base.Some? && !IsBad(d, Base(base.value.at))
  }

  predicate Proven(d: Disk, name: string) {
    Update(name) in Load(d.health).ok
  }

  /** The update in place is what a start would prefer: code that is not marked, held or newer than
      a base that could run, or of its release and taken for that. */
  predicate UpdatePreferred(base: Option<Installed>, d: Disk) {
    && d.current.Some? && CodeAt(d, d.current.value).Some? && !IsBad(d, Update(d.current.value))
    && (BaseUsable(base, d) ==>
          var v := CodeAt(d, d.current.value).value;
          var k, kb := ReleaseKey(v), ReleaseKey(base.value.version);
          d.health.down == Some(v) || Less(kb, k) || (k == kb && d.health.same == Some(Update(d.current.value))))
  }

  lemma BestIs(base: Option<Installed>, d: Disk)
    ensures var h := Load(d.health);
            var usable := Usable(Candidates(base, d), h.bad);
            && (usable != [] <==> BaseUsable(base, d) || (d.current.Some? && CodeAt(d, d.current.value).Some? && !IsBad(d, Update(d.current.value))))
            && (usable != [] ==> Best(h, usable).path == if UpdatePreferred(base, d) then Update(d.current.value) else Base(base.value.at))
            && (BaseUsable(base, d) ==> usable[0].path == Base(base.value.at))
            && (usable != [] && !BaseUsable(base, d) ==> usable[0].path.Update?)
            && (UpdatePreferred(base, d) ==> (|usable| > 1 <==> BaseUsable(base, d)))
  {
    hide ReleaseKey, Less, Last;
    var h := Load(d.health);
    var current := d.current.Some? && CodeAt(d, d.current.value).Some?;
    var bs := if base.Some? then [Candidate(Base(base.value.at), base.value.version)] else [];
    var cs := if current then [Candidate(Update(d.current.value), CodeAt(d, d.current.value).value)] else [];
    assert Candidates(base, d) == bs + cs;
    UsableOfTwo(bs, cs, h.bad);
    var ub, uc := if BaseUsable(base, d) then bs else [], if current && !IsBad(d, Update(d.current.value)) then cs else [];
    assert Usable(Candidates(base, d), h.bad) == ub + uc;
    if ub != [] && uc != [] {
      TwoRanked(h, ub[0], uc[0]);
      assert ub + uc == [ub[0], uc[0]];
    } else if ub != [] {
      OneRanked(h, ub[0]);
      assert ub + uc == [ub[0]];
    } else if uc != [] {
      OneRanked(h, uc[0]);
      assert ub + uc == [uc[0]];
    }
  }

  lemma UsableOfTwo(bs: seq<Candidate>, cs: seq<Candidate>, bad: seq<Path>)
    requires |bs| <= 1 && |cs| <= 1
    ensures Usable(bs + cs, bad) ==
            (if bs != [] && bs[0].path !in bad then bs else []) + (if cs != [] && cs[0].path !in bad then cs else [])
  {
    if bs != [] {
      assert (bs + cs)[1..] == cs;
    } else {
      assert bs + cs == cs;
    }
    if cs != [] {
      assert cs[1..] == [];
    }
  }

  lemma OneRanked(h: Health, c: Candidate)
    ensures Best(h, [c]) == c
  {
    assert [c][1..] == [];
  }

  lemma TwoRanked(h: Health, b: Candidate, c: Candidate)
    requires b.path.Base? && c.path.Update?
    ensures var k, kb := ReleaseKey(c.version), ReleaseKey(b.version);
            Best(h, [b, c]) == if h.down == Some(c.version) || Less(kb, k) || (k == kb && h.same == Some(c.path)) then c else b
  {
    hide ReleaseKey, Less;
    assert [b, c][1..] == [c] && [c][1..] == [];
    assert HeldDown(h, [c]) == if h.down == Some(c.version) then Some(c) else None;
    assert HeldDown(h, [b, c]) == HeldDown(h, [c]);
    assert Highest(h, c, []) == c && Highest(h, b, []) == b;
    assert Highest(h, b, [c]) == if Below(h, b, c) then c else b;
  }

  /** What a command runs next to the service, on no trial and leaving the disk alone: the code a
      start would prefer, unless that is an update that never came up healthy here and there is
      other code - then the one before it where that came up, else the base, else the one before. */
  lemma CommandNeverTries(base: Option<Installed>, d: Disk, saves: bool)
    requires BaseUsable(base, d) || UpdatePreferred(base, d)
    ensures var r := Choose(base, d, false, saves);
            var before := Previous(d, Load(d.health).bad);
            && r.Runs? && !r.trial && r.disk == d
            && r.path == (if !UpdatePreferred(base, d) then Base(base.value.at)
                          else if Proven(d, d.current.value) || (!BaseUsable(base, d) && before.None?) then Update(d.current.value)
                          else if before.Some? && Proven(d, before.value) then Update(before.value)
                          else if BaseUsable(base, d) then Base(base.value.at)
                          else Update(before.value))
  {
    hide Choose, UpdatePreferred, BaseUsable, Best, Previous, Candidates, Usable, Load, CodeAt;
    var h := Load(d.health);
    BestIs(base, d);
    ChooseIs(base, d, false, saves);
    Unhidden(base, d);
    var found, usable := Candidates(base, d), Usable(Candidates(base, d), h.bad);
    assert found != [] && usable != [];
    var best := Best(h, usable).path;
    var prev := if best.Update? then Previous(d, h.bad) else None;
    CommandPass(base, d, h, saves, best, prev);
  }

  lemma CommandPass(base: Option<Installed>, d: Disk, h: Health, saves: bool, best: Path, prev: Option<string>)
    requires var usable := Usable(Candidates(base, d), h.bad);
             usable != [] && best == Best(h, usable).path && prev == if best.Update? then Previous(d, h.bad) else None
    ensures var usable := Usable(Candidates(base, d), h.bad);
            OnePass(base, d, h, false, saves) ==
            Ends(if best.Update? && best !in h.ok && (|usable| > 1 || prev.Some?) then Runs(RanBefore(prev, usable, h.ok), false, ForACommand, d)
                 else Runs(best, false, Settled, d))
  {
    hide Best, Previous, Candidates, RanBefore, Tried;
  }

  lemma Unhidden(base: Option<Installed>, d: Disk)
    ensures UpdatePreferred(base, d) ==>
              d.current.Some? && CodeAt(d, d.current.value).Some? && !IsBad(d, Update(d.current.value))
    ensures BaseUsable(base, d) ==> base.Some?
    ensures Candidates(base, d) == [] ==> !UpdatePreferred(base, d) && !BaseUsable(base, d)
  {
    hide ReleaseKey, Less;
  }

  // ----- a health file that cannot be written -----

  /** Where health.json cannot be written nothing runs on trial and no mark reaches the disk: what
      cannot be counted cannot be gone back from either. */
  lemma UnwrittenTrialsAreNone(base: Option<Installed>, d: Disk)
    ensures var r := Choose(base, d, true, false);
            r.Runs? ==> !r.trial && r.disk.health == d.health && r.disk.files == d.files
  {
    hide Choose, OnePass;
    ChooseIs(base, d, true, false);
    UnwrittenPass(base, d, Load(d.health));
    var r := OnePass(base, d, Load(d.health), true, false);
    if r.Again? {
      UnwrittenPass(base, r.disk, r.health);
    }
  }

  lemma UnwrittenPass(base: Option<Installed>, d: Disk, h: Health)
    ensures var r := OnePass(base, d, h, true, false);
            && (r.Again? ==> r.disk.health == d.health && r.disk.files == d.files)
            && (r.Ends? && r.chosen.Runs? ==> !r.chosen.trial && r.chosen.disk == d)
  {
    hide Best, Tried, Candidates, Usable;
  }

  // ----- going back from the code taken for the same release -----

  /** When the tree taken for the same release is marked, the one before it, of the base's release
      too, wins the tie with the base in its place. */
  lemma TieIsHandedOn(base: Installed, d: Disk)
    requires d.current.Some? && MarkedNow(base, d) == Some(Update(d.current.value)) && d.health.same == MarkedNow(base, d)
    requires d.health.down.None? && d.previous != d.current && Previous(d, Load(d.health).bad).Some?
    requires ReleaseKey(CodeAt(d, d.previous.value).value) == ReleaseKey(base.version)
    ensures var r := Choose(Some(base), d, true, true); r.Runs? && r.path == Update(d.previous.value)
  {
    hide Choose, OnePass, ReleaseKey, Less;
    var h := Load(d.health);
    ChooseIs(Some(base), d, true, true);
    GoesBack(base, d, h);
    var r := OnePass(Some(base), d, h, true, true);
    PassAfterMark(Some(base), r.disk, r.health, d.previous.value);
  }

  lemma GoesBack(base: Installed, d: Disk, h: Health)
    requires d.current.Some? && d.previous.Some? && d.previous != d.current && h.same == Some(Update(d.current.value))
    requires OnePass(Some(base), d, h, true, true).Again? && OnePass(Some(base), d, h, true, true).disk.failed == Some(Update(d.current.value))
    requires Previous(d, h.bad).Some?
    ensures var r := OnePass(Some(base), d, h, true, true);
            && r.disk.current == d.previous && r.disk.previous == None && r.disk.files == d.files
            && r.health == h.(bad := h.bad + [Update(d.current.value)], trial := NoTrial, same := Some(Update(d.previous.value)))
  {
    hide Best, Tried, Candidates, Usable;
  }

  lemma PassAfterMark(base: Option<Installed>, d: Disk, h: Health, n: string)
    requires base.Some? && d.current == Some(n) && CodeAt(d, n).Some? && Update(n) !in h.bad && h.trial == NoTrial
    requires h.same == Some(Update(n)) && h.down.None? && ReleaseKey(CodeAt(d, n).value) == ReleaseKey(base.value.version)
    ensures var r := OnePass(base, d, h, true, true); r.Ends? && r.chosen.Runs? && r.chosen.path == Update(n)
  {
    hide ReleaseKey, Less;
    var b, c := Candidate(Base(base.value.at), base.value.version), Candidate(Update(n), CodeAt(d, n).value);
    assert Candidates(base, d) == [b] + [c];
    UsableOfTwo([b], [c], h.bad);
    TwoRanked(h, b, c);
    OneRanked(h, c);
    assert [b] + [c] == [b, c] && [] + [c] == [c];
    hide Best, Candidates, Previous;
  }
}
