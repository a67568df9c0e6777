/**
 A run that gets where WayBackIsKept ends: a base that failed its trial is installed again
 after the update that stood in for it failed as well.
 */
module WitnessBadBase {
  import opened Wrappers
  import opened Release
  import opened WitnessBoot
  import opened WitnessRuns

  const FIRST: Installed := Installed("/opt/first", Version("1.0", 0))
  const SECOND: Installed := Installed("/opt/second", Version("1.0", 2))

  const DIGEST: string := "000000000000" + "0000000000000000000000000000000000000000000000000000"

  /** An update between the two. */
  const BETWEEN: Bundle := Bundle("1.0", DIGEST, Version("1.0", 1))
  const TREE: string := "1.0-000000000000"

  function Thrice(): seq<Step> {
    [Start, Start, Start]
  }

  function Installing(base: Installed): seq<Step> {
    [NewBase(base)] + Thrice()
  }

  function Early(): seq<Step> {
    [Start, Updates(BETWEEN, false, false, FIRST.version, 0)]
  }

  /** The update, the second base and its three failed starts, the first base again and three
      failed starts of the update. */
  function ToTheEdge(): seq<Step> {
    Early() + Installing(SECOND) + Installing(FIRST)
  }

  // ----- three starts that fail -----

  /** A tree put on trial with a new record is marked bad at the third start; here the pass
      after the mark ends without a trial. */
  lemma ThreeStartsFail(w: World, h: Health, p: Path)
    requires h == w.disk.health == Load(h) && h.trial == NoTrial
    requires OnePass(Some(w.base), w.disk, h, true, true) == Ends(Runs(p, true, StartsTrial,
               w.disk.(health := h.(trial := Trial(p, Count(1), false, false)))))
    requires var f := Failed(w.disk, h, p, true);
             var s := OnePass(Some(w.base), f.disk, f.health, true, true);
             s.Ends? && s.chosen.Runs? && s.chosen.disk == f.disk
    ensures var w' := After(w, Thrice());
            w'.base == w.base && w'.disk == Failed(w.disk, h, p, true).disk
  {
    hide OnePass, Choose, MarkedNow, Failed;
    var base := Some(w.base);
    var t1, t2 := Trial(p, Count(1), false, false), Trial(p, Count(2), false, false);
    var h1, h2 := h.(trial := t1), h.(trial := t2);
    var w1 := Next(w, Start);
    ChooseIs(base, w.disk, true, true);
    assert w1.base == w.base && w1.disk == w.disk.(health := h1);
    var w2 := Next(w1, Start);
    TrialGoesOn(base, w.disk, h, t1, h1);
    ChooseIs(base, w1.disk, true, true);
    assert w2.base == w.base && w2.disk == w.disk.(health := h2);
    var w3 := Next(w2, Start);
    TrialGoesOn(base, w.disk, h, t2, h2);
    ChooseIs(base, w2.disk, true, true);
    FailedForgetsTrial(w.disk, h, h2, t2, p);
    assert w3.base == w.base && w3.disk == Failed(w.disk, h, p, true).disk;
    ThreeSteps(w);
  }

  lemma FailedForgetsTrial(d: Disk, h: Health, x: Health, t: Trial, p: Path)
    ensures Failed(d, h, p, true).Again?
    ensures Failed(d.(health := x), h.(trial := t), p, true) == Failed(d, h, p, true)
  {
  }

  lemma ThreeSteps(w: World)
    ensures After(w, Thrice()) == Next(Next(Next(w, Start), Start), Start)
  {
    hide Next;
    assert Thrice()[1..] == [Start, Start] && [Start, Start][1..] == [Start] && [Start][1..] == [];
  }

  // ----- the run -----

  /** The keys of FIRST, BETWEEN and SECOND, which differ in the wire version alone. */
  lemma ByWire(m: int, n: int)
    requires m < n
    ensures Less(ReleaseKey(Version("1.0", m)), ReleaseKey(Version("1.0", n)))
    ensures !Less(ReleaseKey(Version("1.0", n)), ReleaseKey(Version("1.0", m)))
    ensures ReleaseKey(Version("1.0", m)) != ReleaseKey(Version("1.0", n))
  {
    hide Less;
    var a, b := ReleaseKey(Version("1.0", m)), ReleaseKey(Version("1.0", n));
    assert a.nums == b.nums && a.plain == b.plain && a.rest == b.rest;
    assert Less(a, b) by { WireOnly(a, b); }
    KeysAreOrdered(a, b);
  }

  lemma WireOnly(a: Key, b: Key)
    requires a.nums == b.nums && a.plain == b.plain && a.rest == b.rest && a.wire < b.wire
    ensures Less(a, b)
  {
  }

  lemma TreeIsFit()
    ensures NameOf(BETWEEN) == TREE && FitName(BETWEEN)
  {
    assert BETWEEN.digest[..12] == "000000000000";
  }

  /** The first update over an empty directory. */
  lemma FirstUpdate() returns (files: map<string, Entry>)
    ensures var took := TakeUpdate(NOTHING, BETWEEN, false, false, FIRST.version, 0);
            took.Took? && took.disk == Disk(files, Some(TREE), None, Health([], [], NoTrial, None, None), None)
    ensures TREE in files && files[TREE] == Folder(Some(BETWEEN.version), DIGEST, 0)
  {
    hide ReleaseKey, TreeName, Temporary, Prunable, Goes, BundlesKept, Whole;
    TreeIsFit();
    ByWire(0, 1);
    var d6 := Placed(NOTHING, BETWEEN, false, false, FIRST.version, 0);
    UpdateIsPlacedAndPruned(NOTHING, BETWEEN, false, false, FIRST.version, 0);
    SuffixIsNoTree(TREE);
    assert TREE != TREE + BUNDLE_SUFFIX;
    assert d6.files[TREE] == Folder(Some(BETWEEN.version), DIGEST, 0);
    assert TREE in Held(d6);
    files := Pruned(d6, 0, KEEP).files;
    TreeStays(d6);
  }

  lemma TreeStays(d: Disk)
    requires TREE in Held(d) && TREE in d.files && d.files[TREE] == Folder(Some(BETWEEN.version), DIGEST, 0)
    ensures TREE in Pruned(d, 0, KEEP).files && Pruned(d, 0, KEEP).files[TREE] == d.files[TREE]
  {
    hide ReleaseKey;
    TreeIsFit();
    HeldTreesStay(d, 0, KEEP, TREE);
  }

  /** The second base, above the update, on trial; then nothing but the update is left. */
  lemma SecondBaseFails(files: map<string, Entry>)
    requires TREE in files && files[TREE] == Folder(Some(BETWEEN.version), DIGEST, 0)
    ensures var h := Health([], [], NoTrial, None, None); var d := Disk(files, Some(TREE), None, h, None);
            var p := Base(SECOND.at);
            && OnePass(Some(SECOND), d, h, true, true)
               == Ends(Runs(p, true, StartsTrial, d.(health := h.(trial := Trial(p, Count(1), false, false)))))
            && Failed(d, h, p, true).disk == Disk(files, Some(TREE), None, h.(bad := [p]), Some(p))
            && var f := Failed(d, h, p, true);
               OnePass(Some(SECOND), f.disk, f.health, true, true) == Ends(Runs(Update(TREE), false, Settled, f.disk))
  {
    hide ReleaseKey, Less;
    ByWire(1, 2);
    var h := Health([], [], NoTrial, None, None);
    var d := Disk(files, Some(TREE), None, h, None);
    var b, u := Candidate(Base(SECOND.at), SECOND.version), Candidate(Update(TREE), BETWEEN.version);
    assert Candidates(Some(SECOND), d) == [b, u];
    assert [b, u][1..] == [u] && [u][1..] == [];
    assert HeldDown(h, [b, u]).None?;
    assert !Below(h, b, u);
    var f := Failed(d, h, b.path, true);
    assert Candidates(Some(SECOND), f.disk) == [b, u];
    assert Usable([b, u], f.health.bad) == [u];
  }

  /** The first base again, below the update, which is on trial then and leaves nothing. */
  lemma UpdateFails(files: map<string, Entry>, was: Option<Path>)
    requires TREE in files && files[TREE] == Folder(Some(BETWEEN.version), DIGEST, 0)
    ensures var h := Health([], [Base(SECOND.at)], NoTrial, None, None); var d := Disk(files, Some(TREE), None, h, was);
            var p := Update(TREE);
            && OnePass(Some(FIRST), d, h, true, true)
               == Ends(Runs(p, true, StartsTrial, d.(health := h.(trial := Trial(p, Count(1), false, false)))))
            && Failed(d, h, p, true).disk == Disk(files, None, None, h.(bad := [Base(SECOND.at), p]), Some(p))
            && var f := Failed(d, h, p, true);
               OnePass(Some(FIRST), f.disk, f.health, true, true) == Ends(Runs(Base(FIRST.at), false, Settled, f.disk))
  {
    hide ReleaseKey, Less;
    ByWire(0, 1);
    var h := Health([], [Base(SECOND.at)], NoTrial, None, None);
    var d := Disk(files, Some(TREE), None, h, was);
    var b, u := Candidate(Base(FIRST.at), FIRST.version), Candidate(Update(TREE), BETWEEN.version);
    assert Candidates(Some(FIRST), d) == [b, u];
    assert [b, u][1..] == [u] && [u][1..] == [];
    assert HeldDown(h, [b, u]).None?;
    assert Below(h, b, u);
    var f := Failed(d, h, u.path, true);
    assert Candidates(Some(FIRST), f.disk) == [b];
    assert [b][1..] == [];
  }

  lemma {:induction false} StepsInParts(w: World, a: seq<Step>, b: seq<Step>)
    ensures After(w, a + b) == After(After(w, a), b)
    ensures Spared(w, a + b) <==> Spared(w, a) && Spared(After(w, a), b)
    decreases |a|
  {
    hide Next, Spares;
    if a == [] {
      assert a + b == b;
    } else {
      assert (a + b)[0] == a[0] && (a + b)[1..] == a[1..] + b;
      StepsInParts(Next(w, a[0]), a[1..], b);
    }
  }

  /** Three starts of another base. */
  lemma InstallingIs(w: World, base: Installed)
    requires Spares(w, NewBase(base))
    ensures After(w, Installing(base)) == After(w.(base := base), Thrice())
    ensures Spared(w, Installing(base))
  {
    hide Next, Spares;
    var next := w.(base := base);
    assert Installing(base)[1..] == Thrice();
    assert Next(w, NewBase(base)) == next by { NextIsInstalled(w, base); }
    assert Thrice()[1..] == [Start, Start] && [Start, Start][1..] == [Start] && [Start][1..] == [];
    StartsAreSpared(next);
    StartsAreSpared(Next(next, Start));
    StartsAreSpared(Next(Next(next, Start), Start));
    assert Spared(next, Thrice());
  }

  lemma NextIsInstalled(w: World, base: Installed)
    ensures Next(w, NewBase(base)) == w.(base := base)
  {
  }

  lemma StartsAreSpared(w: World)
    ensures Spares(w, Start)
  {
  }

  /** The first start and the update. */
  lemma EarlyIs() returns (w: World, files: map<string, Entry>)
    ensures TREE in files && files[TREE] == Folder(Some(BETWEEN.version), DIGEST, 0)
    ensures w == After(Begin(FIRST), Early()) && Spared(Begin(FIRST), Early())
    ensures w.disk == Disk(files, Some(TREE), None, Health([], [], NoTrial, None, None), None)
  {
    hide ReleaseKey, TakeUpdate, TreeName, OldLeftover;
    var w0 := Begin(FIRST);
    var step := Updates(BETWEEN, false, false, FIRST.version, 0);
    assert OnePass(Some(FIRST), NOTHING, NOTHING.health, true, true) == Ends(Runs(Base(FIRST.at), false, Settled, NOTHING));
    assert Started(w0).disk == NOTHING;
    files := FirstUpdate();
    TreeIsFit();
    w := Next(Started(w0), step);
    assert Early()[1..] == [step] && [step][1..] == [];
  }

  /** The run is one the claim is made for up to its end, and there the base that was marked
      bad, installed again, is a step that loses the way back. */
  lemma BadBaseComesBack()
    ensures Spared(Begin(FIRST), ToTheEdge())
    ensures var w := After(Begin(FIRST), ToTheEdge());
            && w.disk.current.None? && IsBad(w.disk, Base(SECOND.at))
            && !WayBack(Next(w, NewBase(SECOND)))
  {
    hide Next, After, Spared, WayBack, OnePass, Failed, Thrice, Early, Installing;
    var w2, files := EarlyIs();
    InstallingIs(w2, SECOND);
    SecondBaseFails(files);
    ThreeStartsFail(w2.(base := SECOND), w2.disk.health, Base(SECOND.at));
    var w6 := After(w2, Installing(SECOND));
    InstallingIs(w6, FIRST);
    UpdateFails(files, w6.disk.failed);
    ThreeStartsFail(w6.(base := FIRST), w6.disk.health, Update(TREE));
    var w10 := After(w6, Installing(FIRST));
    StepsInParts(Begin(FIRST), Early(), Installing(SECOND));
    StepsInParts(Begin(FIRST), Early() + Installing(SECOND), Installing(FIRST));
    assert !Spares(w10, NewBase(SECOND));
    WayBackEndsIff(FIRST, ToTheEdge(), NewBase(SECOND));
  }
}
