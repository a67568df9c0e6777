/**
 When every start on trial fails: how many there can be before the witness runs one tree
 without a trial and goes on running it.
 */
module WitnessSettles {
  import opened Wrappers
  import opened WitnessBoot
  import opened WitnessRuns

  /** How a start on trial fails: it ends (answered: on its port before that), or it hangs
      without ever answering and its tries are spent. */
  datatype Failure = Died(answered: bool) | Hung

  function FailedBy(d: Disk, p: Path, f: Failure): Disk {
    match f
    case Died(answered) => if answered then MarkedUp(d, p) else d
    case Hung => SpentTrial(d, p)
  }

  datatype Outcome = Outcome(disk: Disk, trial: bool)

  /** One start of run, failing in the way f when it is on trial. */
  function FailingStart(base: Option<Installed>, d: Disk, f: Failure): Outcome {
    match Choose(base, d, true, true)
    case Runs(path, trial, _, disk) => Outcome(if trial then FailedBy(disk, path, f) else disk, trial)
    case NoCode(disk) => Outcome(disk, false)
    case NothingComesUp => Outcome(d, false)
  }

  function AfterStarts(base: Option<Installed>, d: Disk, fs: seq<Failure>): Disk
    decreases |fs|
  {
    if fs == [] then d else AfterStarts(base, FailingStart(base, d, fs[0]).disk, fs[1..])
  }

  /** How many of the starts were on trial. */
  function TrialStarts(base: Option<Installed>, d: Disk, fs: seq<Failure>): nat
    decreases |fs|
  {
    if fs == [] then 0
    else var o := FailingStart(base, d, fs[0]);
         (if o.trial then 1 else 0) + TrialStarts(base, o.disk, fs[1..])
  }

  /** Whatever way it could fail, the next start is not on trial and changes nothing. */
  ghost predicate SettledAt(base: Option<Installed>, d: Disk) {
    forall f :: FailingStart(base, d, f) == Outcome(d, false)
  }

  // ----- the measure -----

  /** The trees the links name that hold code: current, and previous behind it. */
  function Live(d: Disk): nat {
    if d.current.Some? && CodeAt(d, d.current.value).Some? then
      1 + (if d.previous.Some? && CodeAt(d, d.previous.value).Some? then 1 else 0)
    else 0
  }

  /** The base holds no code, or is marked bad and stays among the last 32 over k more marks. */
  predicate OutFor(base: Option<Installed>, bad: seq<Path>, k: nat) {
    base.None? || exists i :: 0 <= i < |bad| && bad[i] == Base(base.value.at) && |bad| - i + k <= REMEMBERED
  }

  /** How many trees can still be marked bad. */
  function MarksLeft(base: Option<Installed>, d: Disk): nat {
    if OutFor(base, Load(d.health).bad, Live(d)) then (if Live(d) == 0 then 0 else Live(d) - 1) else Live(d)
  }

  /** The tries the next tree on trial has used up. */
  function Used(base: Option<Installed>, d: Disk): int {
    match OnePass(base, d, Load(d.health), true, true)
    case Ends(c) => if c.Runs? && c.trial then Tried(Load(d.health).trial, c.path) else 0
    case Again(_, _) => TRIES
  }

  function TrialsLeft(base: Option<Installed>, d: Disk): int {
    MarksLeft(base, d) * TRIES - Used(base, d)
  }

  /** A count in the file below zero adds that many starts. */
  function Below0(t: Trial): nat {
    if t.Trial? && t.tries.Count? && t.tries.n < 0 then -t.tries.n else 0
  }

  // ----- one start -----

  /** Only while something else is left is a tree put on trial or marked. */
  lemma TrialNeedsAnother(base: Option<Installed>, d: Disk)
    requires var r := OnePass(base, d, Load(d.health), true, true); r.Again? || (r.chosen.Runs? && r.chosen.trial)
    ensures MarksLeft(base, d) >= 1
  {
    hide Best, Tried, Failed, CodeAt;
    var h := Load(d.health);
    var found := Candidates(base, d);
    var usable := Usable(found, h.bad);
    var best := Best(h, usable).path;
    if |usable| > 1 {
      assert usable == found;
      assert found[0] in usable;
    } else {
      assert best.Update?;
    }
  }

  lemma TrialsLeftIsBounded(base: Option<Installed>, d: Disk)
    ensures 0 <= TrialsLeft(base, d) <= 2 * TRIES + Below0(d.health.trial)
  {
    hide OnePass, MarksLeft;
    assert MarksLeft(base, d) <= 2 by { MarksAreFew(base, d); }
    var r := OnePass(base, d, Load(d.health), true, true);
    if r.Again? {
      TrialNeedsAnother(base, d);
    } else if r.chosen.Runs? && r.chosen.trial {
      TrialNeedsAnother(base, d);
      FirstPassTrial(base, d);
    }
  }

  lemma MarksAreFew(base: Option<Installed>, d: Disk)
    ensures MarksLeft(base, d) <= 2
  {
  }

  lemma FirstPassTrial(base: Option<Installed>, d: Disk)
    requires var r := OnePass(base, d, Load(d.health), true, true); r.Ends? && r.chosen.Runs? && r.chosen.trial
    ensures var r := OnePass(base, d, Load(d.health), true, true).chosen; var h := Load(d.health);
            && Tried(h.trial, r.path) < TRIES
            && r.disk == d.(health := h.(trial := Trial(r.path, Count(Tried(h.trial, r.path) + 1), false, false)))
  {
    hide Best;
  }

  /** Where a pass puts p on trial, the start after it reads the tries its record says then. */
  lemma UsedNext(base: Option<Installed>, d: Disk, h: Health, d': Disk)
    requires var r := OnePass(base, d, h, true, true); r.Ends? && r.chosen.Runs? && r.chosen.trial
    requires d' == d.(health := d'.health) && Load(d'.health) == h.(trial := d'.health.trial)
    ensures var n := Tried(d'.health.trial, OnePass(base, d, h, true, true).chosen.path);
            Used(base, d') == if n >= TRIES then TRIES else n
  {
    hide OnePass;
    TrialGoesOn(base, d, h, d'.health.trial, d'.health);
  }

  /** What a failed start leaves of its record: at least the tries it began with. */
  lemma FailureKeepsTries(d: Disk, p: Path, n: int, f: Failure)
    requires d.health.trial == Trial(p, Count(n), false, false) && n <= TRIES
    ensures var d' := FailedBy(d, p, f);
            && d' == d.(health := d'.health) && Load(d'.health) == Load(d.health).(trial := d'.health.trial)
            && n <= Tried(d'.health.trial, p)
            && Load(d'.health).bad == Load(d.health).bad
  {
  }

  /** What a pass that marks p bad does to the links, and what else was there to run. */
  lemma MarkedPath(base: Option<Installed>, d: Disk) returns (p: Path)
    requires OnePass(base, d, Load(d.health), true, true).Again?
    ensures var h := Load(d.health); var d' := OnePass(base, d, h, true, true).disk;
            && d'.health.bad == h.bad + [p] && d'.failed == Some(p)
            && (p.Base? ==> base.Some? && p == Base(base.value.at) && p !in h.bad && Live(d') == Live(d) >= 1)
            && (p.Update? ==> Live(d') < Live(d)
                              && (Live(d) == 2 || (base.Some? && Base(base.value.at) !in h.bad)))
            && Live(d) <= 2
  {
    hide Best, Tried;
    var h := Load(d.health);
    var found := Candidates(base, d);
    var usable := Usable(found, h.bad);
    p := Best(h, usable).path;
    if |usable| > 1 {
      assert usable == found && found[0] in usable && found[1] in usable;
    }
  }

  /** A mark in the last place of the list stays there over 31 more; the others move up. */
  lemma MarkAppended(base: Option<Installed>, bad: seq<Path>, p: Path, k: nat)
    requires |bad| <= REMEMBERED && k < REMEMBERED
    ensures base.Some? && p == Base(base.value.at) ==> OutFor(base, Last(bad + [p], REMEMBERED), k)
    ensures OutFor(base, bad, k + 1) ==> OutFor(base, Last(bad + [p], REMEMBERED), k)
  {
    var kept := Last(bad + [p], REMEMBERED);
    var cut := |bad| + 1 - |kept|;
    assert kept[|kept| - 1] == p;
    if OutFor(base, bad, k + 1) && base.Some? {
      var i :| 0 <= i < |bad| && bad[i] == Base(base.value.at) && |bad| - i + (k + 1) <= REMEMBERED;
      assert kept[i - cut] == bad[i];
    }
  }

  lemma OutForFewer(base: Option<Installed>, bad: seq<Path>, k: nat, k': nat)
    requires k' <= k && OutFor(base, bad, k)
    ensures OutFor(base, bad, k')
  {
  }

  /** The pass that marks a tree bad leaves one tree less that can be. */
  lemma MarksCountDown(base: Option<Installed>, d: Disk)
    requires OnePass(base, d, Load(d.health), true, true).Again?
    ensures var d' := OnePass(base, d, Load(d.health), true, true).disk;
            MarksLeft(base, d') < MarksLeft(base, d)
  {
    hide OnePass, Live, OutFor, Last;
    var h := Load(d.health);
    var d' := OnePass(base, d, h, true, true).disk;
    var p := MarkedPath(base, d);
    LoadIsShort(d.health);
    MarkAppended(base, h.bad, p, Live(d'));
    if p.Base? {
      NotOut(base, h.bad, Live(d));
    } else if OutFor(base, h.bad, Live(d)) {
      OutForFewer(base, h.bad, Live(d), Live(d') + 1);
      NotOut(base, h.bad, Live(d));
    }
  }

  lemma LoadIsShort(h: Health)
    ensures |Load(h).bad| <= REMEMBERED && |Load(h).ok| <= REMEMBERED
    ensures Load(Load(h)) == Load(h)
  {
  }

  lemma NotOut(base: Option<Installed>, bad: seq<Path>, k: nat)
    ensures base.Some? && OutFor(base, bad, k) ==> Base(base.value.at) in bad
  {
  }

  lemma {:induction false} UsableWithFewerBad(found: seq<Candidate>, bad: seq<Path>, kept: seq<Path>)
    requires forall q :: q in kept ==> q in bad
    requires forall c :: c in found && c.path in bad ==> c.path in kept
    ensures Usable(found, kept) == Usable(found, bad)
  {
    if found != [] {
      UsableWithFewerBad(found[1..], bad, kept);
    }
  }

  /** A tree is put on trial with fewer trees marked bad too, where those are none of the candidates. */
  lemma TrialWithFewerBad(base: Option<Installed>, d: Disk, h: Health, kept: seq<Path>)
    requires var r := OnePass(base, d, h, true, true); r.Ends? && r.chosen.Runs? && r.chosen.trial
    requires forall q :: q in kept ==> q in h.bad
    requires forall c :: c in Candidates(base, d) && c.path in h.bad ==> c.path in kept
    ensures var r := OnePass(base, d, h, true, true).chosen;
            var s := OnePass(base, d, h.(bad := kept), true, true);
            && s.Ends? && s.chosen.Runs? && s.chosen.trial && s.chosen.path == r.path
            && r.disk == d.(health := h.(trial := Trial(r.path, Count(Tried(h.trial, r.path) + 1), false, false)))
  {
    hide Best, Tried;
    UsableWithFewerBad(Candidates(base, d), h.bad, kept);
    BestIsSame(h, h.(bad := kept), Usable(Candidates(base, d), h.bad));
  }

  /** With a tree on trial there is more than it: another candidate that is usable, or previous. */
  lemma TrialHasOthers(base: Option<Installed>, d: Disk, h: Health)
    requires var r := OnePass(base, d, h, true, true); r.Ends? && r.chosen.Runs? && r.chosen.trial
    ensures Usable(Candidates(base, d), h.bad) != []
    ensures d.previous.Some? || Usable(Candidates(base, d), h.bad) == Candidates(base, d)
  {
    hide Best, Tried;
  }

  /** After a pass that marked a tree, the pass that puts another one on trial would do so
      from the file as it is read back too. */
  lemma SecondTrial(base: Option<Installed>, d: Disk)
    requires var r := OnePass(base, d, Load(d.health), true, true);
             r.Again? && var s := OnePass(base, r.disk, r.health, true, true);
                         s.Ends? && s.chosen.Runs? && s.chosen.trial
    ensures var r := OnePass(base, d, Load(d.health), true, true);
            var s := OnePass(base, r.disk, r.health, true, true);
            var t := OnePass(base, r.disk, Load(r.health), true, true);
            && r.disk.health == r.health
            && t.Ends? && t.chosen.Runs? && t.chosen.trial && t.chosen.path == s.chosen.path
            && s.chosen.disk == r.disk.(health := r.health.(trial := Trial(s.chosen.path, Count(1), false, false)))
  {
    hide OnePass, Usable;
    var r := OnePass(base, d, Load(d.health), true, true);
    var kept := Load(r.health).bad;
    var p := MarkedPath(base, d);
    MarkingWrites(base, d);
    assert kept[|kept| - 1] == p;
    TrialHasOthers(base, r.disk, r.health);
    var found := Candidates(base, r.disk);
    var some := Usable(found, r.health.bad)[0];
    assert some in found && some.path !in r.health.bad;
    if p.Base? || r.disk.current.None? {
      assert forall c :: c in found && c != some ==> c.path == p;
    } else {
      assert forall c :: c in found ==> c in Usable(found, r.health.bad);
    }
    TrialWithFewerBad(base, r.disk, r.health, kept);
  }

  lemma MarkingWrites(base: Option<Installed>, d: Disk)
    requires OnePass(base, d, Load(d.health), true, true).Again?
    ensures var r := OnePass(base, d, Load(d.health), true, true);
            && r.disk.health == r.health && r.health.trial == NoTrial && r.health.ok == Load(d.health).ok
            && (r.disk.failed.Some? && r.disk.failed.value.Update? ==> r.disk.previous.None? || r.disk.current.None?)
  {
    hide Best;
  }

  /** One failing start: on trial it takes a trial start away, marking a tree takes a mark
      away, and one that does neither changes nothing, however often it is repeated. */
  lemma OneStart(base: Option<Installed>, d: Disk, f: Failure)
    ensures var o := FailingStart(base, d, f);
            && TrialsLeft(base, o.disk) <= TrialsLeft(base, d) - (if o.trial then 1 else 0)
            && MarksLeft(base, o.disk) <= MarksLeft(base, d)
            && (SettledAt(base, d) || TrialsLeft(base, o.disk) + MarksLeft(base, o.disk) < TrialsLeft(base, d) + MarksLeft(base, d))
  {
    hide OnePass, Choose, MarksLeft, Tried;
    var h := Load(d.health);
    var r := OnePass(base, d, h, true, true);
    var o := FailingStart(base, d, f);
    ChooseIs(base, d, true, true);
    LoadIsShort(d.health);
    if r.Again? {
      MarksCountDown(base, d);
      MarkingWrites(base, d);
      var s := OnePass(base, r.disk, r.health, true, true);
      if o.trial {
        SecondTrial(base, d);
        FailureKeepsTries(s.chosen.disk, s.chosen.path, 1, f);
        UsedNext(base, r.disk, Load(r.health), o.disk);
        SameMarks(base, r.disk, o.disk);
      } else {
        NoTrialNoChange(base, r.disk, r.health);
        UsedIsNatural(base, o.disk);
        assert o.disk == r.disk;
      }
    } else if o.trial {
      FirstPassTrial(base, d);
      var c := r.chosen;
      FailureKeepsTries(c.disk, c.path, Tried(h.trial, c.path) + 1, f);
      UsedNext(base, d, h, o.disk);
      SameMarks(base, d, o.disk);
    } else {
      NoTrialNoChange(base, d, h);
      assert forall g :: FailingStart(base, d, g) == FailingStart(base, d, f);
    }
  }

  lemma SameMarks(base: Option<Installed>, d: Disk, d': Disk)
    requires d' == d.(health := d'.health) && Load(d'.health).bad == Load(d.health).bad
    ensures MarksLeft(base, d') == MarksLeft(base, d)
  {
  }

  lemma NoTrialNoChange(base: Option<Installed>, d: Disk, h: Health)
    requires var r := OnePass(base, d, h, true, true); r.Ends? && (r.chosen.Runs? ==> !r.chosen.trial)
    ensures var r := OnePass(base, d, h, true, true).chosen; !r.NothingComesUp? && r.disk == d
  {
    hide Best, Tried;
  }

  /** Without a trial record nothing is used up but what a marking pass would read. */
  lemma UsedIsNatural(base: Option<Installed>, d: Disk)
    requires d.health.trial == NoTrial
    ensures Used(base, d) == 0
  {
    hide Best;
  }

  lemma {:induction false} StartsAreCounted(base: Option<Installed>, d: Disk, fs: seq<Failure>)
    ensures TrialStarts(base, d, fs) <= TrialsLeft(base, d)
    ensures |fs| >= TrialsLeft(base, d) + MarksLeft(base, d) ==> SettledAt(base, AfterStarts(base, d, fs))
    decreases |fs|
  {
    hide FailingStart, TrialsLeft, MarksLeft;
    TrialsLeftIsBounded(base, d);
    if fs == [] {
      OneStart(base, d, Hung);
      TrialsLeftIsBounded(base, FailingStart(base, d, Hung).disk);
    } else {
      OneStart(base, d, fs[0]);
      var o := FailingStart(base, d, fs[0]);
      StartsAreCounted(base, o.disk, fs[1..]);
      if SettledAt(base, d) {
        assert o == Outcome(d, false);
        SettledStays(base, d, fs);
      }
    }
  }

  lemma {:induction false} SettledStays(base: Option<Installed>, d: Disk, fs: seq<Failure>)
    requires SettledAt(base, d)
    ensures AfterStarts(base, d, fs) == d && TrialStarts(base, d, fs) == 0
    decreases |fs|
  {
    hide FailingStart;
    if fs != [] {
      assert FailingStart(base, d, fs[0]) == Outcome(d, false);
      SettledStays(base, d, fs[1..]);
    }
  }

  /** With the installed trees fixed and every start on trial failing, in whatever way: at most
      2 * TRIES starts are on trial, and from the (2 * TRIES + 2)-nd start on the same tree
      runs without a trial.  For every base, layout and health file; a count below zero in
      that file, which no step writes, is what it would put off. */
  lemma FailingStartsSettle(base: Option<Installed>, d: Disk, fs: seq<Failure>)
    ensures TrialStarts(base, d, fs) <= 2 * TRIES + Below0(d.health.trial)
    ensures |fs| >= 2 * TRIES + 2 + Below0(d.health.trial) ==> SettledAt(base, AfterStarts(base, d, fs))
  {
    hide TrialsLeft, MarksLeft;
    TrialsLeftIsBounded(base, d);
    MarksAreFew(base, d);
    StartsAreCounted(base, d, fs);
  }
}
