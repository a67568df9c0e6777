/**
 What health.json remembers over whole runs: a tree that came up healthy has no more trials, and
 a tree that was marked bad is not taken again - until 32 others have pushed it out of its list.
 */
module WitnessHealthy {
  import opened Wrappers
  import opened Release
  import opened WitnessBoot
  import opened WitnessRuns

  // ----- a place in a list of which the last 32 are read -----

  /** x is on the list, and what stands behind it is of others. */
  predicate Stands(list: seq<Path>, x: Path, others: set<Path>) {
    exists k :: 0 <= k < |list| && Behind(list, k, x, others)
  }

  /** x stands at k, and behind it each of others at most once. */
  predicate Behind(list: seq<Path>, k: nat, x: Path, others: set<Path>)
    requires k < |list|
  {
    && list[k] == x
    && (forall i :: k < i < |list| ==> list[i] in others)
    && Distinct(list[k + 1..])
  }

  predicate Distinct(list: seq<Path>) {
    forall i, j :: 0 <= i < j < |list| ==> list[i] != list[j]
  }

  lemma {:induction false} DistinctAreFew(list: seq<Path>, others: set<Path>)
    requires forall i :: 0 <= i < |list| ==> list[i] in others
    requires Distinct(list)
    ensures |list| <= |others|
  {
    if list != [] {
      var n := |list| - 1;
      DistinctAreFew(list[..n], others - {list[n]});
    }
  }

  /** With fewer than 32 others x is among the last 32. */
  lemma StandsRead(list: seq<Path>, x: Path, others: set<Path>)
    requires Stands(list, x, others) && |others| < 32
    ensures x in Last(list, 32) && Stands(Last(list, 32), x, others)
  {
    var k :| 0 <= k < |list| && Behind(list, k, x, others);
    var back := list[k + 1..];
    assert forall i :: 0 <= i < |back| ==> back[i] == list[k + 1 + i];
    DistinctAreFew(back, others);
    if |list| > 32 {
      var m := |list| - 32;
      assert Last(list, 32) == list[m..];
      assert forall i :: 0 <= i < 32 ==> list[m..][i] == list[m + i];
      assert list[m..][k - m + 1..] == list[k + 1..];
      assert Behind(list[m..], k - m, x, others);
    }
  }

  lemma StandsBefore(list: seq<Path>, x: Path, others: set<Path>, y: Path)
    requires Stands(list, x, others) && y !in list && y in others
    ensures Stands(list + [y], x, others)
  {
    var k :| 0 <= k < |list| && Behind(list, k, x, others);
    assert (list + [y])[k + 1..] == list[k + 1..] + [y];
    assert Behind(list + [y], k, x, others);
  }

  lemma MoreOthers(list: seq<Path>, x: Path, others: set<Path>, more: set<Path>)
    requires Stands(list, x, others) && others <= more
    ensures Stands(list, x, more)
  {
    var k :| 0 <= k < |list| && Behind(list, k, x, others);
    assert Behind(list, k, x, more);
  }

  lemma StandsLast(list: seq<Path>, x: Path)
    ensures Stands(list + [x], x, {})
  {
    assert Behind(list + [x], |list|, x, {});
  }

  lemma {:induction false} WithoutInParts(a: seq<Path>, b: seq<Path>, y: Path)
    ensures Without(a + b, y) == Without(a, y) + Without(b, y)
  {
    if a == [] {
      assert a + b == b;
    } else {
      assert (a + b)[1..] == a[1..] + b;
      WithoutInParts(a[1..], b, y);
    }
  }

  lemma StandsWithout(list: seq<Path>, x: Path, others: set<Path>, y: Path)
    requires Stands(list, x, others) && y != x
    ensures Stands(Without(list, y), x, others)
  {
    var k :| 0 <= k < |list| && Behind(list, k, x, others);
    var front, back := list[..k], list[k + 1..];
    assert list == front + ([x] + back);
    WithoutInParts(front, [x] + back, y);
    WithoutInParts([x], back, y);
    assert [x][1..] == [] && Without([x], y) == [x];
    forall i | 0 <= i < |back| ensures back[i] in others {
      assert back[i] == list[k + 1 + i];
    }
    WithoutKeeps(back, y);
    StandsBetween(Without(front, y), x, Without(back, y), others);
  }

  lemma StandsBetween(front: seq<Path>, x: Path, back: seq<Path>, others: set<Path>)
    requires forall z :: z in back ==> z in others
    requires Distinct(back)
    ensures Stands(front + ([x] + back), x, others)
  {
    var list := front + ([x] + back);
    assert forall i :: |front| < i < |list| ==> list[i] == back[i - |front| - 1];
    assert list[|front| + 1..] == back;
    assert Behind(list, |front|, x, others);
  }

  lemma {:induction false} WithoutKeeps(list: seq<Path>, y: Path)
    requires Distinct(list)
    ensures Distinct(Without(list, y))
  {
    if list != [] {
      WithoutKeeps(list[1..], y);
      var rest := Without(list[1..], y);
      forall j | 0 <= j < |list[1..]| ensures list[1..][j] != list[0] {
        assert list[1..][j] == list[j + 1];
      }
      assert list[0] !in rest;
      if list[0] != y {
        assert Without(list, y) == [list[0]] + rest;
        OneInFront(list[0], rest);
      }
    }
  }

  lemma OneInFront(x: Path, rest: seq<Path>)
    requires x !in rest && Distinct(rest)
    ensures Distinct([x] + rest)
  {
    var r := [x] + rest;
    assert forall i :: 0 < i < |r| ==> r[i] == rest[i - 1];
  }

  // ----- what came up -----

  /** The tree that comes up healthy with this step. */
  function Came(w: World, step: Step): Option<Path> {
    if step.ComesUp? && w.run.Some? && w.run.value.answered then Some(w.run.value.path) else None
  }

  /** The other trees that come up over a run. */
  function CameUp(w: World, steps: seq<Step>, p: Path): set<Path>
    decreases |steps|
  {
    if steps == [] then {}
    else
      var q := Came(w, steps[0]);
      (if q.Some? && q != Some(p) then {q.value} else {}) + CameUp(Next(w, steps[0]), steps[1..], p)
  }

  /** p is remembered as healthy, with no more than these behind it; it is not marked bad, nor on trial. */
  predicate Proven(d: Disk, p: Path, others: set<Path>) {
    && Stands(d.health.ok, p, others)
    && p !in Load(d.health).bad
    && !OnTrial(d.health, p)
  }

  /** Right after it came up, where it was not on the list before. */
  lemma ComesUpIsProven(w: World, p: Path)
    requires Came(w, ComesUp) == Some(p) && p !in Load(w.disk.health).ok
    ensures Proven(Next(w, ComesUp).disk, p, {})
  {
    StandsLast(Load(w.disk.health).ok, p);
  }

  /** The steps of a start of run, while p is remembered: it is not put on trial, not marked. */
  lemma StartKeepsProven(w: World, p: Path, others: set<Path>)
    requires Proven(w.disk, p, others) && |others| < 32
    ensures Proven(Started(w).disk, p, others)
    ensures MarkedNow(w.base, w.disk) != Some(p)
    ensures var r := Choose(Some(w.base), w.disk, true, true); r.Runs? && r.path == p ==> !r.trial
  {
    StandsRead(w.disk.health.ok, p, others);
    ChooseIs(Some(w.base), w.disk, true, true);
    hide Stands, Choose, Best, Tried;
    var h := Load(w.disk.health);
    PassKeepsProven(Some(w.base), w.disk, h, p);
    var r := OnePass(Some(w.base), w.disk, h, true, true);
    if r.Again? {
      PassKeepsProven(Some(w.base), r.disk, r.health, p);
      LoadedBad(r.health, p);
    }
  }

  lemma LoadedBad(h: Health, p: Path)
    requires p !in h.bad
    ensures p !in Load(h).bad
  {
  }

  lemma PassKeepsProven(base: Option<Installed>, d: Disk, h: Health, p: Path)
    requires p in h.ok && p !in h.bad && !OnTrial(h, p)
    ensures var r := OnePass(base, d, h, true, true);
            && (r.Again? ==> r.disk.failed.Some? && r.disk.failed != Some(p) && r.disk.health == r.health
                             && r.health.ok == h.ok && p !in r.health.bad && !OnTrial(r.health, p))
            && (r.Ends? && r.chosen.Runs? ==>
                  && (r.chosen.path == p ==> !r.chosen.trial)
                  && (r.chosen.disk == d || (r.chosen.disk.health.ok == h.ok && r.chosen.disk.health.bad == h.bad
                                             && !OnTrial(r.chosen.disk.health, p))))
  {
    hide Best, Tried;
  }

  /** Any other step but one in which others come up. */
  lemma StepKeepsProven(w: World, step: Step, p: Path, others: set<Path>)
    requires Proven(w.disk, p, others) && |others| < 32
    requires Came(w, step).Some? && Came(w, step) != Some(p) ==> Came(w, step).value in others
    ensures Proven(Next(w, step).disk, p, others)
  {
    StandsRead(w.disk.health.ok, p, others);
    hide Stands, Started, TakeUpdate;
    match step {
      case Start => StartKeepsProven(w, p, others);
      case ComesUp =>
        var q := Came(w, step);
        if q.Some? {
          LoadedBad(Load(w.disk.health).(bad := Without(Load(w.disk.health).bad, q.value)), p);
          if q.value !in Load(w.disk.health).ok {
            StandsBefore(Load(w.disk.health).ok, p, others, q.value);
          }
        }
      case Updates(b, retry, toLeader, mine, now) =>
        if FitName(b) && TakeUpdate(w.disk, b, retry, toLeader, mine, now).Took? {
          UpdateKeepsMarks(w.disk, b, retry, toLeader, mine, now);
          LoadedBad(TakeUpdate(w.disk, b, retry, toLeader, mine, now).disk.health, p);
        }
      case _ =>
        LoadedBad(Load(w.disk.health), p);
    }
  }

  /** What an update leaves of health.json: the marks, but that of its own tree when it is taken
      again; no trial but the one there was. */
  lemma UpdateKeepsMarks(d: Disk, b: Bundle, retry: bool, toLeader: bool, mine: Version, now: int)
    requires TakeUpdate(d, b, retry, toLeader, mine, now).Took?
    ensures var h, h' := Load(d.health), TakeUpdate(d, b, retry, toLeader, mine, now).disk.health;
            && h'.ok == h.ok
            && h'.bad == (if Update(NameOf(b)) in h.bad then Without(h.bad, Update(NameOf(b))) else h.bad)
            && (h'.trial == h.trial || h'.trial == NoTrial)
            && (Update(NameOf(b)) in h.bad ==> retry)
  {
    hide ReleaseKey, NameOf, Without, Last, BundlesKept, TreesKept;
    Relisted(d.health, Update(NameOf(b)));
  }

  /** A list that was read stays as it is when it is read again. */
  lemma Relisted(h: Health, p: Path)
    ensures var r := Load(h); Load(r) == r && Load(r.(bad := Without(r.bad, p))).bad == Without(r.bad, p)
    ensures forall t, v :: Load(Load(h).(trial := t, down := v)) == Load(h).(trial := t, down := v)
  {
  }

  lemma {:induction false} ProvenStays(w: World, steps: seq<Step>, p: Path, others: set<Path>)
    requires Proven(w.disk, p, others) && |others + CameUp(w, steps, p)| < 32
    ensures Proven(After(w, steps).disk, p, others + CameUp(w, steps, p))
    decreases |steps|
  {
    hide Proven, Next, Came;
    if steps != [] {
      var all := others + CameUp(w, steps, p);
      var one := others + if Came(w, steps[0]).Some? && Came(w, steps[0]) != Some(p) then {Came(w, steps[0]).value} else {};
      Fewer(one, all);
      ProvenWithMore(w.disk, p, others, one);
      StepKeepsProven(w, steps[0], p, one);
      assert one + CameUp(Next(w, steps[0]), steps[1..], p) == all;
      ProvenStays(Next(w, steps[0]), steps[1..], p, one);
    } else {
      assert others + CameUp(w, steps, p) == others;
    }
  }

  lemma Fewer(a: set<Path>, b: set<Path>)
    requires a <= b
    ensures |a| <= |b|
    decreases a
  {
    if x :| x in a {
      Fewer(a - {x}, b - {x});
    }
  }

  lemma ProvenWithMore(d: Disk, p: Path, others: set<Path>, more: set<Path>)
    requires Proven(d, p, others) && others <= more
    ensures Proven(d, p, more)
  {
    MoreOthers(d.health.ok, p, others, more);
  }

  /** Once a tree came up healthy that was not on the list, it is remembered: until 32 other trees
      came up it is not marked bad, and no start puts it on trial. */
  lemma HealthyIsRemembered(w: World, steps: seq<Step>, p: Path)
    requires Came(w, ComesUp) == Some(p) && p !in Load(w.disk.health).ok
    requires |CameUp(Next(w, ComesUp), steps, p)| < 32
    ensures var v := After(Next(w, ComesUp), steps);
            && p in Load(v.disk.health).ok && !IsBad(v.disk, p) && !OnTrial(v.disk.health, p)
            && MarkedNow(v.base, v.disk) != Some(p)
            && var r := Choose(Some(v.base), v.disk, true, true); r.Runs? && r.path == p ==> !r.trial
  {
    hide Next, Choose, MarkedNow, CameUp, Stands, Came, After;
    var others := CameUp(Next(w, ComesUp), steps, p);
    ComesUpIsProven(w, p);
    ProvenStays(Next(w, ComesUp), steps, p, {});
    assert {} + others == others;
    var v := After(Next(w, ComesUp), steps);
    StartKeepsProven(v, p, others);
    StandsRead(v.disk.health.ok, p, others);
  }

  lemma PassTrial(base: Option<Installed>, d: Disk, h: Health)
    ensures var r := OnePass(base, d, h, true, true);
            && (r.Again? ==> r.health.ok == h.ok)
            && (r.Ends? && r.chosen.Runs? && r.chosen.trial ==> r.chosen.path !in h.ok && r.chosen.disk.health.ok == h.ok)
  {
    hide Best, Tried, Usable, Candidates, GoneBack, Previous;
  }

  /** So every trial that ends well is such a case: a tree on trial is not on the list. */
  lemma TrialsAreUnproven(base: Option<Installed>, d: Disk)
    ensures var r := Choose(base, d, true, true); r.Runs? && r.trial ==> r.path !in Load(r.disk.health).ok
  {
    hide Choose, OnePass;
    ChooseIs(base, d, true, true);
    var h := Load(d.health);
    PassTrial(base, d, h);
    var r := OnePass(base, d, h, true, true);
    if r.Again? {
      PassTrial(base, r.disk, r.health);
    }
  }

  /** Coming up again renews nothing: with 31 others behind it a tree is forgotten as the next one
      comes up, though it came up again right before that. */
  lemma ComingUpAgainRenewsNothing(d: Disk, p: Path, q: Path)
    requires var ok := Load(d.health).ok; |ok| == 32 && ok[0] == p && p !in ok[1..] && q !in ok
    ensures var again := MarkedOk(d, p);
            p in Load(again.health).ok && p !in Load(MarkedOk(again, q).health).ok
  {
    var ok := Load(d.health).ok;
    var again := MarkedOk(d, p);
    assert again.health.ok == ok && Last(ok, 32) == ok;
    assert MarkedOk(again, q).health.ok == ok + [q];
    assert Last(ok + [q], 32) == ok[1..] + [q];
  }

  // ----- what was marked bad -----

  /** The tree that is marked bad with this step. */
  function Marked(w: World, step: Step): Option<Path> {
    if step.Start? then MarkedNow(w.base, w.disk) else None
  }

  /** The other trees that are marked bad over a run. */
  function MarkedOver(w: World, steps: seq<Step>, p: Path): set<Path>
    decreases |steps|
  {
    if steps == [] then {}
    else
      var q := Marked(w, steps[0]);
      (if q.Some? && q != Some(p) then {q.value} else {}) + MarkedOver(Next(w, steps[0]), steps[1..], p)
  }

  /** What takes the mark of p back: it comes up after all, or an update by hand takes it again. */
  predicate TakesBack(w: World, step: Step, p: Path) {
    || Came(w, step) == Some(p)
    || (step.Updates? && step.retry && FitName(step.bundle) && p == Update(NameOf(step.bundle)))
  }

  predicate NeverTaken(w: World, steps: seq<Step>, p: Path)
    decreases |steps|
  {
    steps != [] ==> !TakesBack(w, steps[0], p) && NeverTaken(Next(w, steps[0]), steps[1..], p)
  }

  /** What one start does to the list. */
  lemma StartMarks(w: World)
    ensures var h := Load(w.disk.health);
            var q := MarkedNow(w.base, w.disk);
            var d := Started(w).disk;
            && (q.None? ==> d.health.bad == h.bad || d == w.disk)
            && (q.Some? && Choose(Some(w.base), w.disk, true, true).Runs? ==> d.health.bad == h.bad + [q.value] && q.value !in h.bad)
            && Choose(Some(w.base), w.disk, true, true).Runs?
  {
    hide Choose, OnePass;
    ChooseIs(Some(w.base), w.disk, true, true);
    TwoPassesAreEnough(Some(w.base), w.disk, true, true);
    HasCandidate(w.base, w.disk);
    var h := Load(w.disk.health);
    var r := OnePass(Some(w.base), w.disk, h, true, true);
    PassMarks(Some(w.base), w.disk, h);
    if r.Again? {
      PassMarks(Some(w.base), r.disk, r.health);
    }
  }

  lemma HasCandidate(base: Installed, d: Disk)
    ensures Candidates(Some(base), d) != []
  {
  }

  lemma PassMarks(base: Option<Installed>, d: Disk, h: Health)
    ensures var r := OnePass(base, d, h, true, true);
            && (r.Again? ==> r.disk.failed.Some? && r.disk.health == r.health && r.health.bad == h.bad + [r.disk.failed.value]
                             && r.disk.failed.value !in h.bad)
            && (r.Ends? && r.chosen.Runs? ==> r.chosen.disk == d || r.chosen.disk.health.bad == h.bad)
  {
    hide Best, Tried, Candidates, GoneBack, Previous;
  }

  lemma StandsLoaded(d: Disk, p: Path, others: set<Path>)
    requires Stands(d.health.bad, p, others) && |others| < 32
    ensures IsBad(d, p) && Stands(Load(d.health).bad, p, others)
  {
    StandsRead(d.health.bad, p, others);
  }

  lemma StartKeepsMark(w: World, p: Path, others: set<Path>)
    requires Stands(w.disk.health.bad, p, others) && |others| < 32
    requires MarkedNow(w.base, w.disk).Some? ==> MarkedNow(w.base, w.disk).value in others
    ensures Stands(Started(w).disk.health.bad, p, others)
  {
    StandsLoaded(w.disk, p, others);
    hide Stands, Started, MarkedNow, Load;
    StartMarks(w);
    if MarkedNow(w.base, w.disk).Some? {
      StandsBefore(Load(w.disk.health).bad, p, others, MarkedNow(w.base, w.disk).value);
    }
  }

  lemma UpdateStands(w: World, step: Step, p: Path, others: set<Path>)
    requires Stands(w.disk.health.bad, p, others) && |others| < 32 && step.Updates? && !TakesBack(w, step, p)
    ensures Stands(Next(w, step).disk.health.bad, p, others)
  {
    StandsLoaded(w.disk, p, others);
    hide Stands, TakeUpdate, Load, FitName, NameOf;
    var h := Load(w.disk.health);
    var taken := TakeUpdate(w.disk, step.bundle, step.retry, step.toLeader, step.mine, step.now);
    if FitName(step.bundle) && taken.Took? {
      UpdateKeepsMarks(w.disk, step.bundle, step.retry, step.toLeader, step.mine, step.now);
      if Update(NameOf(step.bundle)) in h.bad {
        StandsWithout(h.bad, p, others, Update(NameOf(step.bundle)));
      }
    }
  }

  lemma StepKeepsMark(w: World, step: Step, p: Path, others: set<Path>)
    requires Stands(w.disk.health.bad, p, others) && |others| < 32 && !TakesBack(w, step, p)
    requires Marked(w, step).Some? ==> Marked(w, step).value in others
    ensures Stands(Next(w, step).disk.health.bad, p, others)
  {
    StandsLoaded(w.disk, p, others);
    hide Stands, Started, TakeUpdate, MarkedNow;
    var h := Load(w.disk.health);
    match step {
      case Start => StartKeepsMark(w, p, others);
      case ComesUp =>
        if Came(w, step).Some? {
          StandsWithout(h.bad, p, others, Came(w, step).value);
        }
      case Updates(_, _, _, _, _) => UpdateStands(w, step, p, others);
      case _ =>
    }
  }

  lemma {:induction false} MarkStays(w: World, steps: seq<Step>, p: Path, others: set<Path>)
    requires Stands(w.disk.health.bad, p, others) && |others + MarkedOver(w, steps, p)| < 32 && NeverTaken(w, steps, p)
    ensures Stands(After(w, steps).disk.health.bad, p, others + MarkedOver(w, steps, p))
    decreases |steps|
  {
    hide Stands, Next, Marked, TakesBack;
    if steps != [] {
      var all := others + MarkedOver(w, steps, p);
      var q := Marked(w, steps[0]);
      var one := others + if q.Some? && q != Some(p) then {q.value} else {};
      Fewer(one, all);
      MoreOthers(w.disk.health.bad, p, others, one);
      NotMarkedAgain(w, steps[0], p, one);
      StepKeepsMark(w, steps[0], p, one);
      assert one + MarkedOver(Next(w, steps[0]), steps[1..], p) == all;
      MarkStays(Next(w, steps[0]), steps[1..], p, one);
    } else {
      assert others + MarkedOver(w, steps, p) == others;
    }
  }

  lemma NotMarkedAgain(w: World, step: Step, p: Path, others: set<Path>)
    requires Stands(w.disk.health.bad, p, others) && |others| < 32
    ensures Marked(w, step) != Some(p)
  {
    StandsLoaded(w.disk, p, others);
    hide Stands, Started, MarkedNow;
    StartMarks(w);
  }

  /** Once a start marked a tree bad it stays marked, until it comes up after all, an update by
      hand takes it again, or 32 others are marked: no start runs it while anything else is left,
      and no update takes it by itself. */
  lemma MarkIsKept(w: World, steps: seq<Step>, p: Path, b: Bundle, toLeader: bool, mine: Version, now: int)
    requires MarkedNow(w.base, w.disk) == Some(p) && NeverTaken(Started(w), steps, p)
    requires |MarkedOver(Started(w), steps, p)| < 32
    ensures var v := After(Started(w), steps);
            && IsBad(v.disk, p)
            && (var r := Choose(Some(v.base), v.disk, true, true); r.Runs? && r.path == p ==> r.why == EverythingFailed)
            && (p == Update(NameOf(b)) ==> Next(v, Updates(b, false, toLeader, mine, now)) == v)
  {
    hide MarkedNow, Choose, Stands, MarkedOver, NeverTaken, Started, After;
    var others := MarkedOver(Started(w), steps, p);
    StartMarks(w);
    StandsLast(Load(w.disk.health).bad, p);
    MarkStays(Started(w), steps, p, {});
    assert {} + others == others;
    var v := After(Started(w), steps);
    StandsLoaded(v.disk, p, others);
    MarkedDoesNotRun(Some(v.base), v.disk, p);
  }

  lemma MarkedDoesNotRun(base: Option<Installed>, d: Disk, p: Path)
    requires IsBad(d, p)
    ensures var r := Choose(base, d, true, true); r.Runs? && r.path == p ==> r.why == EverythingFailed
  {
    hide Choose, OnePass;
    ChooseIs(base, d, true, true);
    var h := Load(d.health);
    PassSkips(base, d, h, p);
    PassMarks(base, d, h);
    var r := OnePass(base, d, h, true, true);
    if r.Again? {
      PassSkips(base, r.disk, r.health, p);
    }
  }

  lemma PassSkips(base: Option<Installed>, d: Disk, h: Health, p: Path)
    requires p in h.bad
    ensures var r := OnePass(base, d, h, true, true); r.Ends? && r.chosen.Runs? && r.chosen.path == p ==> r.chosen.why == EverythingFailed
  {
    hide Best, Tried, Candidates, GoneBack, Previous;
  }
}
