/**
 What holds over whole runs of the witness: any interleaving of starts, the marks a running
 witness sets, updates and new bases, from an empty updates directory on.
 */
module WitnessRuns {
  import opened Wrappers
  import opened Release
  import opened WitnessBoot

  // ----- one call of choose -----

  /** After a pass that marked a tree bad the next one ends, whatever the files say: the mark
      cleared the trial, so nothing can be marked again.  Something is left to run, but where
      both links name the one tree there is. */
  lemma SecondPassEnds(base: Option<Installed>, d: Disk, h: Health, counting: bool, saves: bool)
    requires OnePass(base, d, h, counting, saves).Again?
    ensures var r := OnePass(base, d, h, counting, saves);
            var s := OnePass(base, r.disk, r.health, counting, saves);
            s.Ends? && (s.chosen.Runs? <==> base.Some? || d.current != d.previous)
  {
    hide *;
    var r := OnePass(base, d, h, counting, saves);
    MarkClearsTrial(base, d, h, counting, saves);
    EndsWithoutTrial(base, r.disk, r.health, counting, saves);
    CandidatesAfterMark(base, d, h, counting, saves);
  }

  lemma MarkClearsTrial(base: Option<Installed>, d: Disk, h: Health, counting: bool, saves: bool)
    requires OnePass(base, d, h, counting, saves).Again?
    ensures OnePass(base, d, h, counting, saves).health.trial == NoTrial
  {
    hide Best, Candidates, Usable, Previous, GoneBack;
  }

  lemma EndsWithoutTrial(base: Option<Installed>, d: Disk, h: Health, counting: bool, saves: bool)
    requires h.trial == NoTrial
    ensures var s := OnePass(base, d, h, counting, saves);
            s.Ends? && (s.chosen.Runs? <==> Candidates(base, d) != [])
  {
    hide Best, Candidates, Usable, Previous;
  }

  lemma CandidatesAfterMark(base: Option<Installed>, d: Disk, h: Health, counting: bool, saves: bool)
    requires OnePass(base, d, h, counting, saves).Again?
    ensures Candidates(base, OnePass(base, d, h, counting, saves).disk) != [] <==> base.Some? || d.current != d.previous
  {
    hide Best, Less, ReleaseKey, Tried;
    var found := Candidates(base, d);
    var best := Best(h, Usable(found, h.bad)).path;
    var r := OnePass(base, d, h, counting, saves);
    if best.Base? {
      assert Candidates(base, r.disk) == found;
    } else if base.Some? {
      assert Candidates(base, r.disk)[0].path.Base?;
    } else {
      assert |found| <= 1;
      assert Previous(d, h.bad + [best]).Some? <==> d.current != d.previous;
    }
  }

  /** The loop makes at most two of its passes, so 'no code here comes up healthy' is never
      said: for every health file, every layout of the directory and every base. */
  lemma TwoPassesAreEnough(base: Option<Installed>, d: Disk, counting: bool, saves: bool)
    ensures Choose(base, d, counting, saves) == ChooseFrom(base, d, Load(d.health), counting, saves, 2)
    ensures Choose(base, d, counting, saves) != NothingComesUp
    ensures Choose(base, d, counting, saves).NoCode? ==>
              Candidates(base, d) == [] || (base.None? && d.current == d.previous)
  {
    var h := Load(d.health);
    var r := OnePass(base, d, h, counting, saves);
    assert ChooseFrom(base, d, h, counting, saves, 4) == Choose(base, d, counting, saves);
    if r.Again? {
      SecondPassEnds(base, d, h, counting, saves);
      var s := OnePass(base, r.disk, r.health, counting, saves);
      assert ChooseFrom(base, r.disk, r.health, counting, saves, 3) == s.chosen;
      assert ChooseFrom(base, r.disk, r.health, counting, saves, 1) == s.chosen;
    }
  }

  /** What choose returns, by the pass it ends with. */
  lemma ChooseIs(base: Option<Installed>, d: Disk, counting: bool, saves: bool)
    ensures var r := OnePass(base, d, Load(d.health), counting, saves);
            && (r.Ends? ==> Choose(base, d, counting, saves) == r.chosen)
            && (r.Again? ==>
                  var s := OnePass(base, r.disk, r.health, counting, saves);
                  s.Ends? && Choose(base, d, counting, saves) == s.chosen)
  {
    hide OnePass;
    var h := Load(d.health);
    var r := OnePass(base, d, h, counting, saves);
    assert ChooseFrom(base, d, h, counting, saves, 4) == Choose(base, d, counting, saves);
    if r.Again? {
      SecondPassEnds(base, d, h, counting, saves);
      assert ChooseFrom(base, r.disk, r.health, counting, saves, 3)
          == OnePass(base, r.disk, r.health, counting, saves).chosen;
    }
  }

  // ----- runs -----

  /** The witness that runs.  answered: it answered on its port. */
  datatype Running = Running(path: Path, trial: bool, answered: bool)

  /** A start on trial: whether it answered, was stopped on a signal after that, and whether
      it was found never to answer. */
  datatype Record = Record(path: Path, answered: bool, stopped: bool, spent: bool)

  /** log: the starts of the trial that is on record now, oldest first. */
  datatype World = World(base: Installed, disk: Disk, run: Option<Running>, log: seq<Record>)

  datatype Step =
    | Start
    | Answers
    | IsStopped
    | NeverAnswers
    | ComesUp
    | Updates(bundle: Bundle, retry: bool, toLeader: bool, mine: Version, now: int)
    | NewBase(base: Installed)

  function Begin(base: Installed): World {
    World(base, NOTHING, None, [])
  }

  /** The tree a start of run marks bad now. */
  function MarkedNow(base: Installed, d: Disk): Option<Path> {
    match OnePass(Some(base), d, Load(d.health), true, true)
    case Again(d', _) => d'.failed
    case Ends(_) => None
  }

  /** What of the log belongs to the trial on record after a start: it goes on when nothing was
      marked and no other tree is put on trial. */
  function Carried(w: World): seq<Record> {
    var t := w.disk.health.trial;
    match Choose(Some(w.base), w.disk, true, true)
    case Runs(path, trial, _, _) =>
      if MarkedNow(w.base, w.disk).None? && t.Trial? && (trial ==> t.path == path) then w.log else []
    case _ => w.log
  }

  function Started(w: World): World {
    match Choose(Some(w.base), w.disk, true, true)
    case Runs(path, trial, _, disk) =>
      World(w.base, disk, Some(Running(path, trial, false)),
            Carried(w) + if trial then [Record(path, false, false, false)] else [])
    case _ => w
  }

  /** The log with the record t: none without one. */
  function OfRecord(t: Trial, log: seq<Record>): seq<Record> {
    if t.Trial? then log else []
  }

  function Noted(w: World, note: Record -> Record): seq<Record> {
    if w.run.Some? && w.run.value.trial && w.log != [] then w.log[|w.log| - 1 := note(w.log[|w.log| - 1])]
    else w.log
  }

  /** What the check of a bundle leaves of its name: a release of the right form, and the
      first digits of a whole digest. */
  predicate FitName(b: Bundle) {
    TreeName(NameOf(b)) && |b.digest| == 64
  }

  /** A step the witness cannot take now changes nothing. */
  function Next(w: World, step: Step): World {
    match step
    case Start => Started(w)
    case Answers =>
      if w.run.None? then w
      else World(w.base, MarkedUp(w.disk, w.run.value.path), Some(w.run.value.(answered := true)),
                 Noted(w, (r: Record) => r.(answered := true)))
    case IsStopped =>
      if w.run.None? || !w.run.value.trial then w
      else w.(disk := MarkedStopped(w.disk, w.run.value.path),
              log := if w.run.value.answered then Noted(w, (r: Record) => r.(stopped := true)) else w.log)
    case NeverAnswers =>
      if w.run.None? || !w.run.value.trial || w.run.value.answered then w
      else w.(disk := SpentTrial(w.disk, w.run.value.path), log := Noted(w, (r: Record) => r.(spent := true)))
    case ComesUp =>
      if w.run.None? || !w.run.value.answered then w
      else
        var d := MarkedOk(w.disk, w.run.value.path);
        w.(disk := d, log := OfRecord(d.health.trial, w.log))
    case Updates(b, retry, toLeader, mine, now) =>
      if !FitName(b) then w
      else (match TakeUpdate(w.disk, b, retry, toLeader, mine, now)
            case Refused => w
            case Took(d) => w.(disk := d, log := OfRecord(d.health.trial, w.log)))
    case NewBase(base) => w.(base := base)
  }

  function After(w: World, steps: seq<Step>): World
    decreases |steps|
  {
    if steps == [] then w else After(Next(w, steps[0]), steps[1..])
  }

  // ----- the steps that can lose the way back -----

  /** The tree of b is in place and whole: an update leaves it as it is, with its time. */
  predicate Kept(d: Disk, b: Bundle) {
    var n := NameOf(b);
    n in d.files && d.files[n].Folder? && d.files[n].complete == b.digest && CodeAt(d, n).Some?
  }

  /** What previous names after an update to b. */
  function Behind(d: Disk, b: Bundle): Option<string> {
    if d.current.Some? && d.current.value != NameOf(b) then d.current else d.previous
  }

  /** The prune of an update to b takes a tree that update leaves a link on: its release holds
      '.tmp-' and it was unpacked more than an hour ago. */
  predicate PrunesHeld(d: Disk, b: Bundle, now: int) {
    || (Kept(d, b) && OldLeftover(d.files, now, NameOf(b)))
    || (Behind(d, b).Some? && OldLeftover(d.files, now, Behind(d, b).value))
  }

  /** Every step, but a base that is installed again while it is marked bad and no update is
      in place, and an update that prunes what it leaves a link on. */
  predicate Spares(w: World, step: Step) {
    match step
    case NewBase(base) => w.disk.current.Some? || !IsBad(w.disk, Base(base.at))
    case Updates(b, retry, _, _, now) =>
      !FitName(b) || (IsBad(w.disk, Update(NameOf(b))) && !retry) || !PrunesHeld(w.disk, b, now)
    case _ => true
  }

  predicate Spared(w: World, steps: seq<Step>)
    decreases |steps|
  {
    steps == [] || (Spares(w, steps[0]) && Spared(Next(w, steps[0]), steps[1..]))
  }

  // ----- the invariant -----

  /** The tree called n was unpacked whole. */
  predicate Whole(d: Disk, n: string) {
    && n in d.files && d.files[n].Folder? && d.files[n].code.Some? && d.files[n].complete != ""
    && TreeName(n)
  }

  predicate LinksGood(d: Disk, bad: seq<Path>) {
    && (d.current.Some? ==> Whole(d, d.current.value) && Update(d.current.value) !in bad)
    && (d.previous.Some? ==>
          d.current.Some? && d.previous != d.current
          && Whole(d, d.previous.value) && Update(d.previous.value) !in bad)
  }

  predicate SomethingUsable(base: Installed, d: Disk, bad: seq<Path>) {
    Base(base.at) !in bad || d.current.Some?
  }

  predicate CountsStarts(t: Trial) {
    t.Trial? ==> t.tries.Count? && t.tries.n >= 0
  }

  function FailedStarts(log: seq<Record>, p: Path): nat {
    if log == [] then 0
    else (if log[0].path == p && !(log[0].answered && log[0].stopped) then 1 else 0) + FailedStarts(log[1..], p)
  }

  predicate NeverAnswered(log: seq<Record>, p: Path) {
    exists r :: r in log && r.path == p && r.spent
  }

  /** What the trial record counts happened. */
  predicate Accounted(t: Trial, log: seq<Record>) {
    t.Trial? && t.tries.Count? ==>
      NeverAnswered(log, t.path) || t.tries.n <= FailedStarts(log, t.path) + (if t.up && t.stopped then 1 else 0)
  }

  /** The log is of the tree on record. */
  predicate OwnLog(t: Trial, log: seq<Record>) {
    if t.Trial? then forall r :: r in log ==> r.path == t.path else log == []
  }

  /** The trial record and the log say the same about the start that runs. */
  predicate InStep(w: World) {
    var t := w.disk.health.trial;
    w.run.Some? && w.run.value.trial && t.Trial? ==>
      && w.log != []
      && var last := w.log[|w.log| - 1];
         && last.path == t.path == w.run.value.path
         && last.answered == w.run.value.answered
         && (last.stopped ==> last.answered)
         && t.up == last.answered && t.stopped == last.stopped
  }

  predicate Inv(w: World) {
    var bad := Load(w.disk.health).bad;
    && LinksGood(w.disk, bad)
    && SomethingUsable(w.base, w.disk, bad)
    && CountsStarts(w.disk.health.trial)
    && Accounted(w.disk.health.trial, w.log)
    && OwnLog(w.disk.health.trial, w.log)
    && InStep(w)
  }

  // ----- a start keeps it -----

  /** A pass that marks p bad: what it left, and that p had used up its tries. */
  lemma MarkingPass(base: Installed, d: Disk, h: Health, saves: bool)
    requires LinksGood(d, h.bad) && SomethingUsable(base, d, h.bad)
    requires OnePass(Some(base), d, h, true, saves).Again?
    ensures var r := OnePass(Some(base), d, h, true, saves);
            && r.disk.failed.Some?
            && var p := r.disk.failed.value;
               && r.health.bad == h.bad + [p] && r.health.trial == NoTrial && r.health.ok == h.ok
               && Tried(h.trial, p) >= TRIES && p !in h.bad && p !in h.ok
               && LinksGood(r.disk, r.health.bad) && SomethingUsable(base, r.disk, r.health.bad)
               && r.disk.files == d.files
               && (saves ==> r.disk.health == r.health)
               && forall q :: Tried(r.health.trial, q) == 0
  {
    hide Best, Less, ReleaseKey;
  }

  /** A pass that ends picks a tree that holds code and is not marked bad. */
  lemma EndingPass(base: Installed, d: Disk, h: Health, saves: bool)
    requires LinksGood(d, h.bad) && SomethingUsable(base, d, h.bad)
    requires OnePass(Some(base), d, h, true, saves).Ends?
    ensures var r := OnePass(Some(base), d, h, true, saves).chosen;
            && r.Runs? && r.path !in h.bad && r.why != EverythingFailed
            && (r.path == Base(base.at) || (d.current.Some? && r.path == Update(d.current.value)))
            && (r.trial ==> r.path !in h.ok && Tried(h.trial, r.path) < TRIES
                            && r.disk == d.(health := h.(trial := Trial(r.path, Count(Tried(h.trial, r.path) + 1), false, false))))
            && (!r.trial ==> r.disk == d)
  {
    hide Best, Less, ReleaseKey, Tried;
  }

  lemma {:induction false} CountAppends(log: seq<Record>, r: Record, p: Path)
    ensures FailedStarts(log + [r], p) ==
            FailedStarts(log, p) + (if r.path == p && !(r.answered && r.stopped) then 1 else 0)
  {
    if log == [] {
      assert log + [r] == [r];
    } else {
      assert (log + [r])[1..] == log[1..] + [r];
      CountAppends(log[1..], r, p);
    }
  }

  /** Noting something about the start that runs changes only what is counted of its tree. */
  lemma CountNotes(log: seq<Record>, r: Record, p: Path)
    requires log != [] && log[|log| - 1].path == r.path
    ensures var was := log[|log| - 1];
            FailedStarts(log[|log| - 1 := r], p) ==
            FailedStarts(log, p)
            - (if was.path == p && !(was.answered && was.stopped) then 1 else 0)
            + (if r.path == p && !(r.answered && r.stopped) then 1 else 0)
    ensures log[|log| - 1].spent ==> r.spent ==> (NeverAnswered(log, p) ==> NeverAnswered(log[|log| - 1 := r], p))
    ensures !log[|log| - 1].spent ==> (NeverAnswered(log, p) ==> NeverAnswered(log[|log| - 1 := r], p))
  {
    var n := |log| - 1;
    assert log == log[..n] + [log[n]] && log[n := r] == log[..n] + [r];
    CountAppends(log[..n], log[n], p);
    CountAppends(log[..n], r, p);
    if NeverAnswered(log, p) {
      var x :| x in log && x.path == p && x.spent;
      if x in log[..n] {
        assert x in log[n := r];
      } else {
        assert r in log[n := r];
      }
    }
  }

  /** A tree a start marks bad never answered in one of the starts of the trial on record, or
      TRIES of them ended other than by a stop after it had answered. */
  lemma MarkedIsEarned(w: World)
    requires Inv(w)
    ensures var marked := MarkedNow(w.base, w.disk);
            marked.Some? ==>
              NeverAnswered(w.log, marked.value) || FailedStarts(w.log, marked.value) >= TRIES
  {
    var h := Load(w.disk.health);
    if OnePass(Some(w.base), w.disk, h, true, true).Again? {
      MarkingPass(w.base, w.disk, h, true);
    }
  }

  /** What a start leaves, from one pass or two. */
  lemma StartIs(w: World)
    requires Inv(w)
    ensures var h := Load(w.disk.health);
            var r := Choose(Some(w.base), w.disk, true, true);
            var marked := MarkedNow(w.base, w.disk);
            && r.Runs? && r.why != EverythingFailed && r.path !in Load(r.disk.health).bad
            && LinksGood(r.disk, Load(r.disk.health).bad)
            && SomethingUsable(w.base, r.disk, Load(r.disk.health).bad)
            && (r.path == Base(w.base.at) || (r.disk.current.Some? && r.path == Update(r.disk.current.value)))
            && (marked.Some? ==> r.path != marked.value)
            && (r.trial ==>
                  && r.path !in Load(r.disk.health).ok
                  && r.disk.health.trial ==
                     Trial(r.path, Count((if marked.Some? then 0 else Tried(h.trial, r.path)) + 1), false, false))
            && (!r.trial ==> r.disk.health.trial == if marked.Some? then NoTrial else h.trial)
  {
    hide OnePass, Tried;
    var h := Load(w.disk.health);
    var r := OnePass(Some(w.base), w.disk, h, true, true);
    TwoPassesAreEnough(Some(w.base), w.disk, true, true);
    if r.Again? {
      MarkingPass(w.base, w.disk, h, true);
      SecondPassEnds(Some(w.base), w.disk, h, true, true);
      EndingPass(w.base, r.disk, r.health, true);
      FewerBad(w.base, OnePass(Some(w.base), r.disk, r.health, true, true).chosen.disk, r.health);
      assert Choose(Some(w.base), w.disk, true, true) == OnePass(Some(w.base), r.disk, r.health, true, true).chosen;
    } else {
      EndingPass(w.base, w.disk, h, true);
      FewerBad(w.base, r.chosen.disk, h);
      assert Choose(Some(w.base), w.disk, true, true) == r.chosen;
    }
  }

  /** What is read back of the list of bad trees holds no more than what was written. */
  lemma FewerBad(base: Installed, d: Disk, h: Health)
    requires d.health.bad == h.bad || Load(d.health).bad == h.bad
    ensures LinksGood(d, h.bad) ==> LinksGood(d, Load(d.health).bad)
    ensures SomethingUsable(base, d, h.bad) ==> SomethingUsable(base, d, Load(d.health).bad)
    ensures forall p :: p in Load(d.health).bad ==> p in h.bad
  {
  }

  lemma StartKeepsInv(w: World)
    requires Inv(w)
    ensures Inv(Started(w))
  {
    hide OnePass, Tried, Choose, LinksGood, SomethingUsable, FailedStarts, NeverAnswered;
    StartIs(w);
    var h := Load(w.disk.health);
    var r := Choose(Some(w.base), w.disk, true, true);
    var kept := Carried(w);
    var begun := Record(r.path, false, false, false);
    NothingFailed(r.path);
    if r.trial {
      assert Started(w).log == kept + [begun];
      TrialCounts(h.trial, w.log, r.path);
      OtherTrial(h.trial, r.path);
      CountAppends(kept, begun, r.path);
      SpentAppends(kept, begun, r.path);
    } else {
      assert Started(w).log == kept + [] == kept;
    }
  }

  lemma NothingFailed(p: Path)
    ensures FailedStarts([], p) == 0 && !NeverAnswered([], p)
  {
  }

  lemma OtherTrial(t: Trial, p: Path)
    ensures !t.Trial? || t.path != p ==> Tried(t, p) == 0
  {
  }

  /** The starts a trial has behind it are failed starts in the log. */
  lemma TrialCounts(t: Trial, log: seq<Record>, p: Path)
    requires Accounted(t, log) && CountsStarts(t)
    ensures Tried(t, p) >= 0
    ensures NeverAnswered(log, p) || Tried(t, p) <= FailedStarts(log, p)
  {
  }

  lemma SpentAppends(log: seq<Record>, r: Record, p: Path)
    ensures NeverAnswered(log, p) ==> NeverAnswered(log + [r], p)
  {
    if NeverAnswered(log, p) {
      var x :| x in log && x.path == p && x.spent;
      assert x in log + [r];
    }
  }

  /** A mark in health.json next to its note in the log: the trees, links and lists stay. */
  lemma MarkedTogether(w: World, w': World, noted: Record)
    requires Inv(w) && w.run.Some? && w.run.value.trial && w.disk.health.trial.Trial?
    requires w'.base == w.base && w'.disk == w.disk.(health := w'.disk.health)
    requires w'.disk.health == w.disk.health || w'.disk.health == Load(w.disk.health).(trial := w'.disk.health.trial)
    requires w'.log == w.log[|w.log| - 1 := noted]
    requires noted.path == w.log[|w.log| - 1].path && (w.log[|w.log| - 1].spent ==> noted.spent)
    requires w'.run.Some? && w'.run.value.path == w.run.value.path && w'.run.value.trial
    requires InStep(w') && CountsStarts(w'.disk.health.trial)
    requires var t, t' := w.disk.health.trial, w'.disk.health.trial;
             t'.Trial? && t'.path == t.path && (t'.tries == t.tries || noted.spent)
    ensures Inv(w')
  {
    hide FailedStarts, NeverAnswered, Whole;
    CountNotes(w.log, noted, w.disk.health.trial.path);
    NotedIsOwn(w.disk.health.trial, w.log, noted);
    if noted.spent {
      SpentNow(w'.log, noted);
    }
    LinksAreOfFiles(w.disk, w'.disk);
  }

  lemma NotedIsOwn(t: Trial, log: seq<Record>, noted: Record)
    requires t.Trial? && OwnLog(t, log) && log != [] && noted.path == t.path
    ensures OwnLog(t, log[|log| - 1 := noted])
  {
    forall r | r in log[|log| - 1 := noted] ensures r.path == t.path {
      assert r in log || r == noted;
    }
  }

  /** The marks of the witness that runs. */
  lemma AnsweringKeepsInv(w: World)
    requires Inv(w)
    ensures Inv(Next(w, Answers))
  {
    hide FailedStarts, NeverAnswered, Whole;
    if w.run.Some? && w.run.value.trial && w.disk.health.trial.Trial? {
      MarkedTogether(w, Next(w, Answers), w.log[|w.log| - 1].(answered := true));
    } else {
      LinksAreOfFiles(w.disk, Next(w, Answers).disk);
    }
  }

  lemma StoppingKeepsInv(w: World)
    requires Inv(w)
    ensures Inv(Next(w, IsStopped))
  {
    hide FailedStarts, NeverAnswered, Whole;
    if w.run.Some? && w.run.value.trial && w.disk.health.trial.Trial? {
      var last := w.log[|w.log| - 1];
      var noted := if w.run.value.answered then last.(stopped := true) else last;
      assert w.log[|w.log| - 1 := last] == w.log;
      MarkedTogether(w, Next(w, IsStopped), noted);
    }
  }

  lemma SpendingKeepsInv(w: World)
    requires Inv(w)
    ensures Inv(Next(w, NeverAnswers))
  {
    hide FailedStarts, NeverAnswered, Whole;
    if w.run.Some? && w.run.value.trial && !w.run.value.answered && w.disk.health.trial.Trial? {
      MarkedTogether(w, Next(w, NeverAnswers), w.log[|w.log| - 1].(spent := true));
    }
  }

  lemma SpentNow(log: seq<Record>, r: Record)
    requires log != [] && log[|log| - 1] == r && r.spent
    ensures NeverAnswered(log, r.path)
  {
    assert r in log;
  }

  lemma ComingUpKeepsInv(w: World)
    requires Inv(w)
    ensures Inv(Next(w, ComesUp))
  {
    hide FailedStarts, NeverAnswered;
  }

  lemma NewBaseKeepsInv(w: World, base: Installed)
    requires Inv(w)
    ensures Inv(Next(w, NewBase(base))) <==> Spares(w, NewBase(base))
  {
    hide FailedStarts, NeverAnswered;
  }

  /** What a link names is pruned only as an old leftover. */
  lemma HeldTreesStay(d: Disk, now: int, keep: nat, n: string)
    requires n in Held(d) && Whole(d, n)
    ensures Whole(Pruned(d, now, keep), n) <==> !OldLeftover(d.files, now, n)
  {
    BundlesAreNoTrees(n);
  }

  lemma BundlesAreNoTrees(n: string)
    ensures BundleFile(n) ==> !TreeName(n)
  {
    if BundleFile(n) {
      assert n[|n| - 10] == BUNDLE_SUFFIX[2];
      assert !Hex('u');
    }
  }

  /** The bundle next to a tree is no tree. */
  lemma SuffixIsNoTree(n: string)
    ensures !TreeName(n + BUNDLE_SUFFIX)
  {
    var s := n + BUNDLE_SUFFIX;
    assert s[|s| - 10] == BUNDLE_SUFFIX[2];
    assert !Hex('u');
  }

  /** What an update leaves before its prune. */
  function Placed(d: Disk, b: Bundle, retry: bool, toLeader: bool, mine: Version, now: int): Disk {
    var name := NameOf(b);
    var d1 := if IsBad(d, Update(name)) then ForgottenBad(d, Update(name)) else d;
    var d2 := InstalledBundle(d1, b, now);
    var d3 := d2.(files := d2.files[name + BUNDLE_SUFFIX := Plain(now)]);
    var d4 := Switched(d3, name);
    var d5 := MarkedDown(d4, if toLeader then CodeAt(d4, name) else None);
    if ReleaseKey(b.version) == ReleaseKey(mine) then MarkedSame(d5, Update(name)) else d5
  }

  lemma UpdateIsPlacedAndPruned(d: Disk, b: Bundle, retry: bool, toLeader: bool, mine: Version, now: int)
    requires TakeUpdate(d, b, retry, toLeader, mine, now).Took?
    ensures TakeUpdate(d, b, retry, toLeader, mine, now).disk == Pruned(Placed(d, b, retry, toLeader, mine, now), now, KEEP)
  {
    hide ReleaseKey, Pruned;
  }

  /** Before the prune both links are good, current is the tree the update came as and
      previous what current was, or stays; the trees behind the links have the time they had. */
  lemma PlacedLinks(d: Disk, b: Bundle, retry: bool, toLeader: bool, mine: Version, now: int)
    requires FitName(b) && LinksGood(d, Load(d.health).bad)
    ensures var d' := Placed(d, b, retry, toLeader, mine, now);
            && LinksGood(d', Load(d'.health).bad)
            && d'.current == Some(NameOf(b)) && d'.previous == Behind(d, b)
            && (PrunesHeld(d, b, now) <==> exists n :: n in Held(d') && OldLeftover(d'.files, now, n))
            && (d'.health.trial == NoTrial || d'.health.trial == d.health.trial)
            && (forall p :: p in Load(d'.health).bad ==> p in Load(d.health).bad)
  {
    hide *;
    var name := NameOf(b);
    var d1 := if IsBad(d, Update(name)) then ForgottenBad(d, Update(name)) else d;
    var d2 := InstalledBundle(d1, b, now);
    var d3 := d2.(files := d2.files[name + BUNDLE_SUFFIX := Plain(now)]);
    InstallIsOfFiles(d1, b, now);
    InstallKeepsLinks(d, d1, d3, b, now);
    var d4 := Switched(d3, name);
    SwitchKeepsLinks(d3, name);
    var d6 := Placed(d, b, retry, toLeader, mine, now);
    HealthWritten(d, d4, b, retry, toLeader, mine, now);
    LinksAreOfFiles(d4, d6);
    PlacedTimes(d, d1, d3, b, now);
    SwitchIsOfLinks(d3, name);
    HeldThen(d, b, d6, now);
  }

  lemma SwitchIsOfLinks(d: Disk, name: string)
    ensures Switched(d, name).files == d.files
  {
  }

  lemma InstallIsOfFiles(d: Disk, b: Bundle, now: int)
    ensures InstalledBundle(d, b, now) == d.(files := InstalledBundle(d, b, now).files)
  {
  }

  lemma HeldThen(d: Disk, b: Bundle, d': Disk, now: int)
    requires d'.current == Some(NameOf(b)) && d'.previous == Behind(d, b)
    requires OldLeftover(d'.files, now, NameOf(b)) <==> Kept(d, b) && OldLeftover(d.files, now, NameOf(b))
    requires Behind(d, b).Some? ==>
               (OldLeftover(d'.files, now, Behind(d, b).value) <==> OldLeftover(d.files, now, Behind(d, b).value))
    ensures PrunesHeld(d, b, now) <==> exists n :: n in Held(d') && OldLeftover(d'.files, now, n)
  {
    hide OldLeftover, Kept, Behind, NameOf;
    assert NameOf(b) in Held(d');
    if Behind(d, b).Some? {
      assert Behind(d, b).value in Held(d');
    }
  }

  /** What an update writes to health.json changes neither trial nor marks, nor the trees and links. */
  lemma HealthWritten(d: Disk, d4: Disk, b: Bundle, retry: bool, toLeader: bool, mine: Version, now: int)
    requires var d1 := if IsBad(d, Update(NameOf(b))) then ForgottenBad(d, Update(NameOf(b))) else d;
             d4 == Switched(InstalledBundle(d1, b, now).(files := InstalledBundle(d1, b, now).files[NameOf(b) + BUNDLE_SUFFIX := Plain(now)]), NameOf(b))
    ensures var d' := Placed(d, b, retry, toLeader, mine, now);
            && d'.files == d4.files && d'.current == d4.current && d'.previous == d4.previous
            && d'.health.trial == d4.health.trial && Load(d'.health).bad == Load(d4.health).bad
  {
    hide ReleaseKey, InstalledBundle, Switched, ForgottenBad, IsBad, NameOf, CodeAt;
  }

  /** The time of the tree an update puts in place, and of the one behind it. */
  lemma PlacedTimes(d: Disk, d1: Disk, d3: Disk, b: Bundle, now: int)
    requires FitName(b) && LinksGood(d, Load(d.health).bad)
    requires d1 == if IsBad(d, Update(NameOf(b))) then ForgottenBad(d, Update(NameOf(b))) else d
    requires d3 == d1.(files := InstalledBundle(d1, b, now).files[NameOf(b) + BUNDLE_SUFFIX := Plain(now)])
    ensures OldLeftover(d3.files, now, NameOf(b)) <==> Kept(d, b) && OldLeftover(d.files, now, NameOf(b))
    ensures Behind(d, b).Some? ==>
              (OldLeftover(d3.files, now, Behind(d, b).value) <==> OldLeftover(d.files, now, Behind(d, b).value))
    ensures Switched(d3, NameOf(b)).previous == Behind(d, b)
  {
    hide TreeName, Temporary;
    SuffixIsNoTree(NameOf(b));
  }

  /** After an update current is the tree it came as, whole and not bad, and previous what
      current was, or stays, exactly unless its prune takes one of those two. */
  lemma TakenUpdate(d: Disk, b: Bundle, retry: bool, toLeader: bool, mine: Version, now: int)
    requires FitName(b) && LinksGood(d, Load(d.health).bad)
    requires TakeUpdate(d, b, retry, toLeader, mine, now).Took?
    ensures var d' := TakeUpdate(d, b, retry, toLeader, mine, now).disk;
            && (LinksGood(d', Load(d'.health).bad) <==> !PrunesHeld(d, b, now))
            && d'.current == Some(NameOf(b)) && d'.previous == Behind(d, b)
            && (d'.health.trial == NoTrial || d'.health.trial == d.health.trial)
            && (forall p :: p in Load(d'.health).bad ==> p in Load(d.health).bad)
  {
    hide *;
    UpdateIsPlacedAndPruned(d, b, retry, toLeader, mine, now);
    PlacedLinks(d, b, retry, toLeader, mine, now);
    PruneKeepsLinks(Placed(d, b, retry, toLeader, mine, now), now);
  }

  /** A release that holds '.tmp-' goes with the first update to another one that comes more
      than an hour after it was unpacked. */
  lemma TemporaryReleaseGoes(d: Disk, b: Bundle, retry: bool, toLeader: bool, mine: Version, now: int,
                             other: Bundle, later: int)
    requires FitName(b) && LinksGood(d, Load(d.health).bad) && !Kept(d, b) && !PrunesHeld(d, b, now)
    requires TakeUpdate(d, b, retry, toLeader, mine, now).Took?
    requires NameOf(other) != NameOf(b) && Temporary(NameOf(b)) && later - now > LEFTOVER_AGE
    ensures PrunesHeld(TakeUpdate(d, b, retry, toLeader, mine, now).disk, other, later)
  {
    hide TakeUpdate, FitName, LinksGood, Kept, Temporary, NameOf;
    TakenUpdate(d, b, retry, toLeader, mine, now);
    NewTreeStays(d, b, retry, toLeader, mine, now);
  }

  lemma NewTreeStays(d: Disk, b: Bundle, retry: bool, toLeader: bool, mine: Version, now: int)
    requires FitName(b) && LinksGood(d, Load(d.health).bad) && !Kept(d, b) && !PrunesHeld(d, b, now)
    requires TakeUpdate(d, b, retry, toLeader, mine, now).Took?
    ensures var kept := TakeUpdate(d, b, retry, toLeader, mine, now).disk.files;
            NameOf(b) in kept && kept[NameOf(b)] == Folder(Some(b.version), b.digest, now)
  {
    hide TakeUpdate, TreeName, Temporary, LinksGood, ReleaseKey, Pruned, PrunesHeld, OldLeftover;
    UpdateIsPlacedAndPruned(d, b, retry, toLeader, mine, now);
    PlacedLinks(d, b, retry, toLeader, mine, now);
    SuffixIsNoTree(NameOf(b));
    var d' := Placed(d, b, retry, toLeader, mine, now);
    assert d'.files[NameOf(b)] == Folder(Some(b.version), b.digest, now) by {
      assert NameOf(b) != NameOf(b) + BUNDLE_SUFFIX;
    }
    assert NameOf(b) in Held(d');
    HeldTreesStay(d', now, KEEP, NameOf(b));
    StaysAsItIs(d', now, NameOf(b));
  }

  lemma StaysAsItIs(d: Disk, now: int, n: string)
    requires n in Pruned(d, now, KEEP).files
    ensures n in d.files && Pruned(d, now, KEEP).files[n] == d.files[n]
  {
  }

  lemma LinksAreOfFiles(d: Disk, d': Disk)
    requires d'.files == d.files && d'.current == d.current && d'.previous == d.previous
    requires forall p :: p in Load(d'.health).bad ==> p in Load(d.health).bad
    requires LinksGood(d, Load(d.health).bad)
    ensures LinksGood(d', Load(d'.health).bad)
  {
  }

  lemma InstallKeepsLinks(d: Disk, d1: Disk, d3: Disk, b: Bundle, now: int)
    requires FitName(b) && LinksGood(d, Load(d.health).bad)
    requires d1 == if IsBad(d, Update(NameOf(b))) then ForgottenBad(d, Update(NameOf(b))) else d
    requires d3 == d1.(files := InstalledBundle(d1, b, now).files[NameOf(b) + BUNDLE_SUFFIX := Plain(now)])
    ensures LinksGood(d3, Load(d3.health).bad)
    ensures Whole(d3, NameOf(b)) && Update(NameOf(b)) !in Load(d3.health).bad
    ensures d3.health.trial == NoTrial || d3.health.trial == d.health.trial
    ensures forall p :: p in Load(d3.health).bad ==> p in Load(d.health).bad
  {
    hide TreeName, Temporary;
    SuffixIsNoTree(NameOf(b));
  }

  lemma SwitchKeepsLinks(d: Disk, name: string)
    requires LinksGood(d, Load(d.health).bad) && Whole(d, name) && Update(name) !in Load(d.health).bad
    ensures var d' := Switched(d, name);
            LinksGood(d', Load(d'.health).bad) && d'.current == Some(name) && d'.health == d.health
  {
    hide TreeName, Temporary;
  }

  lemma PruneIsOfFiles(d: Disk, now: int)
    ensures var d' := Pruned(d, now, KEEP);
            d'.health == d.health && d'.current == d.current && d'.previous == d.previous
  {
  }

  lemma PruneKeepsLinks(d: Disk, now: int)
    requires LinksGood(d, Load(d.health).bad)
    ensures var d' := Pruned(d, now, KEEP);
            d'.health == d.health && d'.current == d.current && d'.previous == d.previous
            && (LinksGood(d', Load(d'.health).bad) <==> forall n :: n in Held(d) ==> !OldLeftover(d.files, now, n))
  {
    hide Whole, Pruned, OldLeftover;
    PruneIsOfFiles(d, now);
    if d.current.Some? {
      HeldTreesStay(d, now, KEEP, d.current.value);
      assert d.current.value in Held(d);
    }
    if d.previous.Some? {
      HeldTreesStay(d, now, KEEP, d.previous.value);
      assert d.previous.value in Held(d);
    }
  }

  lemma UpdateKeepsInv(w: World, step: Step)
    requires Inv(w) && step.Updates?
    ensures Inv(Next(w, step)) <==> Spares(w, step)
  {
    hide FailedStarts, NeverAnswered, LinksGood, PrunesHeld, FitName;
    hide InstalledBundle, Pruned, MarkedDown, MarkedSame, ReleaseKey;
    if FitName(step.bundle) && TakeUpdate(w.disk, step.bundle, step.retry, step.toLeader, step.mine, step.now).Took? {
      TakenUpdate(w.disk, step.bundle, step.retry, step.toLeader, step.mine, step.now);
    }
  }

  lemma {:induction false} InvHolds(w: World, steps: seq<Step>)
    requires Inv(w) && Spared(w, steps)
    ensures Inv(After(w, steps))
    decreases |steps|
  {
    hide Inv, Next, Spares;
    if steps != [] {
      match steps[0] {
        case Start => StartKeepsInv(w); StepIsStart(w);
        case ComesUp => ComingUpKeepsInv(w);
        case NewBase(base) => NewBaseKeepsInv(w, base);
        case Updates(_, _, _, _, _) => UpdateKeepsInv(w, steps[0]);
        case Answers => AnsweringKeepsInv(w);
        case IsStopped => StoppingKeepsInv(w);
        case NeverAnswers => SpendingKeepsInv(w);
      }
      InvHolds(Next(w, steps[0]), steps[1..]);
    }
  }

  lemma StepIsStart(w: World)
    ensures Next(w, Start) == Started(w)
  {
  }

  // ----- the guarantees, over every run from an empty directory -----

  /** Both links name whole trees that are not marked bad, they differ, previous is set only
      where current is; the next start runs code that is not marked bad, and never because
      everything failed; if it marks a tree bad, another one runs, and the tree marked had its
      failed starts. */
  predicate WayBack(w: World) {
    var r := Choose(Some(w.base), w.disk, true, true);
    var marked := MarkedNow(w.base, w.disk);
    && LinksGood(w.disk, Load(w.disk.health).bad)
    && r.Runs? && r.why != EverythingFailed && r.path !in Load(r.disk.health).bad
    && (r.path == Base(w.base.at) || (r.disk.current.Some? && r.path == Update(r.disk.current.value)
                                     && Whole(r.disk, r.disk.current.value)))
    && (marked.Some? ==>
          && r.path != marked.value
          && (NeverAnswered(w.log, marked.value) || FailedStarts(w.log, marked.value) >= TRIES))
    && (r.trial ==> r.path !in Load(r.disk.health).ok)
  }

  lemma InvIsWayBack(w: World)
    requires Inv(w)
    ensures WayBack(w)
  {
    hide Choose, MarkedNow;
    StartIs(w);
    MarkedIsEarned(w);
  }

  /** Whatever happened so far, but for the two kinds of steps Spares leaves out. */
  lemma WayBackIsKept(base: Installed, steps: seq<Step>)
    requires Spared(Begin(base), steps)
    ensures WayBack(After(Begin(base), steps))
  {
    InvHolds(Begin(base), steps);
    InvIsWayBack(After(Begin(base), steps));
  }

  /** And those two kinds always lose it: the first step that is not spared ends the claim. */
  lemma WayBackEndsIff(base: Installed, steps: seq<Step>, step: Step)
    requires Spared(Begin(base), steps)
    ensures var w := After(Begin(base), steps);
            WayBack(Next(w, step)) <==> Spares(w, step)
  {
    hide Inv, WayBack, Next, Spares;
    var w := After(Begin(base), steps);
    BeginKeepsInv(base);
    InvHolds(Begin(base), steps);
    if Spares(w, step) {
      InvHolds(w, [step]);
      OneStepAfter(w, step);
      InvIsWayBack(Next(w, step));
    } else {
      UnsparedLoses(w, step);
    }
  }

  lemma BeginKeepsInv(base: Installed)
    ensures Inv(Begin(base))
  {
  }

  lemma OneStepAfter(w: World, step: Step)
    ensures After(w, [step]) == Next(w, step)
    ensures Spared(w, [step]) <==> Spares(w, step)
  {
    hide Next, Spares;
    assert [step][1..] == [];
  }

  lemma UnsparedLoses(w: World, step: Step)
    requires Inv(w) && !Spares(w, step)
    ensures !WayBack(Next(w, step))
  {
    hide Choose, MarkedNow, TakeUpdate, PrunesHeld, FailedStarts, NeverAnswered, LinksGood, FitName;
    if step.NewBase? {
      EverythingFailedIff(step.base, w.disk);
    } else {
      TakenIff(w.disk, step);
      TakenUpdate(w.disk, step.bundle, step.retry, step.toLeader, step.mine, step.now);
    }
  }

  lemma TakenIff(d: Disk, step: Step)
    requires step.Updates?
    ensures TakeUpdate(d, step.bundle, step.retry, step.toLeader, step.mine, step.now).Took?
       <==> !IsBad(d, Update(NameOf(step.bundle))) || step.retry
  {
    hide Pruned, ReleaseKey, InstalledBundle;
  }

  /** A start runs its base because everything failed exactly when that is marked bad and no
      update is in place. */
  lemma EverythingFailedIff(base: Installed, d: Disk)
    requires LinksGood(d, Load(d.health).bad) && CountsStarts(d.health.trial)
    ensures var r := Choose(Some(base), d, true, true);
            r.Runs? && r.why == EverythingFailed <==> d.current.None? && IsBad(d, Base(base.at))
  {
    hide OnePass, Choose;
    ChooseIs(Some(base), d, true, true);
    var h := Load(d.health);
    if SomethingUsable(base, d, h.bad) {
      var r := OnePass(Some(base), d, h, true, true);
      if r.Again? {
        MarkingPass(base, d, h, true);
        EndingPass(base, r.disk, r.health, true);
      } else {
        EndingPass(base, d, h, true);
      }
    } else {
      NothingUsable(base, d, h);
    }
  }

  lemma NothingUsable(base: Installed, d: Disk, h: Health)
    requires Base(base.at) in h.bad && d.current.None?
    ensures OnePass(Some(base), d, h, true, true) == Ends(Runs(Base(base.at), false, EverythingFailed, d))
  {
  }

  // ----- a start again with another trial record -----

  /** Two health files that prefer the same trees. */
  predicate SamePreference(h: Health, h': Health) {
    h'.down == h.down && h'.same == h.same
  }

  lemma {:induction false} HighestIsSame(h: Health, h': Health, best: Candidate, rest: seq<Candidate>)
    requires SamePreference(h, h')
    ensures Highest(h', best, rest) == Highest(h, best, rest)
    decreases |rest|
  {
    hide ReleaseKey, Less;
    if rest != [] {
      HighestIsSame(h, h', if Below(h, best, rest[0]) then rest[0] else best, rest[1..]);
    }
  }

  lemma {:induction false} HeldDownIsSame(h: Health, h': Health, found: seq<Candidate>)
    requires SamePreference(h, h')
    ensures HeldDown(h', found) == HeldDown(h, found)
  {
    if found != [] {
      HeldDownIsSame(h, h', found[1..]);
    }
  }

  lemma BestIsSame(h: Health, h': Health, usable: seq<Candidate>)
    requires SamePreference(h, h') && usable != []
    ensures Best(h', usable) == Best(h, usable)
  {
    HeldDownIsSame(h, h', usable);
    HighestIsSame(h, h', usable[0], usable[1..]);
  }

  /** The tree a pass put on trial is put on trial again, or marked bad, by what the record t
      says of it then. */
  lemma TrialGoesOn(base: Option<Installed>, d: Disk, h: Health, t: Trial, x: Health)
    requires var r := OnePass(base, d, h, true, true); r.Ends? && r.chosen.Runs? && r.chosen.trial
    ensures var p := OnePass(base, d, h, true, true).chosen.path;
            var h' := h.(trial := t);
            OnePass(base, d.(health := x), h', true, true) ==
            if Tried(t, p) >= TRIES then Failed(d.(health := x), h', p, true)
            else Ends(Runs(p, true, StartsTrial, d.(health := h'.(trial := Trial(p, Count(Tried(t, p) + 1), false, false)))))
  {
    hide Best, Tried;
    var d', h' := d.(health := x), h.(trial := t);
    var usable := Usable(Candidates(base, d), h.bad);
    BestIsSame(h, h', usable);
    assert Candidates(base, d') == Candidates(base, d);
    var best := Best(h, usable).path;
    assert Previous(d', h.bad) == Previous(d, h.bad);
  }
}
