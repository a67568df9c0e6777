/**
 The update the witness takes is the code its next start runs: the check of a bundle
 (witness.py, verify_bundle) against the choice the next start makes (witness_boot.py).
 */
module WitnessUpdates {
  import opened Wrappers
  import opened Release
  import opened WitnessBoot
  import opened WitnessRuns

  datatype Verdict = UpToDate | NewCode

  /** verify_bundle, past the signature and the digest.  here: the name of the bundle
      of the running tree, "" when it has none.  older: other code is taken too, not only newer. */
  function VerifyBundle(b: Bundle, mine: Version, here: string, older: bool, byHand: bool): Verdict {
    var theirs, ours := ReleaseKey(b.version), ReleaseKey(mine);
    if theirs == ours && (NameOf(b) == here || !(here != "" || byHand)) then UpToDate
    else if Less(theirs, ours) && !older then UpToDate
    else NewCode
  }

  /** A base newer than the code v would run in its place. */
  predicate NewerBase(base: Option<Installed>, d: Disk, v: Version) {
    base.Some? && !IsBad(d, Base(base.value.at)) && Less(ReleaseKey(v), ReleaseKey(base.value.version))
  }

  predicate Fallback(base: Option<Installed>, d: Disk) {
    (base.Some? && !IsBad(d, Base(base.value.at))) || Previous(d, Load(d.health).bad).Some?
  }

  /** What current names has used up its tries, and there is something to go back to. */
  predicate TrialSpent(base: Option<Installed>, d: Disk) {
    && d.current.Some?
    && Update(d.current.value) !in Load(d.health).ok
    && Tried(d.health.trial, Update(d.current.value)) >= TRIES
    && Fallback(base, d)
  }

  /** The tree current names is what is preferred: it is above the base, or ties with it and
      was taken for that. */
  predicate Preferred(base: Option<Installed>, d: Disk, v: Version) {
    && d.current.Some? && CodeAt(d, d.current.value) == Some(v) && !IsBad(d, Update(d.current.value))
    && d.health.down.None?
    && (base.Some? && !IsBad(d, Base(base.value.at)) ==>
          var kb, kv := ReleaseKey(base.value.version), ReleaseKey(v);
          Less(kb, kv) || (kb == kv && d.health.same == Some(Update(d.current.value))))
  }

  lemma {:induction false} NothingHeld(h: Health, found: seq<Candidate>)
    requires h.down.None?
    ensures HeldDown(h, found).None?
  {
    if found != [] {
      NothingHeld(h, found[1..]);
    }
  }

  lemma PreferredIsBest(base: Option<Installed>, d: Disk, v: Version)
    requires Preferred(base, d, v)
    ensures var usable := Usable(Candidates(base, d), Load(d.health).bad);
            && usable != [] && Best(Load(d.health), usable).path == Update(d.current.value)
            && (|usable| > 1 <==> base.Some? && !IsBad(d, Base(base.value.at)))
  {
    hide ReleaseKey, Less, HeldDown, Last;
    var h := Load(d.health);
    var found := Candidates(base, d);
    var usable := Usable(found, h.bad);
    var mine := Candidate(Update(d.current.value), v);
    NothingHeld(h, usable);
    if base.Some? {
      var b := Candidate(Base(base.value.at), base.value.version);
      assert found == [b, mine];
      assert found[1..] == [mine] && found[1..][1..] == [];
      if IsBad(d, b.path) {
        assert usable == [mine];
      } else {
        assert usable == [b, mine];
        assert usable[1..] == [mine] && usable[1..][1..] == [];
        assert Below(h, b, mine);
      }
    } else {
      assert found == [mine] && found[1..] == [];
      assert usable == [mine];
    }
  }

  /** A preferred tree starts, unless its tries are spent and there is something to go back to. */
  lemma PreferredStarts(base: Option<Installed>, d: Disk, v: Version)
    requires Preferred(base, d, v)
    ensures var r := Choose(base, d, true, true);
            (r.Runs? && r.path == Update(d.current.value)) <==> !TrialSpent(base, d)
  {
    hide Best, Tried, Choose, Usable, Candidates;
    PreferredIsBest(base, d, v);
    ChooseIs(base, d, true, true);
    var p := Update(d.current.value);
    var h := Load(d.health);
    var r := OnePass(base, d, h, true, true);
    if r.Again? {
      GoneFromCurrent(base, d, h);
      OnlyCandidatesStart(base, r.disk, r.health);
    }
  }

  /** A pass that marks what current names takes current off it. */
  lemma GoneFromCurrent(base: Option<Installed>, d: Disk, h: Health)
    requires d.current.Some? && OnePass(base, d, h, true, true).Again?
    requires Usable(Candidates(base, d), h.bad) != []
    requires Best(h, Usable(Candidates(base, d), h.bad)).path == Update(d.current.value)
    ensures OnePass(base, d, h, true, true).disk.current != d.current
  {
    hide Best, Tried;
  }

  lemma OnlyCandidatesStart(base: Option<Installed>, d: Disk, h: Health)
    ensures var r := OnePass(base, d, h, true, true);
            r.Ends? && r.chosen.Runs? && r.chosen.path.Update? ==>
              d.current == Some(r.chosen.path.name) && CodeAt(d, r.chosen.path.name).Some?
  {
    hide Best, Tried;
  }

  /** A tree kept for its digest holds the code of that digest. */
  predicate Genuine(d: Disk, b: Bundle) {
    var n := NameOf(b);
    n in d.files && d.files[n].Folder? && d.files[n].complete == b.digest && d.files[n].code.Some?
    ==> d.files[n].code == Some(b.version)
  }

  /** The tree of an update was in place already and goes with the prune of that update. */
  predicate PrunesItself(d: Disk, b: Bundle, now: int) {
    Kept(d, b) && OldLeftover(d.files, now, NameOf(b))
  }

  /** The tree an update puts in place, before its prune. */
  lemma PlacedTree(d: Disk, b: Bundle, retry: bool, toLeader: bool, mine: Version, now: int)
    requires FitName(b) && Genuine(d, b)
    ensures var d' := Placed(d, b, retry, toLeader, mine, now);
            && d'.current == Some(NameOf(b)) && Whole(d', NameOf(b)) && CodeAt(d', NameOf(b)) == Some(b.version)
            && (OldLeftover(d'.files, now, NameOf(b)) <==> PrunesItself(d, b, now))
  {
    hide ReleaseKey, TreeName, Temporary, Load, IsBad;
    SuffixIsNoTree(NameOf(b));
    assert NameOf(b) != NameOf(b) + BUNDLE_SUFFIX;
  }

  /** What an update writes to health.json. */
  lemma PlacedHealth(d: Disk, b: Bundle, retry: bool, toLeader: bool, mine: Version, now: int)
    requires FitName(b) && Genuine(d, b)
    ensures var d' := Placed(d, b, retry, toLeader, mine, now); var p := Update(NameOf(b));
            && d'.health.down == (if toLeader then Some(b.version) else None) && !IsBad(d', p)
            && (ReleaseKey(b.version) == ReleaseKey(mine) ==> d'.health.same == Some(p))
            && (forall q :: q != p ==> (IsBad(d', q) <==> IsBad(d, q)))
            && Load(d'.health).ok == Load(d.health).ok
            && d'.health.trial == (if IsBad(d, p) && OnTrial(d.health, p) then NoTrial else d.health.trial)
  {
    hide OnTrial, Last, Without, ReleaseKey, Placed, ForgottenBad, Load, NameOf, FitName, Genuine;
    var down := if toLeader then Some(b.version) else None;
    var p := Update(NameOf(b));
    var d1 := if IsBad(d, p) then ForgottenBad(d, p) else d;
    PlacedHealthIs(d, b, retry, toLeader, mine, now);
    ForgettingWrites(d, p);
    LoadsOnce(d1.health);
    LoadsOnce(Load(d1.health).(down := down));
  }

  lemma PlacedHealthIs(d: Disk, b: Bundle, retry: bool, toLeader: bool, mine: Version, now: int)
    requires FitName(b) && Genuine(d, b)
    ensures var down := if toLeader then Some(b.version) else None;
            var p := Update(NameOf(b));
            var d1 := if IsBad(d, p) then ForgottenBad(d, p) else d;
            Placed(d, b, retry, toLeader, mine, now).health ==
            if ReleaseKey(b.version) == ReleaseKey(mine) then MarkedSame(MarkedDown(d1, down), p).health
            else MarkedDown(d1, down).health
  {
    PlacedTree(d, b, retry, toLeader, mine, now);
    hide ReleaseKey, NameOf, IsBad, ForgottenBad, Load, FitName, Genuine, Whole, OldLeftover, PrunesItself;
  }

  lemma LoadsOnce(h: Health)
    ensures Load(h).down == h.down && Load(h).trial == h.trial && Load(h).same == h.same
    ensures forall v :: Load(Load(h).(down := v)) == Load(h).(down := v)
    ensures forall p :: Load(Load(h).(same := Some(p))) == Load(h).(same := Some(p))
  {
  }

  /** The mark and the trial of p are taken back, and nothing else. */
  lemma ForgettingWrites(d: Disk, p: Path)
    ensures var d' := if IsBad(d, p) then ForgottenBad(d, p) else d;
            && p !in Load(d'.health).bad
            && (forall q :: q != p ==> (q in Load(d'.health).bad <==> q in Load(d.health).bad))
            && Load(d'.health).ok == Load(d.health).ok
            && d'.health.trial == (if IsBad(d, p) && OnTrial(d.health, p) then NoTrial else d.health.trial)
  {
  }

  /** What an update does to health.json, and the code current names after it. */
  lemma UpdateWrites(d: Disk, b: Bundle, retry: bool, toLeader: bool, mine: Version, now: int)
    requires FitName(b) && Genuine(d, b)
    requires TakeUpdate(d, b, retry, toLeader, mine, now).Took?
    ensures var d' := TakeUpdate(d, b, retry, toLeader, mine, now).disk; var p := Update(NameOf(b));
            && d'.current == Some(NameOf(b))
            && CodeAt(d', NameOf(b)) == (if PrunesItself(d, b, now) then None else Some(b.version))
            && d'.health.down == (if toLeader then Some(b.version) else None) && !IsBad(d', p)
            && (ReleaseKey(b.version) == ReleaseKey(mine) ==> d'.health.same == Some(p))
            && (forall q :: q != p ==> (IsBad(d', q) <==> IsBad(d, q)))
            && Load(d'.health).ok == Load(d.health).ok
            && d'.health.trial == (if IsBad(d, p) && OnTrial(d.health, p) then NoTrial else d.health.trial)
  {
    hide *;
    PlacedTree(d, b, retry, toLeader, mine, now);
    PlacedHealth(d, b, retry, toLeader, mine, now);
    UpdateIsPlacedAndPruned(d, b, retry, toLeader, mine, now);
    var d1 := Placed(d, b, retry, toLeader, mine, now);
    CurrentIsHeld(d1);
    HeldCodeStays(d1, now, NameOf(b));
    PruneIsOfFiles(d1, now);
    SameMarks(d1, Pruned(d1, now, KEEP));
  }

  lemma CurrentIsHeld(d: Disk)
    ensures d.current.Some? ==> d.current.value in Held(d)
  {
  }

  lemma SameMarks(d: Disk, d': Disk)
    requires d'.health == d.health
    ensures forall q :: IsBad(d', q) <==> IsBad(d, q)
  {
  }

  lemma HeldCodeStays(d: Disk, now: int, n: string)
    requires n in Held(d) && Whole(d, n)
    ensures CodeAt(Pruned(d, now, KEEP), n) == if OldLeftover(d.files, now, n) then None else CodeAt(d, n)
  {
    HeldTreesStay(d, now, KEEP, n);
  }

  /** What current names and holds no code is not what starts. */
  lemma NoCodeNoStart(base: Option<Installed>, d: Disk)
    requires d.current.Some? && CodeAt(d, d.current.value).None?
    ensures var r := Choose(base, d, true, true); !(r.Runs? && r.path == Update(d.current.value))
  {
    hide OnePass, Choose;
    ChooseIs(base, d, true, true);
    var h := Load(d.health);
    OnlyCandidatesStart(base, d, h);
    var r := OnePass(base, d, h, true, true);
    if r.Again? {
      OnlyCandidatesStart(base, r.disk, r.health);
      SameVersions(base, d, h);
      assert VersionOf(base, r.disk, Update(d.current.value)) == VersionOf(base, d, Update(d.current.value));
    }
  }

  /** The base is preferred to the tree current names, code of version v. */
  predicate Outranked(base: Option<Installed>, d: Disk, v: Version)
    requires d.current.Some?
  {
    base.Some? && !IsBad(d, Base(base.value.at))
    && var k, kv := ReleaseKey(base.value.version), ReleaseKey(v);
       !Less(k, kv) && !(k == kv && d.health.same == Some(Update(d.current.value)))
  }

  /** The base has used up its tries and was never healthy. */
  predicate BaseSpent(base: Option<Installed>, d: Disk) {
    base.Some? && Base(base.value.at) !in Load(d.health).ok && Tried(d.health.trial, Base(base.value.at)) >= TRIES
  }

  /** With the base preferred, the tree current names starts exactly when the base is out of tries. */
  lemma OutrankedStarts(base: Option<Installed>, d: Disk, v: Version)
    requires d.current.Some? && CodeAt(d, d.current.value) == Some(v) && !IsBad(d, Update(d.current.value))
    requires d.health.down.None? && Outranked(base, d, v)
    ensures var r := Choose(base, d, true, true);
            (r.Runs? && r.path == Update(d.current.value)) <==> BaseSpent(base, d)
  {
    hide Best, Tried, Choose, Usable, Candidates, ReleaseKey, Less;
    OutrankedIsBelow(base, d, v);
    ChooseIs(base, d, true, true);
    var h := Load(d.health);
    var r := OnePass(base, d, h, true, true);
    if r.Again? {
      LeftAlone(base, d, v, h.bad + [Base(base.value.at)]);
      SameCandidates(base, d, r.disk);
      NothingTried(Update(d.current.value));
    }
  }

  lemma SameCandidates(base: Option<Installed>, d: Disk, d': Disk)
    requires d'.files == d.files && d'.current == d.current
    ensures Candidates(base, d') == Candidates(base, d)
  {
  }

  lemma NothingTried(p: Path)
    ensures Tried(NoTrial, p) == 0
  {
  }

  lemma OutrankedIsBelow(base: Option<Installed>, d: Disk, v: Version)
    requires d.current.Some? && CodeAt(d, d.current.value) == Some(v) && !IsBad(d, Update(d.current.value))
    requires d.health.down.None? && Outranked(base, d, v)
    ensures var usable := Usable(Candidates(base, d), Load(d.health).bad);
            |usable| == 2 && Best(Load(d.health), usable).path == Base(base.value.at)
  {
    hide ReleaseKey, Less, HeldDown, Last;
    var h := Load(d.health);
    var b, mine := Candidate(Base(base.value.at), base.value.version), Candidate(Update(d.current.value), v);
    assert Candidates(base, d) == [b, mine];
    assert [b, mine][1..] == [mine] && [mine][1..] == [];
    assert Usable([b, mine], h.bad) == [b, mine];
    NothingHeld(h, [b, mine]);
    assert !Below(h, b, mine);
  }

  /** With the base marked bad as well the tree current names is all there is. */
  lemma LeftAlone(base: Option<Installed>, d: Disk, v: Version, bad: seq<Path>)
    requires d.current.Some? && CodeAt(d, d.current.value) == Some(v) && Update(d.current.value) !in bad
    requires base.Some? && Base(base.value.at) in bad
    ensures Usable(Candidates(base, d), bad) == [Candidate(Update(d.current.value), v)]
    ensures forall h :: Best(h, [Candidate(Update(d.current.value), v)]).path == Update(d.current.value)
  {
    hide ReleaseKey, Less;
    var b, mine := Candidate(Base(base.value.at), base.value.version), Candidate(Update(d.current.value), v);
    assert Candidates(base, d) == [b, mine];
    assert [b, mine][1..] == [mine] && [mine][1..] == [];
  }

  /** When the update an update put in place is what the next start runs, for every bundle and
      every disk: it is still there, and either it is preferred and its tries are not spent
      with something to go back to, or the base is preferred and out of tries. */
  lemma UpdateStartsIff(base: Option<Installed>, d: Disk, b: Bundle, mine: Version, byHand: bool, now: int)
    requires FitName(b) && Genuine(d, b)
    requires TakeUpdate(d, b, byHand, false, mine, now).Took?
    ensures var d' := TakeUpdate(d, b, byHand, false, mine, now).disk;
            var r := Choose(base, d', true, true);
            && d'.current == Some(NameOf(b))
            && ((r.Runs? && r.path == Update(NameOf(b))) <==>
                  && !PrunesItself(d, b, now)
                  && if Outranked(base, d', b.version) then BaseSpent(base, d') else !TrialSpent(base, d'))
  {
    hide TakeUpdate, Choose, ReleaseKey, Less, Tried, Previous, PrunesItself, FitName, Genuine;
    var d' := TakeUpdate(d, b, byHand, false, mine, now).disk;
    UpdateWrites(d, b, byHand, false, mine, now);
    if PrunesItself(d, b, now) {
      NoCodeNoStart(base, d');
    } else if Outranked(base, d', b.version) {
      OutrankedStarts(base, d', b.version);
    } else {
      PreferredStarts(base, d', b.version);
    }
  }

  /** A bundle taken as new code is not outranked where no base is newer than the code that runs. */
  lemma NewCodeIsPreferred(base: Option<Installed>, d: Disk, b: Bundle, mine: Version, here: string, byHand: bool, now: int)
    requires FitName(b) && Genuine(d, b)
    requires VerifyBundle(b, mine, here, false, byHand).NewCode?
    requires TakeUpdate(d, b, byHand, false, mine, now).Took?
    requires !NewerBase(base, d, mine)
    ensures var d' := TakeUpdate(d, b, byHand, false, mine, now).disk;
            d'.current.Some? && !Outranked(base, d', b.version)
  {
    hide TakeUpdate, ReleaseKey, Less, FitName, Genuine, PrunesItself, IsBad;
    UpdateWrites(d, b, byHand, false, mine, now);
    var kb, km := ReleaseKey(b.version), ReleaseKey(mine);
    KeysAreOrdered(km, kb);
    if base.Some? {
      var k := ReleaseKey(base.value.version);
      KeysAreOrdered(k, kb);
      KeysAreOrdered(k, km);
      if Less(k, km) && Less(km, kb) {
        KeysAreTransitive(k, km, kb);
      }
    }
  }

  /** The update is what starts next: with no newer base than the code that runs, the bundle
      an update put in place is the tree the next start of run picks - newer than that code,
      or of its release and taken for that - except where exactly that tree has a trial of
      which the tries are spent already, or the update pruned what it had put in place. */
  lemma UpdateStartsNext(base: Option<Installed>, d: Disk, b: Bundle, mine: Version, here: string, byHand: bool, now: int)
    requires FitName(b) && Genuine(d, b)
    requires VerifyBundle(b, mine, here, false, byHand).NewCode?
    requires TakeUpdate(d, b, byHand, false, mine, now).Took?
    requires !NewerBase(base, d, mine)
    ensures var d' := TakeUpdate(d, b, byHand, false, mine, now).disk;
            var r := Choose(base, d', true, true);
            (r.Runs? && r.path == Update(NameOf(b))) <==> !TrialSpent(base, d') && !PrunesItself(d, b, now)
  {
    hide *;
    NewCodeIsPreferred(base, d, b, mine, here, byHand, now);
    UpdateStartsIff(base, d, b, mine, byHand, now);
  }

  /** The exception: the tries are spent after the update exactly when they were before it,
      for a tree that was neither marked bad nor up yet, and there is something else to run. */
  lemma SpentBeforeTheUpdate(base: Option<Installed>, d: Disk, b: Bundle, mine: Version, byHand: bool, now: int)
    requires FitName(b) && Genuine(d, b)
    requires TakeUpdate(d, b, byHand, false, mine, now).Took?
    ensures var d' := TakeUpdate(d, b, byHand, false, mine, now).disk; var p := Update(NameOf(b));
            TrialSpent(base, d') <==>
              && p !in Load(d.health).ok && Tried(d.health.trial, p) >= TRIES
              && !(IsBad(d, p) && OnTrial(d.health, p))
              && Fallback(base, d')
  {
    hide TakeUpdate, ReleaseKey, Previous, FitName, Genuine, IsBad;
    UpdateWrites(d, b, byHand, false, mine, now);
  }

  /** Any bundle in that exception: a command takes again, from a base that is not bad, the
      tree that has used up its tries and waits to be marked. */
  lemma RetakenAfterItsTries(base: Installed, b: Bundle, mine: Version, now: int)
    requires FitName(b)
    ensures var p := Update(NameOf(b));
            var d := Disk(map[NameOf(b) := Folder(Some(b.version), b.digest, now)], Some(NameOf(b)), None,
                          Health([], [], Trial(p, Count(TRIES), false, false), None, None), None);
            && TakeUpdate(d, b, true, false, mine, now).Took?
            && var d' := TakeUpdate(d, b, true, false, mine, now).disk;
               var r := Choose(Some(base), d', true, true);
               TrialSpent(Some(base), d') && !(r.Runs? && r.path == p)
  {
    hide ReleaseKey, Less, TreeName, Temporary, Choose, Pruned, FitName;
    var p := Update(NameOf(b));
    var d := Disk(map[NameOf(b) := Folder(Some(b.version), b.digest, now)], Some(NameOf(b)), None,
                  Health([], [], Trial(p, Count(TRIES), false, false), None, None), None);
    UpdateWrites(d, b, true, false, mine, now);
    SpentBeforeTheUpdate(Some(base), d, b, mine, true, now);
    UpdateStartsIff(Some(base), d, b, mine, true, now);
  }

  /** The code that was chosen to run: its version. */
  function VersionOf(base: Option<Installed>, d: Disk, p: Path): Option<Version> {
    match p
    case Base(at) => if base.Some? && base.value.at == at then Some(base.value.version) else None
    case Update(n) => CodeAt(d, n)
  }

  /** The start that marks the tree current names forgets the mark of the base with it: the list
      is full and begins with the base, that tree has used up its tries, and what it goes back
      to is older than the base. */
  predicate ForgetsBase(base: Option<Installed>, d: Disk) {
    var h := Load(d.health);
    && base.Some? && |h.bad| == REMEMBERED && h.bad[0] == Base(base.value.at) && Base(base.value.at) !in h.bad[1..]
    && d.current.Some? && CodeAt(d, d.current.value).Some?
    && Update(d.current.value) !in h.ok + h.bad && Tried(h.trial, Update(d.current.value)) >= TRIES
    && d.previous != d.current && Previous(d, h.bad).Some?
    && Less(ReleaseKey(CodeAt(d, d.previous.value).value), ReleaseKey(base.value.version))
  }

  /** The code a start of run picks is older than a base health.json has nothing against then,
      with no update --to-leader to hold it, exactly when the start forgets the mark of that base. */
  lemma RunIsNoOlderThanBase(base: Option<Installed>, d: Disk)
    requires d.health.down.None?
    ensures var r := Choose(base, d, true, true);
            && (r.Runs? ==> VersionOf(base, d, r.path).Some?)
            && (r.Runs? && NewerBase(base, r.disk, VersionOf(base, d, r.path).value) <==> ForgetsBase(base, d))
  {
    hide Best, Tried, Choose, ReleaseKey, Less, OnePass, ForgetsBase;
    ChooseIs(base, d, true, true);
    var h := Load(d.health);
    var r := OnePass(base, d, h, true, true);
    if ForgetsBase(base, d) {
      ForgettingStart(base, d);
    } else if r.Again? {
      SameVersions(base, d, h);
      var s := OnePass(base, r.disk, r.health, true, true);
      if s.chosen.Runs? {
        PickIsNotBelowBase(base, r.disk, r.health);
        var v := VersionOf(base, r.disk, s.chosen.path).value;
        if base.Some? && Base(base.value.at) in r.health.bad && NewerBase(base, s.chosen.disk, v) {
          MarkingForgets(base, d);
        }
      }
    } else if r.chosen.Runs? {
      PickIsNotBelowBase(base, d, h);
    }
  }

  /** What such a start does: it goes back, and runs what it went back to. */
  lemma ForgettingStart(base: Option<Installed>, d: Disk)
    requires d.health.down.None? && ForgetsBase(base, d)
    ensures var r := Choose(base, d, true, true);
            && r.Runs? && r.path == Update(d.previous.value) && VersionOf(base, d, r.path).Some?
            && NewerBase(base, r.disk, VersionOf(base, d, r.path).value)
  {
    hide Tried, Choose, ReleaseKey, Less, Best;
    ChooseIs(base, d, true, true);
    var h := Load(d.health);
    var b, p := Candidate(Base(base.value.at), base.value.version), Candidate(Update(d.current.value), CodeAt(d, d.current.value).value);
    assert h.bad == [h.bad[0]] + h.bad[1..];
    TwoFound(base, d, p.version, h.bad);
    assert Best(h, [p]) == p;
    var f := Failed(d, h, p.path, true);
    assert OnePass(base, d, h, true, true) == f;
    var q := Candidate(Update(d.previous.value), CodeAt(d, d.previous.value).value);
    assert f.disk.current == d.previous && f.disk.files == d.files && f.disk.previous == None;
    TwoFound(base, f.disk, q.version, f.health.bad);
    assert Best(f.health, [q]) == q;
    assert OnePass(base, f.disk, f.health, true, true) == Ends(Runs(q.path, false, Settled, f.disk));
    assert f.disk.health.bad == h.bad + [p.path];
    assert Load(f.disk.health).bad == (h.bad + [p.path])[1..] == h.bad[1..] + [p.path];
  }

  /** The candidates with the base marked bad and the tree current names not. */
  lemma TwoFound(base: Option<Installed>, d: Disk, v: Version, bad: seq<Path>)
    requires base.Some? && Base(base.value.at) in bad
    requires d.current.Some? && CodeAt(d, d.current.value) == Some(v) && Update(d.current.value) !in bad
    ensures Candidates(base, d) == [Candidate(Base(base.value.at), base.value.version), Candidate(Update(d.current.value), v)]
    ensures Usable(Candidates(base, d), bad) == [Candidate(Update(d.current.value), v)]
  {
    var b, mine := Candidate(Base(base.value.at), base.value.version), Candidate(Update(d.current.value), v);
    assert Candidates(base, d) == [b, mine];
    assert [b, mine][1..] == [mine] && [mine][1..] == [];
  }

  /** A mark pushes another one out of a full list only, the first, and that is not a later one. */
  lemma PushedOut(bad: seq<Path>, p: Path, x: Path)
    requires |bad| <= REMEMBERED && x in bad + [p] && x !in Last(bad + [p], REMEMBERED)
    ensures |bad| == REMEMBERED && bad[0] == x && x !in bad[1..] && x != p
  {
    var more := bad + [p];
    if |bad| == REMEMBERED {
      assert Last(more, REMEMBERED) == bad[1..] + [p];
      assert more == [bad[0]] + (bad[1..] + [p]);
    }
  }

  /** With the base marked bad already, a pass marks the tree current names. */
  lemma MarksCurrent(base: Option<Installed>, d: Disk, h: Health)
    requires OnePass(base, d, h, true, true).Again? && base.Some? && Base(base.value.at) in h.bad
    ensures d.current.Some? && CodeAt(d, d.current.value).Some? && Update(d.current.value) !in h.ok + h.bad
    ensures Tried(h.trial, Update(d.current.value)) >= TRIES && Previous(d, h.bad).Some?
    ensures OnePass(base, d, h, true, true) == Failed(d, h, Update(d.current.value), true)
  {
    hide Best, Tried;
    if d.current.Some? && CodeAt(d, d.current.value).Some? && Update(d.current.value) !in h.bad {
      TwoFound(base, d, CodeAt(d, d.current.value).value, h.bad);
    }
  }

  /** After that mark code older than the base is picked only where that is what was gone back to. */
  lemma MarkingForgets(base: Option<Installed>, d: Disk)
    requires OnePass(base, d, Load(d.health), true, true).Again?
    requires var r := OnePass(base, d, Load(d.health), true, true); var s := OnePass(base, r.disk, r.health, true, true);
             && s.Ends? && s.chosen.Runs? && VersionOf(base, r.disk, s.chosen.path).Some?
             && base.Some? && Base(base.value.at) in r.health.bad
             && s.chosen.disk.health.bad == r.health.bad
             && NewerBase(base, s.chosen.disk, VersionOf(base, r.disk, s.chosen.path).value)
    ensures ForgetsBase(base, d)
  {
    hide Best, Tried, ReleaseKey, Less, OnePass, Last;
    var h := Load(d.health);
    var r := OnePass(base, d, h, true, true);
    var k := ReleaseKey(base.value.version);
    KeysAreOrdered(k, k);
    MarkingAdds(base, d, h);
    LoadedIsShort(d.health);
    PushedOut(h.bad, r.disk.failed.value, Base(base.value.at));
    MarksCurrent(base, d, h);
    OnlyCurrentStarts(base, r.disk, r.health);
    assert OnePass(base, r.disk, r.health, true, true).chosen.path != Base(base.value.at);
  }

  lemma MarkingAdds(base: Option<Installed>, d: Disk, h: Health)
    requires OnePass(base, d, h, true, true).Again?
    ensures var r := OnePass(base, d, h, true, true);
            r.disk.failed.Some? && r.health.bad == h.bad + [r.disk.failed.value]
  {
    hide Best, Tried;
  }

  lemma LoadedIsShort(h: Health)
    ensures |Load(h).bad| <= REMEMBERED
  {
  }

  lemma OnlyCurrentStarts(base: Option<Installed>, d: Disk, h: Health)
    ensures var r := OnePass(base, d, h, true, true);
            r.Ends? && r.chosen.Runs? && !(base.Some? && r.chosen.path == Base(base.value.at)) ==>
              d.current.Some? && r.chosen.path == Update(d.current.value) && CodeAt(d, d.current.value).Some?
  {
    hide Best, Tried;
  }

  lemma SameVersions(base: Option<Installed>, d: Disk, h: Health)
    requires OnePass(base, d, h, true, true).Again?
    ensures var r := OnePass(base, d, h, true, true);
            r.disk.files == d.files && r.health.down == h.down && r.disk.health == r.health
            && forall p :: VersionOf(base, r.disk, p) == VersionOf(base, d, p)
  {
    hide Best, Tried;
  }

  lemma PickIsNotBelowBase(base: Option<Installed>, d: Disk, h: Health)
    requires h.down.None?
    requires var r := OnePass(base, d, h, true, true); r.Ends? && r.chosen.Runs?
    ensures var r := OnePass(base, d, h, true, true).chosen;
            && VersionOf(base, d, r.path).Some?
            && (base.Some? && Base(base.value.at) !in h.bad ==>
                  !Less(ReleaseKey(VersionOf(base, d, r.path).value), ReleaseKey(base.value.version)))
            && (r.trial ==> r.disk.health == h.(trial := r.disk.health.trial))
            && (!r.trial ==> r.disk == d)
  {
    hide Tried, ReleaseKey, Less;
    var found := Candidates(base, d);
    var usable := Usable(found, h.bad);
    NothingHeld(h, usable);
    if base.Some? {
      var k := ReleaseKey(base.value.version);
      KeysAreOrdered(k, k);
      if |found| > 1 {
        KeysAreOrdered(k, ReleaseKey(found[1].version));
      }
    }
  }

  datatype Mark = Up | Stopped | Healthy

  /** What the witness that runs p notes about itself. */
  function Noted(d: Disk, p: Path, marks: seq<Mark>): Disk
    decreases |marks|
  {
    if marks == [] then d
    else
      var d' := match marks[0]
        case Up => MarkedUp(d, p)
        case Stopped => MarkedStopped(d, p)
        case Healthy => MarkedOk(d, p);
      Noted(d', p, marks[1..])
  }

  lemma {:induction false} MarksAddNoBase(base: Option<Installed>, d: Disk, p: Path, v: Version, marks: seq<Mark>)
    requires !NewerBase(base, d, v)
    requires base.Some? && p == Base(base.value.at) ==> !Less(ReleaseKey(v), ReleaseKey(base.value.version))
    ensures !NewerBase(base, Noted(d, p, marks), v) && Noted(d, p, marks).files == d.files
    decreases |marks|
  {
    hide ReleaseKey, Less;
    if marks != [] {
      var d' := match marks[0]
        case Up => MarkedUp(d, p)
        case Stopped => MarkedStopped(d, p)
        case Healthy => MarkedOk(d, p);
      assert base.Some? && p != Base(base.value.at) ==>
          (IsBad(d', Base(base.value.at)) <==> IsBad(d, Base(base.value.at)));
      MarksAddNoBase(base, d', p, v, marks[1..]);
    }
  }

  /** A start of run, whatever it noted about itself, the update it took, and the next start:
      with no --to-leader hold that one runs the update, but for the spent trial and the update
      that prunes itself.  A base stands in the way only where the start forgets its mark. */
  lemma RunIsFollowedByItsUpdate(base: Option<Installed>, d: Disk, marks: seq<Mark>, b: Bundle,
                                 here: string, byHand: bool, now: int)
    requires d.health.down.None?
    requires var r := Choose(base, d, true, true); r.Runs?
    requires var r := Choose(base, d, true, true);
             var running := Noted(r.disk, r.path, marks);
             var mine := VersionOf(base, d, r.path);
             && FitName(b) && Genuine(running, b) && mine.Some?
             && VerifyBundle(b, mine.value, here, false, byHand).NewCode?
             && TakeUpdate(running, b, byHand, false, mine.value, now).Took?
    ensures var r := Choose(base, d, true, true);
            var running := Noted(r.disk, r.path, marks);
            var d' := TakeUpdate(running, b, byHand, false, VersionOf(base, d, r.path).value, now).disk;
            var s := Choose(base, d', true, true);
            && d'.current.Some?
            && ((s.Runs? && s.path == Update(NameOf(b))) <==>
                  && !PrunesItself(running, b, now)
                  && if Outranked(base, d', b.version) then BaseSpent(base, d') else !TrialSpent(base, d'))
            && (Outranked(base, d', b.version) ==> ForgetsBase(base, d))
  {
    hide *;
    var r := Choose(base, d, true, true);
    var mine := VersionOf(base, d, r.path).value;
    var running := Noted(r.disk, r.path, marks);
    UpdateStartsIff(base, running, b, mine, byHand, now);
    RunIsNoOlderThanBase(base, d);
    if !ForgetsBase(base, d) {
      BaseIsNotOlder(base, d, r.path);
      MarksAddNoBase(base, r.disk, r.path, mine, marks);
      NewCodeIsPreferred(base, running, b, mine, here, byHand, now);
    }
  }

  lemma BaseIsNotOlder(base: Option<Installed>, d: Disk, p: Path)
    ensures base.Some? && p == Base(base.value.at) ==>
              VersionOf(base, d, p) == Some(base.value.version)
              && !Less(ReleaseKey(base.value.version), ReleaseKey(base.value.version))
  {
    hide ReleaseKey, Less;
    if base.Some? {
      KeysAreOrdered(ReleaseKey(base.value.version), ReleaseKey(base.value.version));
    }
  }

  // ----- prune -----

  /** A tree the links name goes with a prune exactly when its name passes for a leftover of an
      unpack and it is older than an hour: a release whose text holds '.tmp-'. */
  lemma HeldTreePrunedIff(d: Disk, now: int, keep: nat, n: string)
    requires n in Held(d) && n in d.files && d.files[n].Folder? && TreeName(n)
    ensures n !in Pruned(d, now, keep).files <==> (exists a, b :: n == a + ".tmp-" + b) && now - d.files[n].mtime > 3600
  {
    BundlesAreNoTrees(n);
    TemporaryIff(n);
  }

  lemma {:induction false} TemporaryHas(n: string) returns (a: string, b: string)
    requires Temporary(n)
    ensures n == a + ".tmp-" + b
  {
    if ".tmp-" <= n {
      a, b := "", n[5..];
    } else {
      a, b := TemporaryHas(n[1..]);
      a := [n[0]] + a;
    }
  }

  lemma {:induction false} HasTemporary(n: string, a: string, b: string)
    requires n == a + ".tmp-" + b
    ensures Temporary(n)
  {
    if a == "" {
      assert n[..5] == ".tmp-";
    } else {
      assert n[1..] == a[1..] + ".tmp-" + b;
      HasTemporary(n[1..], a[1..], b);
    }
  }

  lemma TemporaryIff(n: string)
    ensures Temporary(n) <==> exists a, b :: n == a + ".tmp-" + b
  {
    hide Temporary;
    if Temporary(n) {
      var a, b := TemporaryHas(n);
    }
    forall a, b | n == a + ".tmp-" + b ensures Temporary(n) {
      HasTemporary(n, a, b);
    }
  }

  /** Prune keeps what the links name and, of the other versions, the keep newest; a bundle
      stays only next to its tree; nothing else goes but old leftovers. */
  lemma PruneKeepsTheNewest(d: Disk, now: int, keep: nat)
    ensures var kept := Pruned(d, now, keep).files;
            && (forall n :: n in kept ==> n in d.files && kept[n] == d.files[n])
            && (forall n :: n in d.files && Prunable(d.files, Held(d), now, n) && d.files[n].Folder? ==>
                  (n in kept <==> |Newer(d.files, Held(d), now, n)| < keep))
            && (forall n :: n in kept && BundleFile(n) && kept[n].Plain? ==>
                  n[..|n| - 12] in kept && kept[n[..|n| - 12]].Folder?)
            && (forall n :: n in d.files && n !in kept ==>
                  OldLeftover(d.files, now, n) || BundleFile(n)
                  || (TreeName(n) && n !in Held(d) && d.files[n].Folder?))
  {
    forall n | n in d.files && TreeName(n) ensures !BundleFile(n) {
      BundlesAreNoTrees(n);
    }
    var trees := TreesKept(d.files, Held(d), now, keep);
    forall n | n in Pruned(d, now, keep).files && BundleFile(n) && d.files[n].Plain?
      ensures n[..|n| - 12] in Pruned(d, now, keep).files
    {
      var tree := n[..|n| - 12];
      assert tree in trees;
      BundlesAreNoTrees(tree);
    }
  }
}
