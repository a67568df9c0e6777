/** What an update leaves on disk, file by file, and which bundles are taken for one. */
module WitnessTaken {
  import opened Wrappers
  import opened Release
  import opened WitnessBoot
  import opened WitnessRuns
  import opened WitnessUpdates

  /** The files of an update to b before its prune: its tree, where that was not there whole with
      this very digest, and its bundle beside it. */
  function FilesWith(d: Disk, b: Bundle, now: int): map<string, Entry> {
    var whole := NameOf(b) in d.files && d.files[NameOf(b)].Folder? && d.files[NameOf(b)].complete == b.digest
                 && d.files[NameOf(b)].code.Some?;
    (if whole then d.files else d.files[NameOf(b) := Folder(Some(b.version), b.digest, now)])[NameOf(b) + ".bundle.json" := Plain(now)]
  }

  /** A file of those goes with the prune: an old leftover; a version no link names with two newer
      ones of that kind; a bundle without its tree. */
  predicate GoesWith(files: map<string, Entry>, held: set<string>, now: int, n: string)
    requires n in files
  {
    || OldLeftover(files, now, n)
    || (Prunable(files, held, now, n) && files[n].Folder? && |Newer(files, held, now, n)| >= 2)
    || (BundleFile(n) && files[n].Plain?
        && var tree := n[..|n| - 12];
           !(tree in files && files[tree].Folder?)
           || OldLeftover(files, now, tree)
           || (Prunable(files, held, now, tree) && |Newer(files, held, now, tree)| >= 2))
  }

  /** An update to b is refused exactly when its tree is marked bad and it is not by hand.  It leaves
      these files, but for those that go with its prune; the links at its tree and at the one
      before it; and in health.json the hold, the tie and the mark of its tree as it says, and
      the rest as it was. */
  lemma UpdateLeaves(d: Disk, b: Bundle, retry: bool, toLeader: bool, mine: Version, now: int)
    requires FitName(b) && LinksGood(d, Load(d.health).bad) && Genuine(d, b)
    ensures TakeUpdate(d, b, retry, toLeader, mine, now).Took? <==> retry || !IsBad(d, Update(NameOf(b)))
    ensures TakeUpdate(d, b, retry, toLeader, mine, now).Took? ==>
              var d' := TakeUpdate(d, b, retry, toLeader, mine, now).disk;
              var (name, h, h') := (NameOf(b), Load(d.health), d'.health);
              var files := FilesWith(d, b, now);
              && d'.current == Some(name) && d'.previous == Behind(d, b)
              && (forall n :: n in d'.files <==> n in files && !GoesWith(files, Held(d'), now, n))
              && (forall n :: n in d'.files ==> d'.files[n] == files[n])
              && h'.ok == h.ok && h'.bad == Without(h.bad, Update(name))
              && h'.down == (if toLeader then Some(b.version) else None)
              && h'.same == (if ReleaseKey(b.version) == ReleaseKey(mine) then Some(Update(name)) else d.health.same)
              && h'.trial == (if Update(name) in h.bad && OnTrial(d.health, Update(name)) then NoTrial else d.health.trial)
              && d'.failed == d.failed
  {
    RefusedIff(d, b, retry, toLeader, mine, now);
    if TakeUpdate(d, b, retry, toLeader, mine, now).Took? {
      hide *;
      var placed := Placed(d, b, retry, toLeader, mine, now);
      UpdateIsPlacedAndPruned(d, b, retry, toLeader, mine, now);
      PlacedLinks(d, b, retry, toLeader, mine, now);
      PlacedFiles(d, b, retry, toLeader, mine, now);
      PlacedMarks(d, b, retry, toLeader, mine, now);
      PrunedFiles(placed, now);
    }
  }

  lemma RefusedIff(d: Disk, b: Bundle, retry: bool, toLeader: bool, mine: Version, now: int)
    ensures TakeUpdate(d, b, retry, toLeader, mine, now).Took? <==> retry || !IsBad(d, Update(NameOf(b)))
  {
    hide ReleaseKey, Pruned, Switched, InstalledBundle, MarkedDown, MarkedSame, ForgottenBad;
  }

  lemma PlacedFiles(d: Disk, b: Bundle, retry: bool, toLeader: bool, mine: Version, now: int)
    ensures Placed(d, b, retry, toLeader, mine, now).files == FilesWith(d, b, now)
    ensures Placed(d, b, retry, toLeader, mine, now).failed == d.failed
  {
    hide ReleaseKey, IsBad, Load, NameOf;
  }

  lemma PlacedMarks(d: Disk, b: Bundle, retry: bool, toLeader: bool, mine: Version, now: int)
    requires FitName(b) && Genuine(d, b)
    ensures var (h, h', p) := (Load(d.health), Placed(d, b, retry, toLeader, mine, now).health, Update(NameOf(b)));
            && h'.ok == h.ok && h'.bad == Without(h.bad, p)
            && h'.down == (if toLeader then Some(b.version) else None)
            && h'.same == (if ReleaseKey(b.version) == ReleaseKey(mine) then Some(p) else d.health.same)
            && h'.trial == (if p in h.bad && OnTrial(d.health, p) then NoTrial else d.health.trial)
  {
    hide ReleaseKey, Placed, NameOf, Last, FitName, Genuine;
    PlacedHealthIs(d, b, retry, toLeader, mine, now);
    var p := Update(NameOf(b));
    var d1 := if IsBad(d, p) then ForgottenBad(d, p) else d;
    WithoutShort(Load(d.health).bad, p);
    ShortLists(d.health);
    TwiceRead(d.health);
    TwiceRead(Load(d1.health).(down := if toLeader then Some(b.version) else None));
    TwiceRead(d1.health);
    ShortLists(Load(d.health).(bad := Without(Load(d.health).bad, p), trial := if OnTrial(Load(d.health), p) then NoTrial else Load(d.health).trial));
  }

  lemma TwiceRead(h: Health)
    ensures Load(Load(h)) == Load(h) && Load(h).same == h.same && Load(h).down == h.down && Load(h).trial == h.trial
    ensures forall v :: Load(Load(h).(down := v)) == Load(h).(down := v)
  {
  }

  lemma ShortLists(h: Health)
    ensures |h.ok| <= REMEMBERED && |h.bad| <= REMEMBERED ==> Load(h) == h
    ensures |Load(h).ok| <= REMEMBERED && |Load(h).bad| <= REMEMBERED
  {
  }

  lemma {:induction false} WithoutShort(s: seq<Path>, p: Path)
    ensures |Without(s, p)| <= |s| && (p !in s ==> Without(s, p) == s)
  {
    if s != [] {
      WithoutShort(s[1..], p);
      assert [s[0]] + s[1..] == s;
    }
  }

  lemma PrunedFiles(d: Disk, now: int)
    ensures var d' := Pruned(d, now, KEEP);
            && d'.current == d.current && d'.previous == d.previous && d'.health == d.health && d'.failed == d.failed
            && Held(d') == Held(d)
            && (forall n :: n in d'.files <==> n in d.files && !GoesWith(d.files, Held(d), now, n))
            && (forall n :: n in d'.files ==> d'.files[n] == d.files[n])
  {
    hide Temporary, TreeName, Newer, BundleFile;
    forall n | n in d.files ensures n in Pruned(d, now, KEEP).files <==> !GoesWith(d.files, Held(d), now, n) {
      PrunedOne(d, now, n);
    }
  }

  lemma PrunedOne(d: Disk, now: int, n: string)
    requires n in d.files
    ensures n in Pruned(d, now, KEEP).files <==> !GoesWith(d.files, Held(d), now, n)
  {
    hide Temporary, TreeName, Newer, BundleFile, Held;
    BundlesAre(n);
  }

  lemma BundlesAre(n: string)
    ensures BundleFile(n) ==> |n| >= 12 && !TreeName(n)
  {
    if BundleFile(n) && TreeName(n) {
      BundlesAreNoTrees(n);
    }
  }

  // ----- which bundles are taken -----

  /** A bundle is taken for new code exactly when its release is newer than the code that runs; or
      the same, of another tree than that code came from, which a bundle named or the admin asked
      by hand; or older, where older code is asked for. */
  lemma NewCodeIff(b: Bundle, mine: Version, here: string, older: bool, byHand: bool)
    ensures var theirs, ours := ReleaseKey(b.version), ReleaseKey(mine);
            VerifyBundle(b, mine, here, older, byHand).NewCode? <==>
              || Less(ours, theirs)
              || (ours == theirs && NameOf(b) != here && (here != "" || byHand))
              || (Less(theirs, ours) && older)
  {
    hide ReleaseKey, Less;
    KeysAreOrdered(ReleaseKey(b.version), ReleaseKey(mine));
  }

  /** A witness that runs the tree of a bundle does not take that bundle again, in no way. */
  lemma TakenOnce(b: Bundle, older: bool, byHand: bool)
    ensures VerifyBundle(b, b.version, NameOf(b), older, byHand) == UpToDate
  {
  }
}
