/**
 The updates directory of a witness and the operations of witness_boot.py on it, changing
 its fields in place.  Each is proved to leave exactly what its function of WitnessBoot
 says; what that means over runs is proved about those functions.
 */
module UpdatesOnDisk {
  import opened Wrappers
  import opened Release
  import opened WitnessBoot

  class Updates {
    var files: map<string, Entry>
    var current: Option<string>
    var previous: Option<string>
    var health: Health
    var failed: Option<Path>

    function State(): Disk
      reads this
    {
      Disk(files, current, previous, health, failed)
    }

    /** An updates directory nothing was unpacked into yet. */
    constructor ()
      ensures State() == NOTHING
    {
      files, current, previous, failed := map[], None, None, None;
      health := Health([], [], NoTrial, None, None);
    }

    method MarkUp(path: Path)
      modifies this`health
      ensures State() == MarkedUp(old(State()), path)
    {
      var loaded := Load(health);
      if !OnTrial(loaded, path) || loaded.trial.up {
        return;
      }
      health := loaded.(trial := loaded.trial.(up := true));
    }

    method MarkStopped(path: Path)
      modifies this`health
      ensures State() == MarkedStopped(old(State()), path)
    {
      var loaded := Load(health);
      if !OnTrial(loaded, path) || !loaded.trial.up {
        return;
      }
      health := loaded.(trial := loaded.trial.(stopped := true));
    }

    method SpendTrial(path: Path)
      modifies this`health
      ensures State() == SpentTrial(old(State()), path)
    {
      var loaded := Load(health);
      if !OnTrial(loaded, path) {
        return;
      }
      health := loaded.(trial := loaded.trial.(tries := Count(TRIES)));
    }

    method MarkOk(path: Path)
      modifies this`health
      ensures State() == MarkedOk(old(State()), path)
    {
      var loaded := Load(health);
      if path !in loaded.ok {
        loaded := loaded.(ok := loaded.ok + [path]);
      }
      loaded := loaded.(bad := Without(loaded.bad, path));
      if OnTrial(loaded, path) {
        loaded := loaded.(trial := NoTrial);
      }
      health := loaded;
    }

    method ForgetBad(path: Path)
      modifies this`health
      ensures State() == ForgottenBad(old(State()), path)
    {
      var loaded := Load(health);
      if path !in loaded.bad && !OnTrial(loaded, path) {
        return;
      }
      loaded := loaded.(bad := Without(loaded.bad, path));
      if OnTrial(loaded, path) {
        loaded := loaded.(trial := NoTrial);
      }
      health := loaded;
    }

    /** Both branches of GoneBack: previous moves into current where it is usable, else current is cleared. */
    method GoBack(bad: seq<Path>)
      modifies this`current, this`previous
      ensures State() == GoneBack(old(State()), bad)
    {
      if previous.Some? && previous.value in files && files[previous.value].Folder?
         && files[previous.value].code.Some? && Update(previous.value) !in bad {
        current := previous;
        previous := None;
      } else {
        current := None;
      }
    }

    /** The tree at path failed its trial: marked bad and gone back from. */
    method MarkFailed(was: Health, path: Path, saves: bool) returns (loaded: Health)
      modifies this
      ensures Failed(old(State()), was, path, saves) == Again(State(), loaded)
    {
      loaded := was.(bad := was.bad + [path], trial := NoTrial);
      if path.Update? {
        if loaded.same == Some(path) {
          var p := Previous(State(), loaded.bad);
          loaded := loaded.(same := if p.Some? then Some(Update(p.value)) else None);
        }
        GoBack(loaded.bad);
      }
      if saves {
        health := loaded;
      }
      failed := Some(path);
    }

    /** The tree to run and whether it runs on trial.  saves: health.json can be written. */
    method Choose(base: Option<Installed>, counting: bool, saves: bool) returns (r: Chosen)
      modifies this
      ensures r == WitnessBoot.Choose(base, old(State()), counting, saves)
      ensures !r.NothingComesUp? ==> State() == r.disk
    {
      hide Best, Candidates, Usable, Tried, RanBefore, Failed;
      var loaded := Load(health);
      var pass := 0;
      while pass < PASSES
        invariant 0 <= pass <= PASSES
        invariant WitnessBoot.Choose(base, old(State()), counting, saves)
               == ChooseFrom(base, State(), loaded, counting, saves, PASSES - pass)
      {
        var found := Candidates(base, State());
        if found == [] {
          return NoCode(State());
        }
        var usable := Usable(found, loaded.bad);
        if usable == [] {
          return Runs(found[0].path, false, EverythingFailed, State());
        }
        var best := Best(loaded, usable).path;
        var prev := if best.Update? then Previous(State(), loaded.bad) else None;
        var others := |usable| > 1 || prev.Some?;
        if !counting && best.Update? && best !in loaded.ok && others {
          return Runs(RanBefore(prev, usable, loaded.ok), false, ForACommand, State());
        }
        if !counting || best in loaded.ok || !others {
          return Runs(best, false, Settled, State());
        }
        var tries := Tried(loaded.trial, best);
        if tries >= TRIES {
          loaded := MarkFailed(loaded, best, saves);
          pass := pass + 1;
          continue;
        }
        loaded := loaded.(trial := Trial(best, Count(tries + 1), false, false));
        if !saves {
          return Runs(best, false, CannotCount, State());
        }
        health := loaded;
        return Runs(best, true, StartsTrial, State());
      }
      return NothingComesUp;
    }

    method Install(b: Bundle, now: int) returns (name: string)
      modifies this`files
      ensures name == NameOf(b) && State() == InstalledBundle(old(State()), b, now)
    {
      name := NameOf(b);
      if name in files && files[name].Folder? && files[name].complete == b.digest && files[name].code.Some? {
        return;
      }
      files := files[name := Folder(Some(b.version), b.digest, now)];
    }

    method Switch(name: string)
      modifies this`current, this`previous
      ensures State() == Switched(old(State()), name)
    {
      if current.Some? && current.value in files && files[current.value].Folder? && current.value != name {
        previous := current;
      }
      current := Some(name);
    }

    method MarkDown(version: Option<Version>)
      modifies this`health
      ensures State() == MarkedDown(old(State()), version)
    {
      health := Load(health).(down := version);
    }

    method MarkSame(path: Path)
      modifies this`health
      ensures State() == MarkedSame(old(State()), path)
    {
      health := Load(health).(same := Some(path));
    }

    /** Old leftovers go; the versions besides the links', in the order of their times. */
    method SortOut(held: set<string>, now: int) returns (versions: seq<string>)
      modifies this`files
      ensures files == map n | n in old(files) && !OldLeftover(old(files), now, n) :: old(files)[n]
      ensures Sorted(old(files), versions)
      ensures forall n :: n in versions <==> Prunable(old(files), held, now, n)
    {
      hide Sorted, TreeName;
      var was := files;
      versions := [];
      assert Sorted(was, versions) by { NothingIsSorted(was); }
      var rest := files.Keys;
      while rest != {}
        invariant rest <= was.Keys
        invariant files == map n | n in was && (n in rest || !OldLeftover(was, now, n)) :: was[n]
        invariant Sorted(was, versions)
        invariant forall n :: n in versions <==> n !in rest && Prunable(was, held, now, n)
        decreases |rest|
      {
        var name :| name in rest;
        rest := rest - {name};
        if Temporary(name) && was[name].Folder? && now - was[name].mtime > LEFTOVER_AGE {
          files := files - {name};
        } else if TreeName(name) && name !in held {
          InsertKeepsSorted(was, versions, name);
          versions := Insert(was, versions, name);
        }
      }
    }

    /** Of the sorted versions all but the last keep go. */
    method DropOldest(versions: seq<string>, keep: nat) returns (i: nat)
      requires forall n :: n in versions ==> n in files
      modifies this`files
      ensures i == if |versions| > keep then |versions| - keep else 0
      ensures files == map n | n in old(files) && !(n in versions[..i] && old(files)[n].Folder?) :: old(files)[n]
    {
      var was := files;
      i := 0;
      while i < |versions| - keep
        invariant 0 <= i <= |versions|
        invariant i > 0 ==> i <= |versions| - keep
        invariant files == map n | n in was && !(n in versions[..i] && was[n].Folder?) :: was[n]
      {
        assert versions[..i + 1] == versions[..i] + [versions[i]];
        if was[versions[i]].Folder? {
          files := files - {versions[i]};
        }
        i := i + 1;
      }
    }

    /** The versions besides the links' and the keep newest go, old leftovers, and the bundle
        of each tree that is gone. */
    method Prune(now: int, keep: nat)
      modifies this`files
      ensures State() == Pruned(old(State()), now, keep)
    {
      hide Sorted, Prunable, Goes, BundlesKept, Temporary;
      var held := Held(State());
      ghost var was := files;
      var versions := SortOut(held, now);
      assert forall n :: n in versions ==> n in files by { PrunableStay(was, held, now, versions); }
      var i := DropOldest(versions, keep);
      NewestStay(was, held, now, keep, versions, i);
      assert files == TreesKept(was, held, now, keep);
      DropOrphans();
    }

    method DropOrphans()
      modifies this`files
      ensures files == BundlesKept(old(files))
    {
      var kept := files;
      var rest := files.Keys;
      while rest != {}
        invariant rest <= kept.Keys
        invariant files == map n | n in kept && (n in rest || !Orphaned(kept, n)) :: kept[n]
        decreases |rest|
      {
        var name :| name in rest;
        rest := rest - {name};
        if BundleFile(name) && files[name].Plain? {
          var tree := name[..|name| - 12];
          if !(tree in files && files[tree].Folder?) {
            files := files - {name};
          }
        }
      }
    }

    /** An update, once its bundle was checked; false when the tree it holds went bad here. */
    method TakeUpdate(b: Bundle, retry: bool, toLeader: bool, mine: Version, now: int) returns (took: bool)
      modifies this
      ensures took == WitnessBoot.TakeUpdate(old(State()), b, retry, toLeader, mine, now).Took?
      ensures State() == if took then WitnessBoot.TakeUpdate(old(State()), b, retry, toLeader, mine, now).disk
                         else old(State())
    {
      hide ReleaseKey, Pruned, MarkedDown, MarkedSame, Switched, InstalledBundle, ForgottenBad;
      var name := NameOf(b);
      if Update(name) in Load(health).bad {
        if !retry {
          return false;
        }
        ForgetBad(Update(name));
      }
      name := Install(b, now);
      files := files[name + BUNDLE_SUFFIX := Plain(now)];
      Switch(name);
      MarkDown(if toLeader then CodeAt(State(), name) else None);
      if ReleaseKey(b.version) == ReleaseKey(mine) {
        MarkSame(Update(name));
      }
      Prune(now, KEEP);
      return true;
    }
  }

  // ----- the sort in prune -----

  lemma PrunableStay(files: map<string, Entry>, held: set<string>, now: int, versions: seq<string>)
    requires forall n :: n in versions <==> Prunable(files, held, now, n)
    ensures forall n :: n in versions ==> n in files && !OldLeftover(files, now, n)
  {
  }

  lemma NothingIsSorted(files: map<string, Entry>)
    ensures Sorted(files, [])
  {
  }

  ghost predicate Sorted(files: map<string, Entry>, s: seq<string>) {
    && (forall i :: 0 <= i < |s| ==> s[i] in files)
    && (forall i, j :: 0 <= i < j < |s| ==> Earlier(files, s[i], s[j]))
  }

  function Insert(files: map<string, Entry>, s: seq<string>, n: string): (r: seq<string>)
    requires n in files && forall i :: 0 <= i < |s| ==> s[i] in files
    ensures forall m :: m in r <==> m in s || m == n
  {
    if s == [] || Earlier(files, n, s[0]) then [n] + s else [s[0]] + Insert(files, s[1..], n)
  }

  lemma {:induction false} CodesAreDistinct(a: string, b: string)
    requires Codes(a) == Codes(b)
    ensures a == b
  {
    assert |Codes(a)| == |a| && |Codes(b)| == |b|;
    forall i | 0 <= i < |a| ensures a[i] == b[i] {
      assert Codes(a)[i] == Codes(b)[i];
    }
  }

  lemma EarlierIsTotal(files: map<string, Entry>, a: string, b: string)
    requires a in files && b in files && a != b
    ensures Earlier(files, a, b) != Earlier(files, b, a)
  {
    if Codes(a) == Codes(b) {
      CodesAreDistinct(a, b);
    }
    LexTotal(Codes(a), Codes(b));
  }

  lemma EarlierIsTransitive(files: map<string, Entry>, a: string, b: string, c: string)
    requires a in files && b in files && c in files && Earlier(files, a, b) && Earlier(files, b, c)
    ensures Earlier(files, a, c)
  {
    if files[a].mtime == files[b].mtime == files[c].mtime {
      LexTransitive(Codes(a), Codes(b), Codes(c));
    }
  }

  lemma {:induction false} InsertKeepsSorted(files: map<string, Entry>, s: seq<string>, n: string)
    requires Sorted(files, s) && n in files && n !in s
    ensures Sorted(files, Insert(files, s, n))
  {
    hide Earlier;
    if s != [] {
      if Earlier(files, n, s[0]) {
        forall j | 0 < j < |s| ensures Earlier(files, n, s[j]) {
          EarlierIsTransitive(files, n, s[0], s[j]);
        }
      } else {
        EarlierIsTotal(files, n, s[0]);
        InsertKeepsSorted(files, s[1..], n);
        var r := Insert(files, s[1..], n);
        forall j | 0 <= j < |r| ensures Earlier(files, s[0], r[j]) {
          assert r[j] in s[1..] || r[j] == n;
        }
      }
    }
  }

  lemma {:induction false} DistinctCount(s: seq<string>)
    requires forall i, j :: 0 <= i < j < |s| ==> s[i] != s[j]
    ensures |set n | n in s| == |s|
  {
    if s == [] {
      assert (set n | n in s) == {};
    } else {
      DistinctCount(s[1..]);
      assert (set n | n in s) == {s[0]} + set n | n in s[1..];
    }
  }

  lemma EarlierIsStrict(files: map<string, Entry>, a: string)
    requires a in files
    ensures !Earlier(files, a, a)
  {
    LexTotal(Codes(a), Codes(a));
  }

  /** In the sorted list exactly |s| - 1 - i versions are newer than the i-th. */
  lemma NewerInOrder(files: map<string, Entry>, held: set<string>, now: int, s: seq<string>, i: nat)
    requires Sorted(files, s) && i < |s|
    requires forall n :: n in s <==> Prunable(files, held, now, n)
    ensures |Newer(files, held, now, s[i])| == |s| - 1 - i
  {
    hide Earlier;
    forall j | 0 <= j < |s| ensures Earlier(files, s[i], s[j]) <==> i < j {
      EarlierIsStrict(files, s[i]);
      if j < i {
        if s[i] != s[j] {
          EarlierIsTotal(files, s[i], s[j]);
        }
      }
    }
    forall j, k | 0 <= j < k < |s| ensures s[j] != s[k] {
      EarlierIsStrict(files, s[j]);
    }
    var later := s[i + 1..];
    assert Newer(files, held, now, s[i]) == set n | n in later;
    DistinctCount(later);
  }

  /** Dropping the first i of the sorted versions, i of them all but keep, is what Goes says. */
  lemma NewestStay(files: map<string, Entry>, held: set<string>, now: int, keep: nat, s: seq<string>, i: nat)
    requires Sorted(files, s) && i <= |s| && (i == |s| - keep || (i == 0 && |s| <= keep))
    requires forall n :: n in s <==> Prunable(files, held, now, n)
    ensures forall n :: n in files ==>
              (Goes(files, held, now, keep, n) <==>
               OldLeftover(files, now, n) || (n in s[..i] && files[n].Folder?))
  {
    forall n | n in files
      ensures Goes(files, held, now, keep, n) <==>
              OldLeftover(files, now, n) || (n in s[..i] && files[n].Folder?)
    {
      if n in s {
        var k :| 0 <= k < |s| && s[k] == n;
        NewerInOrder(files, held, now, s, k);
        if n in s[..i] {
          var j :| 0 <= j < i && s[j] == n;
          NewerInOrder(files, held, now, s, j);
        } else {
          assert k >= i;
        }
      }
    }
  }
}
