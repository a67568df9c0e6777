/** Plugins that went in, synced once more: when that changes nothing. */
module PluginTwice {
  import opened Wrappers
  import opened PluginSync
  import opened PluginMerge
  import opened PluginRuns
  import opened PluginSource

  /** The settings of a plugin, which a second sync keeps. */
  predicate Settings(name: string, top: bool) {
    top && name == SETTINGS
  }

  /** A file that is copied each time, in front of a folder of its temporary name. */
  predicate TripsAt(src: Listing, top: bool, k: nat, i: nat)
    requires k < |src| && i < |src|
  {
    src[k].what.SFile? && Ships(src[k].name, src[k].what) && !Settings(src[k].name, top) && FolderAs(src[i], Tmp(src[k].name))
  }

  predicate Trips(src: Listing, top: bool)
    decreases src
  {
    || (exists k, i :: 0 <= k < i < |src| && TripsAt(src, top, k, i))
    || (exists i :: 0 <= i < |src| && src[i].what.SDir? && Ships(src[i].name, src[i].what) && Trips(src[i].what.entries, false))
  }

  /** A file behind which the settings are copied under its name the first time, and kept the second. */
  predicate Returns(src: Listing, before: Tree, top: bool) {
    && top && SETTINGS !in before
    && exists k, i :: 0 <= i < k < |src|
         && src[k].name == SETTINGS && src[k].what.SFile?
         && src[i].name == Tmp(SETTINGS) && src[i].what.SFile? && Ships(src[i].name, src[i].what)
  }

  // ----- what is copied the second time -----

  lemma SettingsShip(s: Src)
    requires s.SFile?
    ensures Ships(SETTINGS, s)
  {
    assert SETTINGS[|SETTINGS| - 1] == 'n';
    assert ".pyc"[3] == 'c' && ".pyo"[3] == 'o';
    assert SETTINGS[|SETTINGS| - 4..][3] == 'n';
  }

  /** Settings that are brought in are there. */
  lemma SettingsAreThere(src: Listing, before: Tree, top: bool, k: nat)
    requires Listed(src) && k < |src| && src[k].name == SETTINGS && src[k].what.SFile?
    ensures SETTINGS in Merged(src, before, top)
  {
    hide Merged, Listed;
    FindsIt(src, k);
    MergedIs(src, before, top, SETTINGS);
    SettingsShip(src[k].what);
    NeverSwept(src, before, top, k);
  }

  lemma FindsIt(src: Listing, k: nat)
    requires Listed(src) && k < |src|
    ensures Find(src, src[k].name) == k
  {
    var i := Find(src, src[k].name);
    assert src[i].name == src[k].name;
  }

  lemma NeverSwept(src: Listing, before: Tree, top: bool, n: nat)
    ensures !Sweeps(src, before, top, SETTINGS, n)
  {
    forall i | n <= i < |src| ensures !CopiedAs(src[i], before, top, SETTINGS) {
      SettingsAreNoTmp(src[i].name);
    }
  }

  lemma CopiedAgain(src: Listing, before: Tree, top: bool, k: nat, name: string)
    requires Listed(src) && k < |src|
    ensures CopiedAs(src[k], Merged(src, before, top), top, name)
       <==> CopiedAs(src[k], before, top, name) && !Settings(src[k].name, top)
  {
    hide Merged, Listed, Ships;
    if src[k].name == SETTINGS && src[k].what.SFile? {
      SettingsAreThere(src, before, top, k);
    }
  }

  lemma SweptAgain(src: Listing, before: Tree, top: bool, name: string, n: nat)
    requires Listed(src)
    ensures Sweeps(src, Merged(src, before, top), top, name, n) ==> Sweeps(src, before, top, name, n)
    ensures name != Tmp(SETTINGS) || !top || SETTINGS in before ==>
              (Sweeps(src, Merged(src, before, top), top, name, n) <==> Sweeps(src, before, top, name, n))
  {
    hide Merged, Listed, CopiedAs;
    var m := Merged(src, before, top);
    forall k | 0 <= k < |src|
      ensures CopiedAs(src[k], m, top, name) ==> CopiedAs(src[k], before, top, name)
      ensures name != Tmp(SETTINGS) || !top || SETTINGS in before ==>
                (CopiedAs(src[k], m, top, name) <==> CopiedAs(src[k], before, top, name))
    {
      CopiedAgain(src, before, top, k, name);
      CopiedIs(src[k], before, top, name);
    }
  }

  lemma CopiedIs(e: Entry, before: Tree, top: bool, name: string)
    ensures CopiedAs(e, before, top, name) ==> name == Tmp(e.name) && !Keeps(before, e.name, top)
  {
  }

  // ----- the tree -----

  /** In a sync that succeeds no folder is lost. */
  lemma FoldersStay(src: Listing, before: Tree, top: bool, path: seq<string>, broken: Broken, i: nat)
    requires Listed(src) && !Clashes(src, before, top, path, broken)
    requires i < |src| && src[i].what.SDir? && Ships(src[i].name, src[i].what)
    ensures !Sweeps(src, before, top, src[i].name, i)
    ensures !Clashes(src[i].what.entries, SubTree(before, src[i].name), false, path + [src[i].name], broken)
  {
    hide Clashes, Listed, Ships, ClashAt, CopiedAs;
    ClashesIs(src, before, top, path, broken);
    forall j | i <= j < |src| ensures !CopiedAs(src[j], before, top, src[i].name) {
      SweptFolderStops(src, before, top, path, broken, i, j);
    }
    FolderBelow(src, before, top, path, broken, i);
  }

  lemma SweptFolderStops(src: Listing, before: Tree, top: bool, path: seq<string>, broken: Broken, i: nat, j: nat)
    requires i <= j < |src| && src[i].what.SDir? && Ships(src[i].name, src[i].what)
    ensures CopiedAs(src[j], before, top, src[i].name) ==> ClashAt(src, j, before, top, path, broken)
  {
    hide Clashes, Ships;
    TmpIsOneToOne(src[i].name, src[i].name);
    assert FolderAs(src[i], src[i].name);
  }

  lemma FolderBelow(src: Listing, before: Tree, top: bool, path: seq<string>, broken: Broken, i: nat)
    requires i < |src| && src[i].what.SDir? && Ships(src[i].name, src[i].what) && !ClashAt(src, i, before, top, path, broken)
    ensures !Clashes(src[i].what.entries, SubTree(before, src[i].name), false, path + [src[i].name], broken)
  {
    hide Clashes, Ships;
  }

  lemma FolderIs(src: Listing, before: Tree, top: bool, path: seq<string>, broken: Broken, i: nat)
    requires Listed(src) && !Clashes(src, before, top, path, broken)
    requires i < |src| && src[i].what.SDir? && Ships(src[i].name, src[i].what)
    ensures Got(Merged(src, before, top), src[i].name) == Some(Dir(Merged(src[i].what.entries, SubTree(before, src[i].name), false)))
    ensures SubTree(Merged(src, before, top), src[i].name) == Merged(src[i].what.entries, SubTree(before, src[i].name), false)
  {
    hide Merged, Listed, Ships, Clashes, Sweeps;
    FindsIt(src, i);
    MergedIs(src, before, top, src[i].name);
    FoldersStay(src, before, top, path, broken, i);
  }

  lemma FileIs(src: Listing, before: Tree, top: bool, i: nat)
    requires Listed(src) && i < |src| && src[i].what.SFile? && Ships(src[i].name, src[i].what)
    ensures Got(Merged(src, before, top), src[i].name) ==
            if Keeps(before, src[i].name, top) then Some(before[src[i].name])
            else if Sweeps(src, before, top, src[i].name, i) then None
            else Some(File(src[i].what.content, ModeOf(src[i].name, top)))
  {
    hide Merged, Listed, Ships, Sweeps;
    FindsIt(src, i);
    MergedIs(src, before, top, src[i].name);
  }

  /** A second merge makes of a merged tree what it is, but for a file that returns. */
  lemma {:induction false} MergedAgain(src: Listing, before: Tree, top: bool, path: seq<string>, broken: Broken)
    requires Listed(src) && !Clashes(src, before, top, path, broken)
    ensures var m := Merged(src, before, top); Merged(src, m, top) == m <==> !Returns(src, before, top)
    decreases src
  {
    hide Merged, Listed, Ships, Sweeps, Clashes, Returns, MergedAt;
    var m := Merged(src, before, top);
    forall i | 0 <= i < |src| && src[i].what.SDir? && Ships(src[i].name, src[i].what)
      ensures Merged(src[i].what.entries, SubTree(m, src[i].name), false) == SubTree(m, src[i].name)
    {
      FolderIs(src, before, top, path, broken, i);
      FoldersListed(src, i);
      FoldersStay(src, before, top, path, broken, i);
      MergedAgain(src[i].what.entries, SubTree(before, src[i].name), false, path + [src[i].name], broken);
      NothingReturns(src[i].what.entries, SubTree(before, src[i].name));
    }
    if Returns(src, before, top) {
      OneReturns(src, before, top);
    } else {
      forall n ensures Got(Merged(src, m, top), n) == Got(m, n) {
        NameAgain(src, before, top, path, broken, n);
      }
      SameTrees(Merged(src, m, top), m);
    }
  }

  lemma NothingReturns(src: Listing, before: Tree)
    ensures !Returns(src, before, false)
  {
  }

  lemma OneReturns(src: Listing, before: Tree, top: bool)
    requires Listed(src) && Returns(src, before, top)
    ensures var m := Merged(src, before, top); Merged(src, m, top) != m
  {
    hide Merged, Listed, Ships, Sweeps;
    var m := Merged(src, before, top);
    var k, i :| 0 <= i < k < |src| && src[k].name == SETTINGS && src[k].what.SFile?
                && src[i].name == Tmp(SETTINGS) && src[i].what.SFile? && Ships(src[i].name, src[i].what);
    SettingsAreNoTmp(SETTINGS);
    FileIs(src, before, top, i);
    FileIs(src, m, top, i);
    SettingsShip(src[k].what);
    SweptBy(src, before, top, i, k);
    NotSweptBy(src, before, top, i);
  }

  lemma SweptBy(src: Listing, before: Tree, top: bool, i: nat, k: nat)
    requires i <= k < |src| && src[k].name == SETTINGS && src[k].what.SFile? && Ships(SETTINGS, src[k].what) && SETTINGS !in before
    ensures Sweeps(src, before, top, Tmp(SETTINGS), i)
  {
    assert CopiedAs(src[k], before, top, Tmp(SETTINGS));
  }

  lemma NotSweptBy(src: Listing, before: Tree, top: bool, i: nat)
    requires Listed(src) && top
    ensures !Sweeps(src, Merged(src, before, top), top, Tmp(SETTINGS), i)
  {
    hide Merged, Listed, CopiedAs;
    var m := Merged(src, before, top);
    forall k | 0 <= k < |src| ensures !CopiedAs(src[k], m, top, Tmp(SETTINGS)) {
      CopiedAgain(src, before, top, k, Tmp(SETTINGS));
      CopiedIs(src[k], before, top, Tmp(SETTINGS));
      TmpIsOneToOne(src[k].name, SETTINGS);
    }
  }

  lemma NameAgain(src: Listing, before: Tree, top: bool, path: seq<string>, broken: Broken, n: string)
    requires Listed(src) && !Clashes(src, before, top, path, broken) && !Returns(src, before, top)
    requires var m := Merged(src, before, top);
             forall i :: 0 <= i < |src| && src[i].what.SDir? && Ships(src[i].name, src[i].what) ==>
               Merged(src[i].what.entries, SubTree(m, src[i].name), false) == SubTree(m, src[i].name)
    ensures var m := Merged(src, before, top); Got(Merged(src, m, top), n) == Got(m, n)
  {
    hide Merged, Listed, Ships, Sweeps, Clashes, Returns;
    var m := Merged(src, before, top);
    MergedIs(src, before, top, n);
    MergedIs(src, m, top, n);
    var i := Find(src, n);
    if i < |src| && Ships(n, src[i].what) {
      SweptAgain(src, before, top, n, i);
      match src[i].what {
        case SFile(_) =>
          if n == Tmp(SETTINGS) && top && SETTINGS !in before {
            ReturningIsAll(src, before, top, i);
          }
        case SDir(_) =>
          FolderIs(src, before, top, path, broken, i);
          FoldersStay(src, before, top, path, broken, i);
        case _ =>
      }
    } else {
      SweptAgain(src, before, top, n, 0);
    }
  }

  /** Where nothing returns, the file of the settings' temporary name is not lost. */
  lemma ReturningIsAll(src: Listing, before: Tree, top: bool, i: nat)
    requires Listed(src) && !Returns(src, before, top) && top && SETTINGS !in before
    requires i < |src| && src[i].name == Tmp(SETTINGS) && src[i].what.SFile? && Ships(src[i].name, src[i].what)
    ensures !Sweeps(src, before, top, Tmp(SETTINGS), i)
  {
    hide Listed, Ships;
    forall k | i <= k < |src| ensures !CopiedAs(src[k], before, top, Tmp(SETTINGS)) {
      TmpIsOneToOne(src[k].name, SETTINGS);
      SettingsAreNoTmp(SETTINGS);
    }
  }

  // ----- what stops the second sync -----

  /** What is where the temporary name of a copied file is, after a sync that succeeded. */
  lemma TemporaryThen(src: Listing, before: Tree, top: bool, path: seq<string>, broken: Broken, k: nat)
    requires Listed(src) && !Clashes(src, before, top, path, broken)
    requires k < |src| && CopiedAs(src[k], before, top, Tmp(src[k].name))
    ensures IsDir(Merged(src, before, top), Tmp(src[k].name)) <==> exists i :: k < i < |src| && FolderAs(src[i], Tmp(src[k].name))
    ensures !Folder(src, Tmp(src[k].name), k)
  {
    hide Merged, Listed, Ships, Clashes, Sweeps, SubTree;
    var name := Tmp(src[k].name);
    CopiedIsShipped(src, before, top, path, broken, k);
    MergedIs(src, before, top, name);
    SweptAll(src, before, top, name, k);
    SettingsAreNoTmp(src[k].name);
    TmpIsOneToOne(src[k].name, src[k].name);
    hide MergedAt, CopiedAs, Tmp;
    var f := Find(src, name);
    if f == |src| || !FolderAs(src[f], name) {
      NotThere(src, before, top, name);
    }
    forall i | 0 <= i < |src| && FolderAs(src[i], name) ensures i == f {
      FindsIt(src, i);
    }
    if f < |src| && FolderAs(src[f], name) {
      FolderIs(src, before, top, path, broken, f);
      NoFolderAhead(src, name, k);
    }
  }

  lemma NoFolderAhead(src: Listing, name: string, k: nat)
    requires !Folder(src, name, k)
    ensures forall i :: 0 <= i < k && i < |src| ==> !FolderAs(src[i], name)
  {
  }

  lemma NotThere(src: Listing, before: Tree, top: bool, name: string)
    requires Sweeps(src, before, top, name, 0) && name != SETTINGS
    requires var f := Find(src, name); f == |src| || !FolderAs(src[f], name)
    ensures !IsDir(Merged(src, before, top), name)
  {
    hide Merged, Sweeps;
    MergedIs(src, before, top, name);
  }

  lemma SweptAll(src: Listing, before: Tree, top: bool, name: string, k: nat)
    requires k < |src| && CopiedAs(src[k], before, top, name)
    ensures Sweeps(src, before, top, name, 0)
  {
  }

  lemma CopiedIsShipped(src: Listing, before: Tree, top: bool, path: seq<string>, broken: Broken, k: nat)
    requires !Clashes(src, before, top, path, broken) && k < |src| && CopiedAs(src[k], before, top, Tmp(src[k].name))
    ensures !Folder(src, Tmp(src[k].name), k) && !broken(path + [src[k].name])
  {
    hide Clashes, Ships, Folder;
    ClashesIs(src, before, top, path, broken);
    assert !ClashAt(src, k, before, top, path, broken);
  }

  lemma FileAgain(src: Listing, before: Tree, top: bool, path: seq<string>, broken: Broken, k: nat)
    requires Listed(src) && !Clashes(src, before, top, path, broken)
    requires k < |src| && src[k].what.SFile? && Ships(src[k].name, src[k].what)
    ensures ClashAt(src, k, Merged(src, before, top), top, path, broken) <==> exists i :: k < i < |src| && TripsAt(src, top, k, i)
  {
    hide Merged, Listed, Ships, Clashes, Sweeps, FolderAs;
    var m := Merged(src, before, top);
    CopiedAgain(src, before, top, k, Tmp(src[k].name));
    if Settings(src[k].name, top) {
      SettingsAreThere(src, before, top, k);
    } else if CopiedAs(src[k], before, top, Tmp(src[k].name)) {
      CopiedIsShipped(src, before, top, path, broken, k);
      TemporaryThen(src, before, top, path, broken, k);
      FileIs(src, before, top, k);
      assert !IsDir(m, src[k].name);
      assert forall i :: 0 <= i < |src| ==> (TripsAt(src, top, k, i) <==> FolderAs(src[i], Tmp(src[k].name)));
      assert ClashAt(src, k, m, top, path, broken) <==> IsDir(m, Tmp(src[k].name));
    } else {
      KeptAgain(src, before, top, k);
    }
  }

  lemma KeptAgain(src: Listing, before: Tree, top: bool, k: nat)
    requires Listed(src) && k < |src| && src[k].what.SFile? && Keeps(before, src[k].name, top)
    ensures Keeps(Merged(src, before, top), src[k].name, top)
  {
    hide Merged, Listed;
    SettingsAreThere(src, before, top, k);
  }

  lemma FolderAgain(src: Listing, before: Tree, top: bool, path: seq<string>, broken: Broken, i: nat)
    requires Listed(src) && !Clashes(src, before, top, path, broken)
    requires i < |src| && src[i].what.SDir? && Ships(src[i].name, src[i].what)
    ensures ClashAt(src, i, Merged(src, before, top), top, path, broken)
       <==> Clashes(src[i].what.entries, Merged(src[i].what.entries, SubTree(before, src[i].name), false), false, path + [src[i].name], broken)
  {
    hide Merged, Listed, Ships, Clashes, SubTree;
    FolderIs(src, before, top, path, broken, i);
  }

  lemma TripsIs(src: Listing, top: bool)
    ensures Trips(src, top) <==>
              || (exists k, i :: 0 <= k < i < |src| && TripsAt(src, top, k, i))
              || (exists i :: 0 <= i < |src| && TripsIn(src[i]))
  {
    hide TripsAt, Ships;
    assert forall i :: 0 <= i < |src| ==>
        (TripsIn(src[i]) <==> src[i].what.SDir? && Ships(src[i].name, src[i].what) && Trips(src[i].what.entries, false));
  }

  predicate TripsIn(e: Entry) {
    e.what.SDir? && Ships(e.name, e.what) && Trips(e.what.entries, false)
  }

  /** A second sync stops exactly at a file in front of a folder of its temporary name. */
  lemma {:induction false} StopsAgain(src: Listing, before: Tree, top: bool, path: seq<string>, broken: Broken)
    requires Listed(src) && !Clashes(src, before, top, path, broken)
    ensures Clashes(src, Merged(src, before, top), top, path, broken) <==> Trips(src, top)
    decreases src
  {
    hide Merged, Listed, Ships, Clashes, ClashAt, Trips, TripsAt;
    var m := Merged(src, before, top);
    ClashesIs(src, m, top, path, broken);
    TripsIs(src, top);
    forall i | 0 <= i < |src|
      ensures ClashAt(src, i, m, top, path, broken) <==> TripsIn(src[i]) || exists j :: i < j < |src| && TripsAt(src, top, i, j)
    {
      EntryAgain(src, before, top, path, broken, i);
      if src[i].what.SDir? && Ships(src[i].name, src[i].what) {
        FoldersListed(src, i);
        FoldersStay(src, before, top, path, broken, i);
        StopsAgain(src[i].what.entries, SubTree(before, src[i].name), false, path + [src[i].name], broken);
      }
    }
    hide TripsIn;
    if k, i :| 0 <= k < i < |src| && TripsAt(src, top, k, i) {
      assert ClashAt(src, k, m, top, path, broken);
    }
  }

  lemma EntryAgain(src: Listing, before: Tree, top: bool, path: seq<string>, broken: Broken, i: nat)
    requires Listed(src) && !Clashes(src, before, top, path, broken) && i < |src|
    ensures src[i].what.SDir? && Ships(src[i].name, src[i].what) ==>
              (ClashAt(src, i, Merged(src, before, top), top, path, broken) <==>
               Clashes(src[i].what.entries, Merged(src[i].what.entries, SubTree(before, src[i].name), false), false, path + [src[i].name], broken))
              && forall j :: i < j < |src| ==> !TripsAt(src, top, i, j)
    ensures !(src[i].what.SDir? && Ships(src[i].name, src[i].what)) ==>
              (ClashAt(src, i, Merged(src, before, top), top, path, broken) <==> exists j :: i < j < |src| && TripsAt(src, top, i, j))
  {
    hide Merged, Listed, Clashes;
    if Ships(src[i].name, src[i].what) {
      if src[i].what.SDir? {
        FolderAgain(src, before, top, path, broken, i);
      } else {
        FileAgain(src, before, top, path, broken, i);
      }
    }
  }

  /** Once a plugin went in, a second sync of it succeeds and leaves everything as it is exactly
      when no file that is copied each time comes in front of a folder of its temporary name, and
      no file of the settings' temporary name comes in front of settings that were new. */
  lemma OnceIsEnoughIff(src: Listing, dst: Tree, top: bool, at: Path, broken: Broken)
    requires Listed(src) && Synced(src, dst, top, at, broken).ok
    ensures var o := Synced(src, dst, top, at, broken);
            && (Synced(src, o.tree, top, at, broken).ok <==> !Trips(src, top))
            && (SameEnd(Synced(src, o.tree, top, at, broken), o.tree, true) <==> !Trips(src, top) && !Returns(src, dst, top))
  {
    hide Synced, Clashes, Merged, Listed, Trips, Returns;
    var o := Synced(src, dst, top, at, broken);
    SyncedIsMerged(src, dst, top, at, broken);
    SyncedIsMerged(src, o.tree, top, at, broken);
    StopsAgain(src, dst, top, at, broken);
    MergedAgain(src, dst, top, at, broken);
  }

  /** A plugin with a file "-a" and a folder of its temporary name behind it goes in once, and
      not a second time. */
  lemma GoesInOnce(content: string, broken: Broken)
    requires forall p :: !broken(p)
    ensures var src := [Entry("-a", SFile(content)), Entry(".-a.sync-tmp", SDir([]))];
            var o := Synced(src, map[], true, ["p"], broken);
            o.ok && !Synced(src, o.tree, true, ["p"], broken).ok
  {
    hide Synced, Clashes, Merged, Listed, Trips, Ships;
    var src := [Entry("-a", SFile(content)), Entry(".-a.sync-tmp", SDir([]))];
    TwoEntries(src, content, broken);
    SyncedIsMerged(src, map[], true, ["p"], broken);
    OnceIsEnoughIff(src, map[], true, ["p"], broken);
  }

  lemma TwoEntries(src: Listing, content: string, broken: Broken)
    requires src == [Entry("-a", SFile(content)), Entry(".-a.sync-tmp", SDir([]))] && forall p :: !broken(p)
    ensures Listed(src) && !Clashes(src, map[], true, ["p"], broken) && Trips(src, true)
  {
    assert |src[0].name| == 2 && |src[1].name| > 2;
    assert Tmp("-a") == ".-a.sync-tmp";
    assert ".-a.sync-tmp"[0] == '.' && "__pycache__"[0] == '_' && "-a"[0] == '-' && SETTINGS[0] == 'c';
    assert TripsAt(src, true, 0, 1);
    hide Ships, Tmp;
    assert !Clashes([], map[], false, ["p"] + [".-a.sync-tmp"], broken);
    ClashesIs(src, map[], true, ["p"], broken);
    assert !ClashAt(src, 0, map[], true, ["p"], broken);
    assert !ClashAt(src, 1, map[], true, ["p"], broken);
  }

  // ----- a whole source -----

  lemma {:induction false} FailedAreLoaded(src: Listing, root: Tree, broken: Broken, name: string)
    requires name in WithAll(src, root, broken).1
    ensures exists i :: 0 <= i < |src| && Loads(src[i]) && src[i].name == name
    decreases |src|
  {
    hide Synced;
    if Loads(src[0]) && src[0].name == name {
      return;
    }
    FailedAreLoaded(src[1..], WithPlugin(src[0], root, broken).0, broken, name);
    var i :| 0 <= i < |src[1..]| && Loads(src[1..][i]) && src[1..][i].name == name;
    assert src[i + 1] == src[1..][i];
  }

  /** What a second sync changes nothing about: a plugin that went in. */
  predicate Settled(e: Entry, root: Tree) {
    Loads(e) ==> !Trips(e.what.entries, true) && !Returns(e.what.entries, SubTree(root, e.name), true)
  }

  /** What becomes of a plugin that goes in. */
  lemma GoneIn(e: Entry, root: Tree, broken: Broken)
    requires Loads(e) && WithPlugin(e, root, broken).1
    ensures var o := Synced(e.what.entries, SubTree(root, e.name), true, [e.name], broken);
            o.ok && Got(WithPlugin(e, root, broken).0, e.name) == Some(Dir(o.tree))
  {
    hide Synced;
  }

  lemma PluginTwiceIff(src: Listing, root: Tree, broken: Broken, i: nat)
    requires NamesDiffer(src) && i < |src| && Loads(src[i]) && Listed(src[i].what.entries)
    requires src[i].name !in WithAll(src, root, broken).1
    ensures var all := WithAll(src, root, broken).0;
            var again := WithAll(src, all, broken);
            Got(again.0, src[i].name) == Got(all, src[i].name) && src[i].name !in again.1 <==> Settled(src[i], root)
  {
    var e := src[i];
    assert e.what.SDir?;
    hide Synced, WithAll, Trips, Returns, Listed, WithPlugin, Loads;
    var all := WithAll(src, root, broken).0;
    PluginStandsAlone(src, root, broken, i);
    PluginStandsAlone(src, all, broken, i);
    GoneIn(e, root, broken);
    var o := Synced(e.what.entries, SubTree(root, e.name), true, [e.name], broken);
    PluginIs(e, all, broken);
    assert SubTree(all, e.name) == o.tree;
    OnceIsEnoughIff(e.what.entries, SubTree(root, e.name), true, [e.name], broken);
  }

  /** When every plugin went in, a second sync succeeds and leaves the whole target as it is
      exactly when each of them is one that a second sync changes nothing about. */
  lemma SyncTwiceIff(src: Listing, root: Tree, broken: Broken)
    requires NamesDiffer(src) && forall i :: 0 <= i < |src| && Loads(src[i]) ==> Listed(src[i].what.entries)
    requires WithAll(src, root, broken).1 == []
    ensures var all := WithAll(src, root, broken);
            WithAll(src, all.0, broken) == all <==> forall i :: 0 <= i < |src| ==> Settled(src[i], root)
  {
    hide WithAll, Trips, Returns, Listed, Loads;
    var all := WithAll(src, root, broken).0;
    var again := WithAll(src, all, broken);
    forall i | 0 <= i < |src| && Loads(src[i])
      ensures Got(again.0, src[i].name) == Got(all, src[i].name) && src[i].name !in again.1 <==> Settled(src[i], root)
    {
      PluginTwiceIff(src, root, broken, i);
    }
    if forall i :: 0 <= i < |src| ==> Settled(src[i], root) {
      forall n ensures Got(again.0, n) == Got(all, n) {
        if forall i :: 0 <= i < |src| && Loads(src[i]) ==> src[i].name != n {
          OthersStay(src, all, broken, n);
        }
      }
      SameTrees(again.0, all);
      if again.1 != [] {
        FailedAreLoaded(src, all, broken, again.1[0]);
      }
    }
  }
}
