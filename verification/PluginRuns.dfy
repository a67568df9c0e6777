/** What a sync promises, path by path and plugin by plugin. */
module PluginRuns {
  import opened Wrappers
  import opened PluginSync
  import opened PluginMerge

  type Path = seq<string>

  function NodeAt(t: Tree, path: Path): Option<Node>
    requires path != []
    decreases |path|
  {
    if path[0] !in t then None
    else if |path| == 1 then Some(t[path[0]])
    else if t[path[0]].Dir? then NodeAt(t[path[0]].entries, path[1..])
    else None
  }

  /** The shipped regular file at a path: through no link, no bytecode, no __pycache__. */
  function FileAt(src: Listing, path: Path): Option<string>
    requires path != []
    decreases |path|
  {
    var i := Find(src, path[0]);
    if i == |src| || !Ships(path[0], src[i].what) then None
    else match src[i].what
      case SFile(content) => if |path| == 1 then Some(content) else None
      case SDir(entries) => if |path| == 1 then None else FileAt(entries, path[1..])
      case _ => None
  }

  /** Nothing at this path is shipped, temporary names aside. */
  predicate Foreign(src: Listing, path: Path)
    requires path != []
    decreases |path|
  {
    forall i :: 0 <= i < |src| && Ships(src[i].name, src[i].what) ==>
      && (path[0] == src[i].name ==> src[i].what.SDir? && |path| > 1 && Foreign(src[i].what.entries, path[1..]))
      && (path[0] == Tmp(src[i].name) ==> !src[i].what.SFile?)
  }

  /** What is shipped of a folder: regular files but compiled code, and folders but the one of
      compiled code; no links and nothing special. */
  lemma ShipsIff(name: string, s: Src)
    ensures Ships(name, s) <==>
              || (s.SFile? && !exists front :: name == front + ".pyc" || name == front + ".pyo")
              || (s.SDir? && name != "__pycache__")
  {
    forall front | name == front + ".pyc" || name == front + ".pyo" ensures EndsWith(name, ".pyc") || EndsWith(name, ".pyo") {
      assert name[|name| - 4..] == name[|front|..];
    }
    if EndsWith(name, ".pyc") || EndsWith(name, ".pyo") {
      var front := name[..|name| - 4];
      assert name == front + name[|name| - 4..];
    }
  }

  // ----- what is shipped arrives -----

  /** A file behind it in its folder is copied under the name of what is at this path, or of a
      folder on the way to it. */
  predicate LostAt(src: Listing, before: Tree, top: bool, path: Path)
    requires path != []
    decreases |path|
  {
    var i := Find(src, path[0]);
    || Sweeps(src, before, top, path[0], i)
    || (|path| > 1 && i < |src| && src[i].what.SDir?
        && LostAt(src[i].what.entries, SubTree(before, path[0]), false, path[1..]))
  }

  lemma {:induction false} MergedHasFile(src: Listing, before: Tree, top: bool, path: Path)
    requires Listed(src) && path != [] && FileAt(src, path).Some?
    ensures NodeAt(Merged(src, before, top), path) ==
            if path == [SETTINGS] && Keeps(before, SETTINGS, top) then Some(before[SETTINGS])
            else if LostAt(src, before, top, path) then None
            else Some(File(FileAt(src, path).value, if top && path == [SETTINGS] then STATE_MODE else FILE_MODE))
    decreases |path|
  {
    hide Merged, Listed, Sweeps;
    MergedIs(src, before, top, path[0]);
    var i := Find(src, path[0]);
    if |path| > 1 {
      FoldersListed(src, i);
      MergedHasFile(src[i].what.entries, SubTree(before, path[0]), false, path[1..]);
    } else {
      assert path == [path[0]];
    }
  }

  // ----- the rest is left alone -----

  lemma {:induction false} EmptyHasNothing(path: Path)
    requires path != []
    ensures NodeAt(map[], path) == None
  {
  }

  lemma NodeInFolder(t: Tree, path: Path)
    requires |path| > 1
    ensures NodeAt(t, path) == NodeAt(SubTree(t, path[0]), path[1..])
  {
    EmptyHasNothing(path[1..]);
  }

  lemma NodeFromName(a: Tree, b: Tree, path: Path)
    requires path != [] && Got(a, path[0]) == Got(b, path[0])
    ensures NodeAt(a, path) == NodeAt(b, path)
  {
  }

  /** What the source does not ship is as it was, at every depth, whether the sync succeeds or
      stops half way. */
  lemma {:induction false} ForeignStays(src: Listing, dst: Tree, top: bool, at: Path, broken: Broken, path: Path)
    requires path != [] && Foreign(src, path)
    ensures NodeAt(Synced(src, dst, top, at, broken).tree, path) == NodeAt(dst, path)
    decreases |path|, |src|
  {
    if src != [] {
      var e := src[0];
      SyncedIs(src, dst, top, at, broken);
      var o := Step(e, dst, top, at, broken);
      assert NodeAt(o.tree, path) == NodeAt(dst, path) by {
        if path[0] == e.name && Ships(e.name, e.what) {
          ForeignStays(e.what.entries, SubTree(dst, e.name), false, at + [e.name], broken, path[1..]);
          NodeInFolder(dst, path);
          NodeInFolder(o.tree, path);
        } else {
          StepLeaves(e, dst, top, at, broken, path[0]);
          NodeFromName(o.tree, dst, path);
        }
      }
      if o.ok {
        ForeignTail(src, path);
        ForeignStays(src[1..], o.tree, top, at, broken, path);
      }
    }
  }

  lemma StepLeaves(e: Entry, dst: Tree, top: bool, at: Path, broken: Broken, name: string)
    requires !(name == e.name && Ships(e.name, e.what))
    requires !(name == Tmp(e.name) && e.what.SFile? && Ships(e.name, e.what))
    ensures Got(Step(e, dst, top, at, broken).tree, name) == Got(dst, name)
  {
    hide Below, Synced;
  }

  lemma ForeignTail(src: Listing, path: Path)
    requires path != [] && src != [] && Foreign(src, path)
    ensures Foreign(src[1..], path)
  {
    assert forall i :: 0 <= i < |src[1..]| ==> src[1..][i] == src[i + 1];
  }

  // ----- a link in the way -----

  /** A link, or anything else that is no directory, where a folder belongs is not gone through:
      the sync stops and leaves it, unless a file ahead was copied under that very name, which
      takes it away. */
  lemma NothingIsFollowed(src: Listing, dst: Tree, top: bool, at: Path, broken: Broken, i: nat)
    requires Listed(src) && i < |src| && src[i].what.SDir? && Ships(src[i].name, src[i].what)
    requires src[i].name in dst && !dst[src[i].name].Dir? && !SweptAhead(src, dst, top, src[i].name, i)
    ensures !Synced(src, dst, top, at, broken).ok
    ensures Got(Synced(src, dst, top, at, broken).tree, src[i].name) == Some(dst[src[i].name])
  {
    hide Synced, Clashes, Listed, SweptAhead;
    SyncedIsMerged(src, dst, top, at, broken);
    ClashesIs(src, dst, top, at, broken);
    assert ClashAt(src, i, dst, top, at, broken);
    BlockedStays(src, dst, top, at, broken, i);
  }

  lemma {:induction false} BlockedStays(src: Listing, dst: Tree, top: bool, at: Path, broken: Broken, i: nat)
    requires Listed(src) && i < |src| && src[i].what.SDir? && Ships(src[i].name, src[i].what)
    requires src[i].name in dst && !dst[src[i].name].Dir? && !SweptAhead(src, dst, top, src[i].name, i)
    ensures Got(Synced(src, dst, top, at, broken).tree, src[i].name) == Some(dst[src[i].name])
    decreases |src|
  {
    hide Synced, Listed, Ships, SweptAhead, Step;
    SyncedIs(src, dst, top, at, broken);
    var o := Step(src[0], dst, top, at, broken);
    if i > 0 {
      TailListed(src);
      StepIsLocal(src[0], dst, top, at, broken);
      AheadTail(src, dst, o.tree, top, src[i].name, i);
      BlockedStep(src[0], dst, top, at, broken, src[i].name);
      if o.ok {
        assert src[1..][i - 1] == src[i];
        BlockedStays(src[1..], o.tree, top, at, broken, i - 1);
      }
    } else {
      StepIs(src[0], dst, top, at, broken);
    }
  }

  lemma BlockedStep(e: Entry, dst: Tree, top: bool, at: Path, broken: Broken, name: string)
    requires name != e.name && !CopiedAs(e, dst, top, name)
    ensures Got(Step(e, dst, top, at, broken).tree, name) == Got(dst, name)
  {
    hide Below, Synced;
  }

  // ----- twice is once -----

  lemma {:induction false} SyncedIsLocal(src: Listing, dst: Tree, top: bool, at: Path, broken: Broken, name: string)
    requires forall i :: 0 <= i < |src| ==> name != src[i].name && name != Tmp(src[i].name)
    ensures Got(Synced(src, dst, top, at, broken).tree, name) == Got(dst, name)
    decreases |src|
  {
    if src != [] {
      hide Synced, Step, SameBut;
      SyncedIs(src, dst, top, at, broken);
      var o := Step(src[0], dst, top, at, broken);
      StepIsLocal(src[0], dst, top, at, broken);
      SameButAt(src[0], dst, o.tree, name);
      if o.ok {
        assert forall i :: 0 <= i < |src[1..]| ==> src[1..][i] == src[i + 1];
        SyncedIsLocal(src[1..], o.tree, top, at, broken, name);
      }
    }
  }

  predicate SameEnd(o: Outcome, tree: Tree, ok: bool) {
    o.tree == tree && o.ok == ok
  }

  lemma StepAgain(e: Entry, dst: Tree, later: Tree, top: bool, at: Path, broken: Broken)
    requires var o := Step(e, dst, top, at, broken);
             && Got(later, e.name) == Got(o.tree, e.name) && Got(later, Tmp(e.name)) == Got(o.tree, Tmp(e.name))
             && (!o.ok ==> later == o.tree)
    requires e.what.SDir? ==>
               var b := Below(e, dst, at, broken);
               SameEnd(Synced(e.what.entries, b.tree, false, at + [e.name], broken), b.tree, b.ok)
    ensures SameEnd(Step(e, later, top, at, broken), later, Step(e, dst, top, at, broken).ok)
  {
    hide Synced, Ships;
    TmpIsOneToOne(e.name, e.name);
    StepIs(e, dst, top, at, broken);
    StepIs(e, later, top, at, broken);
    hide Step;
    if e.what.SDir? && Ships(e.name, e.what) && !(e.name in dst && !dst[e.name].Dir?) {
      var b := Below(e, dst, at, broken);
      assert later[e.name] == Dir(b.tree) && SubTree(later, e.name) == b.tree;
      assert later[e.name := Dir(b.tree)] == later;
    } else if e.what.SFile? && Ships(e.name, e.what) && !Keeps(dst, e.name, top) {
      CopyAgain(e, dst, later, top, broken(at + [e.name]));
    }
  }

  lemma CopyAgain(e: Entry, dst: Tree, later: Tree, top: bool, broken: bool)
    requires e.what.SFile? && !Keeps(dst, e.name, top)
    requires var o := Copied(dst, e.name, e.what.content, ModeOf(e.name, top), broken);
             && Got(later, e.name) == Got(o.tree, e.name) && Got(later, Tmp(e.name)) == Got(o.tree, Tmp(e.name))
             && (!o.ok ==> later == o.tree)
    ensures var o := Copied(dst, e.name, e.what.content, ModeOf(e.name, top), broken);
            if Keeps(later, e.name, top) then o.ok
            else SameEnd(Copied(later, e.name, e.what.content, ModeOf(e.name, top), broken), later, o.ok)
  {
    TmpIsOneToOne(e.name, e.name);
    var tmp := Tmp(e.name);
    if tmp !in later {
      assert later - {tmp} == later;
    }
  }

  lemma {:induction false} TwiceIsOnce(src: Listing, dst: Tree, top: bool, at: Path, broken: Broken)
    requires ListingOk(src)
    ensures var o := Synced(src, dst, top, at, broken);
            SameEnd(Synced(src, o.tree, top, at, broken), o.tree, o.ok)
    decreases src
  {
    if src != [] {
      var e := src[0];
      hide Synced, Step, ListingOk, SameEnd, Below;
      TailOk(src);
      SyncedIs(src, dst, top, at, broken);
      var first := Step(e, dst, top, at, broken);
      var o := Synced(src, dst, top, at, broken);
      if e.what.SDir? {
        FoldersOk(src, 0);
        TwiceIsOnce(e.what.entries, SubTree(dst, e.name), false, at + [e.name], broken);
        BelowIs(e, dst, at, broken);
      }
      if first.ok {
        var rest := Synced(src[1..], first.tree, top, at, broken);
        TwiceIsOnce(src[1..], first.tree, top, at, broken);
        TailLeaves(src, first.tree, top, at, broken);
      }
      StepAgain(e, dst, o.tree, top, at, broken);
      SyncedIs(src, o.tree, top, at, broken);
      AgainEnds(src, dst, top, at, broken);
    }
  }

  lemma BelowIs(e: Entry, dst: Tree, at: Path, broken: Broken)
    requires e.what.SDir?
    ensures Below(e, dst, at, broken) == Synced(e.what.entries, SubTree(dst, e.name), false, at + [e.name], broken)
  {
  }

  lemma TailLeaves(src: Listing, dst: Tree, top: bool, at: Path, broken: Broken)
    requires ListingOk(src) && src != []
    ensures var t := Synced(src[1..], dst, top, at, broken).tree;
            Got(t, src[0].name) == Got(dst, src[0].name) && Got(t, Tmp(src[0].name)) == Got(dst, Tmp(src[0].name))
  {
    hide Synced, ListingOk;
    TailOk(src);
    forall i | 0 <= i < |src[1..]| ensures Tmp(src[0].name) != Tmp(src[1..][i].name) && src[1..][i] == src[i + 1] {
      TmpIsOneToOne(src[0].name, src[1..][i].name);
    }
    SyncedIsLocal(src[1..], dst, top, at, broken, src[0].name);
    SyncedIsLocal(src[1..], dst, top, at, broken, Tmp(src[0].name));
  }

  lemma AgainEnds(src: Listing, dst: Tree, top: bool, at: Path, broken: Broken)
    requires src != []
    requires var first := Step(src[0], dst, top, at, broken);
             var o := Synced(src, dst, top, at, broken);
             && SameEnd(Step(src[0], o.tree, top, at, broken), o.tree, first.ok)
             && (first.ok ==>
                   var rest := Synced(src[1..], first.tree, top, at, broken);
                   SameEnd(Synced(src[1..], rest.tree, top, at, broken), rest.tree, rest.ok))
    ensures var o := Synced(src, dst, top, at, broken);
            SameEnd(Synced(src, o.tree, top, at, broken), o.tree, o.ok)
  {
    hide Synced, Step;
    SyncedIs(src, dst, top, at, broken);
    SyncedIs(src, Synced(src, dst, top, at, broken).tree, top, at, broken);
  }
}
