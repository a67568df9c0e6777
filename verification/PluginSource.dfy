/** The whole source: every plugin of it, each on its own. */
module PluginSource {
  import opened Wrappers
  import opened PluginSync
  import opened PluginMerge
  import opened PluginRuns

  /** A folder of the source that is a plugin. */
  predicate Loads(e: Entry) {
    e.what.SDir? && (e.name == "" || e.name[0] !in {'.', '_'})
  }

  /** The plugin's folder in the target, brought in; false when it did not go in. */
  function WithPlugin(e: Entry, root: Tree, broken: Broken): (Tree, bool) {
    if !Loads(e) then (root, true)
    else if e.name in root && !root[e.name].Dir? then (root, false)
    else
      var o := Synced(e.what.entries, SubTree(root, e.name), true, [e.name], broken);
      (root[e.name := Dir(o.tree)], o.ok)
  }

  /** All plugins, and the names of those that did not go in. */
  function WithAll(src: Listing, root: Tree, broken: Broken): (Tree, seq<string>)
    decreases |src|
  {
    if src == [] then (root, [])
    else
      var one := WithPlugin(src[0], root, broken);
      var rest := WithAll(src[1..], one.0, broken);
      (rest.0, (if one.1 then [] else [src[0].name]) + rest.1)
  }

  /** sync: the source is a folder or it is not, the target is a folder, not there yet, or
      something else that is left alone.  same: both are one directory. */
  function Sync(source: Src, target: Option<Node>, same: bool, broken: Broken): (Option<Node>, seq<string>) {
    if !source.SDir? then (target, ["*"])
    else if same then (target, [])
    else if target.Some? && !target.value.Dir? then (target, ["*"])
    else
      var all := WithAll(source.entries, if target.Some? then target.value.entries else map[], broken);
      (Some(Dir(all.0)), all.1)
  }

  method SyncPlugins(source: Src, target: Option<Node>, same: bool, broken: Broken)
    returns (after: Option<Node>, failed: seq<string>)
    ensures (after, failed) == Sync(source, target, same, broken)
  {
    hide Synced, WithPlugin, WithAll;
    if !source.SDir? {
      return target, ["*"];
    }
    if same {
      return target, [];
    }
    if target.Some? && !target.value.Dir? {
      return target, ["*"];
    }
    var root := if target.Some? then target.value.entries else map[];
    ghost var start := root;
    failed := [];
    var src := source.entries;
    assert src[0..] == src && failed + WithAll(src, root, broken).1 == WithAll(src, root, broken).1;
    var i := 0;
    while i < |src|
      invariant 0 <= i <= |src|
      invariant var rest := WithAll(src[i..], root, broken);
                WithAll(src, start, broken) == (rest.0, failed + rest.1)
    {
      var e := src[i];
      assert src[i..][0] == e && src[i..][1..] == src[i + 1..];
      PluginIs(e, root, broken);
      FirstOfAll(src[i..], root, broken);
      OneFailedMore(failed, e.name, WithAll(src[i + 1..], WithPlugin(e, root, broken).0, broken).1);
      if Loads(e) {
        if e.name in root && !root[e.name].Dir? {
          failed := failed + [e.name];
        } else {
          var o := SyncTree(e.what.entries, SubTree(root, e.name), true, [e.name], broken);
          root := root[e.name := Dir(o.tree)];
          if !o.ok {
            failed := failed + [e.name];
          }
        }
      }
      i := i + 1;
    }
    NothingLeftOver(src[i..], root, broken);
    assert failed + [] == failed;
    after := Some(Dir(root));
  }

  lemma FirstOfAll(src: Listing, root: Tree, broken: Broken)
    requires src != []
    ensures var one := WithPlugin(src[0], root, broken);
            var rest := WithAll(src[1..], one.0, broken);
            WithAll(src, root, broken) == (rest.0, if one.1 then rest.1 else [src[0].name] + rest.1)
  {
    hide WithPlugin;
    var rest := WithAll(src[1..], WithPlugin(src[0], root, broken).0, broken);
    assert [] + rest.1 == rest.1;
  }

  lemma NothingLeftOver(src: Listing, root: Tree, broken: Broken)
    requires src == []
    ensures WithAll(src, root, broken) == (root, [])
  {
  }

  lemma OneFailedMore(failed: seq<string>, name: string, rest: seq<string>)
    ensures failed + ([name] + rest) == (failed + [name]) + rest
  {
  }

  lemma PluginIs(e: Entry, root: Tree, broken: Broken)
    ensures WithPlugin(e, root, broken) ==
            if !Loads(e) then (root, true)
            else if e.name in root && !root[e.name].Dir? then (root, false)
            else
              var o := Synced(e.what.entries, SubTree(root, e.name), true, [e.name], broken);
              (root[e.name := Dir(o.tree)], o.ok)
  {
  }

  // ----- each plugin on its own -----

  predicate NamesDiffer(src: Listing) {
    forall i, j :: 0 <= i < j < |src| ==> src[i].name != src[j].name
  }

  lemma {:induction false} OthersStay(src: Listing, root: Tree, broken: Broken, name: string)
    requires forall i :: 0 <= i < |src| && Loads(src[i]) ==> src[i].name != name
    ensures Got(WithAll(src, root, broken).0, name) == Got(root, name) && name !in WithAll(src, root, broken).1
    decreases |src|
  {
    if src != [] {
      hide Synced;
      assert forall i :: 0 <= i < |src[1..]| ==> src[1..][i] == src[i + 1];
      OthersStay(src[1..], WithPlugin(src[0], root, broken).0, broken, name);
    }
  }

  lemma SamePlugin(e: Entry, a: Tree, b: Tree, broken: Broken)
    requires Got(a, e.name) == Got(b, e.name)
    ensures Got(WithPlugin(e, a, broken).0, e.name) == Got(WithPlugin(e, b, broken).0, e.name)
    ensures WithPlugin(e, a, broken).1 == WithPlugin(e, b, broken).1
  {
    hide Synced;
    assert SubTree(a, e.name) == SubTree(b, e.name);
  }

  lemma OnlyItsFolder(e: Entry, root: Tree, broken: Broken, name: string)
    requires name != e.name
    ensures Got(WithPlugin(e, root, broken).0, name) == Got(root, name)
  {
    hide Synced;
  }

  /** What becomes of a plugin, and whether it went in, depends on nothing but itself and its
      own folder: no other plugin's failure touches it. */
  lemma {:induction false} PluginStandsAlone(src: Listing, root: Tree, broken: Broken, i: nat)
    requires NamesDiffer(src) && i < |src| && Loads(src[i])
    ensures var one, all := WithPlugin(src[i], root, broken), WithAll(src, root, broken);
            Got(all.0, src[i].name) == Got(one.0, src[i].name) && (src[i].name in all.1 <==> !one.1)
    decreases |src|
  {
    hide WithPlugin;
    var one := WithPlugin(src[0], root, broken);
    assert forall k :: 0 <= k < |src[1..]| ==> src[1..][k] == src[k + 1];
    if i == 0 {
      OthersStay(src[1..], one.0, broken, src[0].name);
    } else {
      assert src[i].name != src[0].name;
      OnlyItsFolder(src[0], root, broken, src[i].name);
      PluginStandsAlone(src[1..], one.0, broken, i - 1);
      SamePlugin(src[i], root, one.0, broken);
    }
  }

  /** A plugin goes in exactly when nothing is in the way of it in its own folder, and then its
      folder holds what should be there. */
  lemma PluginGoesIn(src: Listing, root: Tree, broken: Broken, i: nat)
    requires NamesDiffer(src) && i < |src| && Loads(src[i]) && Listed(src[i].what.entries)
    ensures var (after, failed) := WithAll(src, root, broken);
            var e := src[i];
            && (e.name !in failed <==>
                (e.name in root ==> root[e.name].Dir?) && !Clashes(e.what.entries, SubTree(root, e.name), true, [e.name], broken))
            && (e.name !in failed ==> Got(after, e.name) == Some(Dir(Merged(e.what.entries, SubTree(root, e.name), true))))
  {
    hide WithAll, Synced, Clashes, Merged, Listed;
    PluginStandsAlone(src, root, broken, i);
    SyncedIsMerged(src[i].what.entries, SubTree(root, src[i].name), true, [src[i].name], broken);
  }

  /** Every shipped regular file of a plugin that went in is in the target with its content, for
      owner and group to read, the settings for the owner alone (0640 and 0600) - but for settings
      that were there, which are as they were, and it is missing exactly when a file behind it was
      copied under its name. */
  lemma EveryFileArrives(src: Listing, root: Tree, broken: Broken, i: nat, path: Path)
    requires NamesDiffer(src) && i < |src| && Loads(src[i]) && Listed(src[i].what.entries)
    requires path != [] && FileAt(src[i].what.entries, path).Some?
    requires src[i].name !in WithAll(src, root, broken).1
    ensures var before, after := SubTree(root, src[i].name), WithAll(src, root, broken).0;
            NodeAt(after, [src[i].name] + path) ==
            if path == ["config.json"] && "config.json" in before then Some(before["config.json"])
            else if LostAt(src[i].what.entries, before, true, path) then None
            else Some(File(FileAt(src[i].what.entries, path).value, if path == ["config.json"] then 384 else 416))
  {
    hide WithAll, Clashes, Merged, Listed, FileAt, LostAt;
    PluginGoesIn(src, root, broken, i);
    MergedHasFile(src[i].what.entries, SubTree(root, src[i].name), true, path);
    var whole := [src[i].name] + path;
    NodeInFolder(WithAll(src, root, broken).0, whole);
    assert whole[1..] == path;
  }

  /** Only a folder whose name begins with no dot and no underscore is brought in: what else the
      source lists changes nothing under its name, and counts for no failure. */
  lemma OnlyPluginsGoIn(src: Listing, root: Tree, broken: Broken, i: nat)
    requires NamesDiffer(src) && i < |src|
    requires !src[i].what.SDir? || "." <= src[i].name || "_" <= src[i].name
    ensures Got(WithAll(src, root, broken).0, src[i].name) == Got(root, src[i].name)
    ensures src[i].name !in WithAll(src, root, broken).1
  {
    assert "." <= src[i].name ==> src[i].name[0] == '.';
    assert "_" <= src[i].name ==> src[i].name[0] == '_';
    assert !Loads(src[i]);
    forall j | 0 <= j < |src| && Loads(src[j]) ensures src[j].name != src[i].name {
      assert j != i;
    }
    OthersStay(src, root, broken, src[i].name);
  }

  /** A path of the target that no plugin ships. */
  predicate ForeignToAll(src: Listing, path: Path) {
    && path != []
    && forall i :: 0 <= i < |src| && Loads(src[i]) && src[i].name == path[0] ==>
         |path| > 1 && Foreign(src[i].what.entries, path[1..])
  }

  /** What no plugin ships is as it was, at every depth, whichever plugins fail: the admin's own
      plugins, what a plugin wrote, compiled code. */
  lemma {:induction false} NothingElseChanges(src: Listing, root: Tree, broken: Broken, path: Path)
    requires ForeignToAll(src, path)
    ensures NodeAt(WithAll(src, root, broken).0, path) == NodeAt(root, path)
    decreases |src|
  {
    hide Synced;
    if src != [] {
      var e, one := src[0], WithPlugin(src[0], root, broken);
      assert forall k :: 0 <= k < |src[1..]| ==> src[1..][k] == src[k + 1];
      NothingElseChanges(src[1..], one.0, broken, path);
      if path[0] != e.name {
        OnlyItsFolder(e, root, broken, path[0]);
        NodeFromName(one.0, root, path);
      } else if Loads(e) && !(e.name in root && !root[e.name].Dir?) {
        ForeignStays(e.what.entries, SubTree(root, e.name), true, [e.name], broken, path[1..]);
        NodeInFolder(root, path);
        NodeInFolder(one.0, path);
      }
    }
  }

  // ----- twice -----

  lemma PluginAgain(e: Entry, root: Tree, broken: Broken)
    requires Loads(e) ==> ListingOk(e.what.entries)
    ensures var one := WithPlugin(e, root, broken);
            WithPlugin(e, one.0, broken) == one
  {
    hide Synced, ListingOk;
    if Loads(e) && !(e.name in root && !root[e.name].Dir?) {
      TwiceIsOnce(e.what.entries, SubTree(root, e.name), true, [e.name], broken);
      var one := WithPlugin(e, root, broken);
      assert one.0[e.name := one.0[e.name]] == one.0;
    }
  }

  predicate SourceOk(src: Listing) {
    NamesDiffer(src) && forall i :: 0 <= i < |src| && Loads(src[i]) ==> ListingOk(src[i].what.entries)
  }

  lemma FirstAgain(src: Listing, root: Tree, broken: Broken)
    requires src != [] && SourceOk(src)
    ensures var one := WithPlugin(src[0], root, broken);
            var after := WithAll(src[1..], one.0, broken).0;
            WithPlugin(src[0], after, broken) == (after, one.1)
  {
    hide Synced, ListingOk, WithAll;
    var e := src[0];
    var one := WithPlugin(e, root, broken);
    var after := WithAll(src[1..], one.0, broken).0;
    if Loads(e) {
      assert forall k :: 0 <= k < |src[1..]| ==> src[1..][k] == src[k + 1];
      OthersStay(src[1..], one.0, broken, e.name);
      PluginAgain(e, root, broken);
      SamePlugin(e, after, one.0, broken);
      var again := WithPlugin(e, after, broken);
      forall n ensures Got(again.0, n) == Got(after, n) {
        if n != e.name {
          OnlyItsFolder(e, after, broken, n);
        }
      }
      SameTrees(again.0, after);
    }
  }

  /** Syncing twice is syncing once: the same tree, and the same plugins did not go in. */
  lemma {:induction false} SyncTwice(src: Listing, root: Tree, broken: Broken)
    requires SourceOk(src)
    ensures var all := WithAll(src, root, broken);
            WithAll(src, all.0, broken) == all
    decreases |src|
  {
    hide WithPlugin, ListingOk;
    if src != [] {
      var one := WithPlugin(src[0], root, broken);
      FirstAgain(src, root, broken);
      assert forall k :: 0 <= k < |src[1..]| ==> src[1..][k] == src[k + 1];
      SyncTwice(src[1..], one.0, broken);
    }
  }

  // ----- temporary names in the source -----

  /** In a sync that reports no failure a shipped file holds its content exactly when no file
      listed behind it is copied under its name; otherwise it is gone.  Settings that are kept
      copy nothing, and are not lost. */
  lemma ShippedTemporaryIsLost(src: Listing, dst: Tree, top: bool, at: Path, broken: Broken, i: nat)
    requires Listed(src) && i < |src| && src[i].what.SFile? && Ships(src[i].name, src[i].what)
    requires Synced(src, dst, top, at, broken).ok && !Keeps(dst, src[i].name, top)
    ensures Got(Synced(src, dst, top, at, broken).tree, src[i].name) ==
            if exists j :: i < j < |src| && CopiedAs(src[j], dst, top, src[i].name) then None
            else Some(File(src[i].what.content, ModeOf(src[i].name, top)))
  {
    hide Synced, Listed, Merged, Clashes;
    SyncedIsMerged(src, dst, top, at, broken);
    MergedIs(src, dst, top, src[i].name);
    FoundAt(src, i);
    TmpIsOneToOne(src[i].name, src[i].name);
    hide CopiedAs;
    if Sweeps(src, dst, top, src[i].name, i) {
      var j :| i <= j < |src| && CopiedAs(src[j], dst, top, src[i].name);
      NotItsOwn(src[i], dst, top);
    }
  }

  lemma NotItsOwn(e: Entry, dst: Tree, top: bool)
    ensures !CopiedAs(e, dst, top, e.name)
  {
    TmpIsOneToOne(e.name, e.name);
  }

  lemma FoundAt(src: Listing, i: nat)
    requires Listed(src) && i < |src|
    ensures Find(src, src[i].name) == i
  {
    var k := Find(src, src[i].name);
    assert src[k].name == src[i].name;
  }
}
