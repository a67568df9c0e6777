/**
 Bringing the shipped plugins into the directory they are loaded from
 (packaging/plugins/sync_plugins.py).  Directories are values here; a target's links are
 leaves, so whether one is followed shows in what happens to it.
 */
module PluginSync {
  /** What is in the target. */
  datatype Node = File(content: string, mode: nat) | Link(to: string) | Special | Dir(entries: map<string, Node>)

  type Tree = map<string, Node>

  /** What is shipped, in the order it is gone through. */
  datatype Src = SFile(content: string) | SDir(entries: Listing) | SLink | SOther

  datatype Entry = Entry(name: string, what: Src)

  type Listing = seq<Entry>

  /** A write that the disk or the permissions do not let through, by its path. */
  type Broken = seq<string> -> bool

  const FILE_MODE: nat := 416
  const STATE_MODE: nat := 384
  const SETTINGS: string := "config.json"

  predicate EndsWith(s: string, t: string) {
    |t| <= |s| && s[|s| - |t|..] == t
  }

  function Tmp(name: string): string {
    "." + name + ".sync-tmp"
  }

  /** Entries that are brought in: no links, no bytecode, nothing special. */
  predicate Ships(name: string, s: Src) {
    match s
    case SFile(_) => !EndsWith(name, ".pyc") && !EndsWith(name, ".pyo")
    case SDir(_) => name != "__pycache__"
    case _ => false
  }

  /** The settings of a plugin that are there already. */
  predicate Keeps(dst: Tree, name: string, top: bool) {
    top && name == SETTINGS && name in dst
  }

  function ModeOf(name: string, top: bool): nat {
    if top && name == SETTINGS then STATE_MODE else FILE_MODE
  }

  function SubTree(dst: Tree, name: string): Tree {
    if name in dst && dst[name].Dir? then dst[name].entries else map[]
  }

  datatype Outcome = Outcome(tree: Tree, ok: bool, kept: seq<string>)

  /** _copy_file: written under the temporary name, which then takes the place of the name.  A
      directory in the way of either stops it. */
  function Copied(dst: Tree, name: string, content: string, mode: nat, broken: bool): Outcome {
    var tmp := Tmp(name);
    if tmp in dst && dst[tmp].Dir? then Outcome(dst, false, [])
    else
      var clean := dst - {tmp};
      if broken || (name in dst && dst[name].Dir?) then Outcome(clean, false, [])
      else Outcome(clean[name := File(content, mode)], true, [])
  }

  /** One entry; below: what came of the folder, when it is one. */
  function Stepped(e: Entry, dst: Tree, top: bool, path: seq<string>, broken: Broken, below: Outcome): Outcome {
    if !Ships(e.name, e.what) then Outcome(dst, true, [])
    else match e.what
      case SFile(content) =>
        if Keeps(dst, e.name, top) then Outcome(dst, true, [e.name])
        else Copied(dst, e.name, content, ModeOf(e.name, top), broken(path + [e.name]))
      case SDir(_) =>
        if e.name in dst && !dst[e.name].Dir? then Outcome(dst, false, [])
        else Outcome(dst[e.name := Dir(below.tree)], below.ok, [])
      case _ => Outcome(dst, true, [])
  }

  /** _sync_tree: the entries one after the other, to the first that fails. */
  function Synced(src: Listing, dst: Tree, top: bool, path: seq<string>, broken: Broken): Outcome
    decreases src
  {
    if src == [] then Outcome(dst, true, [])
    else
      var e := src[0];
      var below := if e.what.SDir? then Synced(e.what.entries, SubTree(dst, e.name), false, path + [e.name], broken)
                   else Outcome(map[], true, []);
      var o := Stepped(e, dst, top, path, broken, below);
      if !o.ok then o
      else
        var rest := Synced(src[1..], o.tree, top, path, broken);
        rest.(kept := o.kept + rest.kept)
  }

  function Below(e: Entry, dst: Tree, path: seq<string>, broken: Broken): Outcome {
    if e.what.SDir? then Synced(e.what.entries, SubTree(dst, e.name), false, path + [e.name], broken) else Outcome(map[], true, [])
  }

  /** One entry and what is below it. */
  function Step(e: Entry, dst: Tree, top: bool, path: seq<string>, broken: Broken): Outcome {
    Stepped(e, dst, top, path, broken, Below(e, dst, path, broken))
  }

  // ----- what a listing is -----

  /** A directory lists each name once, at every depth. */
  predicate Listed(src: Listing)
    decreases src
  {
    && (forall i, j :: 0 <= i < j < |src| ==> src[i].name != src[j].name)
    && (forall i :: 0 <= i < |src| && src[i].what.SDir? ==> Listed(src[i].what.entries))
  }

  /** And the source ships no name that is the temporary name of another. */
  predicate ListingOk(src: Listing)
    decreases src
  {
    && (forall i, j :: 0 <= i < j < |src| ==> src[i].name != src[j].name)
    && (forall i, j :: 0 <= i < |src| && 0 <= j < |src| ==> src[i].name != Tmp(src[j].name))
    && (forall i :: 0 <= i < |src| && src[i].what.SDir? ==> ListingOk(src[i].what.entries))
  }

  /** The place of a name in a listing. */
  function Find(src: Listing, name: string): (i: nat)
    ensures i <= |src|
    ensures i < |src| ==> src[i].name == name
    ensures forall j :: 0 <= j < i ==> src[j].name != name
  {
    if src == [] || src[0].name == name then 0 else 1 + Find(src[1..], name)
  }

  lemma TmpIsOneToOne(a: string, b: string)
    ensures Tmp(a) == Tmp(b) ==> a == b
    ensures Tmp(a) != a
  {
    if Tmp(a) == Tmp(b) {
      assert Tmp(a)[1..|a| + 1] == a && Tmp(b)[1..|b| + 1] == b;
    }
  }

  // ----- the loops -----

  method CopyFile(dst: Tree, name: string, content: string, mode: nat, broken: bool) returns (after: Tree, ok: bool)
    ensures Outcome(after, ok, []) == Copied(dst, name, content, mode, broken)
  {
    var tmp := Tmp(name);
    after := dst;
    if tmp in after {
      if after[tmp].Dir? {
        return after, false;
      }
      after := after - {tmp};
    }
    after := after[tmp := File(content, mode)];
    ok := !broken && !(name in after && name != tmp && after[name].Dir?);
    TmpIsOneToOne(name, name);
    after := after - {tmp};
    assert after == dst - {tmp};
    if ok {
      after := after[name := File(content, mode)];
    }
  }

  method SyncTree(src: Listing, dst: Tree, top: bool, path: seq<string>, broken: Broken) returns (o: Outcome)
    ensures o == Synced(src, dst, top, path, broken)
    decreases src
  {
    hide Synced, Stepped, Copied, Ships;
    var tree, kept := dst, [];
    var i := 0;
    assert src[0..] == src;
    while i < |src|
      invariant 0 <= i <= |src|
      invariant Synced(src, dst, top, path, broken) == KeptFirst(kept, Synced(src[i..], tree, top, path, broken))
    {
      var e := src[i];
      assert src[i..][1..] == src[i + 1..] && src[i..][0] == e;
      SyncedIs(src[i..], tree, top, path, broken);
      StepIs(e, tree, top, path, broken);
      KeptInOrder(kept, Step(e, tree, top, path, broken), Synced(src[i + 1..], Step(e, tree, top, path, broken).tree, top, path, broken));
      if Ships(e.name, e.what) {
        match e.what {
          case SDir(entries) =>
            if e.name in tree && !tree[e.name].Dir? {
              return Outcome(tree, false, kept);
            }
            var sub := SyncTree(entries, SubTree(tree, e.name), false, path + [e.name], broken);
            tree := tree[e.name := Dir(sub.tree)];
            if !sub.ok {
              return Outcome(tree, false, kept);
            }
          case SFile(content) =>
            if top && e.name == SETTINGS && e.name in tree {
              kept := kept + [e.name];
            } else {
              var after, ok := CopyFile(tree, e.name, content, ModeOf(e.name, top), broken(path + [e.name]));
              tree := after;
              if !ok {
                return Outcome(tree, false, kept);
              }
            }
          case _ =>
        }
      }
      i := i + 1;
    }
    NothingLeft(src[i..], tree, top, path, broken);
    o := Outcome(tree, true, kept);
    assert kept + [] == kept;
  }

  function KeptFirst(kept: seq<string>, o: Outcome): Outcome {
    o.(kept := kept + o.kept)
  }

  lemma SyncedIs(src: Listing, dst: Tree, top: bool, path: seq<string>, broken: Broken)
    requires src != []
    ensures var o := Step(src[0], dst, top, path, broken);
            Synced(src, dst, top, path, broken) == if o.ok then KeptFirst(o.kept, Synced(src[1..], o.tree, top, path, broken)) else o
  {
    hide Stepped;
  }

  lemma StepIs(e: Entry, dst: Tree, top: bool, path: seq<string>, broken: Broken)
    ensures Step(e, dst, top, path, broken) ==
            if !Ships(e.name, e.what) then Outcome(dst, true, [])
            else match e.what
              case SFile(content) =>
                if top && e.name == SETTINGS && e.name in dst then Outcome(dst, true, [e.name])
                else Copied(dst, e.name, content, ModeOf(e.name, top), broken(path + [e.name]))
              case SDir(entries) =>
                if e.name in dst && !dst[e.name].Dir? then Outcome(dst, false, [])
                else
                  var below := Synced(entries, SubTree(dst, e.name), false, path + [e.name], broken);
                  Outcome(dst[e.name := Dir(below.tree)], below.ok, [])
              case _ => Outcome(dst, true, [])
  {
    hide Synced, Copied;
  }

  lemma NothingLeft(src: Listing, dst: Tree, top: bool, path: seq<string>, broken: Broken)
    requires src == []
    ensures Synced(src, dst, top, path, broken) == Outcome(dst, true, [])
  {
  }

  lemma KeptInOrder(kept: seq<string>, o: Outcome, rest: Outcome)
    ensures KeptFirst(kept, KeptFirst(o.kept, rest)) == KeptFirst(kept + o.kept, rest)
    ensures o.kept == [] ==> kept + o.kept == kept
  {
    assert kept + (o.kept + rest.kept) == (kept + o.kept) + rest.kept;
  }
}
