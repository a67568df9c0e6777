/**
 What a sync leaves behind, said without going through the entries one by one: name by name,
 whatever their order.
 */
module PluginMerge {
  import opened Wrappers
  import opened PluginSync

  // ----- the tree that should be there -----

  /** A file that is copied under this temporary name: not settings that are kept. */
  predicate CopiedAs(e: Entry, before: Tree, top: bool, name: string) {
    name == Tmp(e.name) && e.what.SFile? && Ships(e.name, e.what) && !Keeps(before, e.name, top)
  }

  /** The temporary name of a file that is copied, of those from the n-th entry on. */
  predicate Sweeps(src: Listing, before: Tree, top: bool, name: string, n: nat) {
    exists i :: n <= i < |src| && CopiedAs(src[i], before, top, name)
  }

  /** What a name should hold after the sync: of an entry that is copied and has the temporary
      name of a file behind it, nothing. */
  function MergedAt(src: Listing, before: Tree, top: bool, name: string): Option<Node>
    decreases src, 0
  {
    var i := Find(src, name);
    if i < |src| && Ships(name, src[i].what) then
      if Keeps(before, name, top) && src[i].what.SFile? then Some(before[name])
      else if Sweeps(src, before, top, name, i) then None
      else match src[i].what
        case SFile(content) => Some(File(content, ModeOf(name, top)))
        case SDir(entries) => Some(Dir(Merged(src[i].what.entries, SubTree(before, name), false)))
        case _ => None
    else if name in before && !Sweeps(src, before, top, name, 0) then Some(before[name])
    else None
  }

  function Names(src: Listing): set<string> {
    set i | 0 <= i < |src| :: src[i].name
  }

  function Merged(src: Listing, before: Tree, top: bool): Tree
    decreases src, 1
  {
    map n | n in before.Keys + Names(src) && MergedAt(src, before, top, n).Some? :: MergedAt(src, before, top, n).value
  }

  function Got(t: Tree, name: string): Option<Node> {
    if name in t then Some(t[name]) else None
  }

  lemma MergedIs(src: Listing, before: Tree, top: bool, name: string)
    ensures Got(Merged(src, before, top), name) == MergedAt(src, before, top, name)
  {
    var i := Find(src, name);
    if i < |src| {
      assert src[i].name in Names(src);
    }
  }

  predicate IsDir(t: Tree, name: string) {
    name in t && t[name].Dir?
  }

  /** A folder of this name is brought in. */
  predicate FolderAs(e: Entry, name: string) {
    e.name == name && e.what.SDir? && Ships(e.name, e.what)
  }

  predicate Folder(src: Listing, name: string, n: nat) {
    exists i :: 0 <= i < n && i < |src| && FolderAs(src[i], name)
  }

  predicate SweptAhead(src: Listing, before: Tree, top: bool, name: string, n: nat) {
    exists i :: 0 <= i < n && i < |src| && CopiedAs(src[i], before, top, name)
  }

  /** What stops a sync at the n-th entry: a directory where a file belongs or where its temporary
      name does, also one brought in ahead of it; something else where a folder belongs, unless
      a file ahead of it has swept that away; a write that does not go through. */
  predicate Clash(src: Listing, n: nat, before: Tree, top: bool, path: seq<string>, broken: Broken, below: bool)
    requires n < |src|
  {
    var e := src[n];
    Ships(e.name, e.what)
    && match e.what
       case SFile(_) =>
         !Keeps(before, e.name, top)
         && (broken(path + [e.name]) || IsDir(before, Tmp(e.name)) || IsDir(before, e.name) || Folder(src, Tmp(e.name), n))
       case SDir(_) => (e.name in before && !IsDir(before, e.name) && !SweptAhead(src, before, top, e.name, n)) || below
       case _ => false
  }

  predicate Clashes(src: Listing, before: Tree, top: bool, path: seq<string>, broken: Broken)
    decreases src
  {
    exists i :: 0 <= i < |src|
                && Clash(src, i, before, top, path, broken,
                         src[i].what.SDir?
                         && Clashes(src[i].what.entries, SubTree(before, src[i].name), false, path + [src[i].name], broken))
  }

  predicate ClashesBelow(e: Entry, before: Tree, path: seq<string>, broken: Broken) {
    e.what.SDir? && Clashes(e.what.entries, SubTree(before, e.name), false, path + [e.name], broken)
  }

  predicate ClashAt(src: Listing, n: nat, before: Tree, top: bool, path: seq<string>, broken: Broken)
    requires n < |src|
  {
    Clash(src, n, before, top, path, broken, ClashesBelow(src[n], before, path, broken))
  }

  lemma ClashesIs(src: Listing, before: Tree, top: bool, path: seq<string>, broken: Broken)
    ensures Clashes(src, before, top, path, broken) <==> exists i :: 0 <= i < |src| && ClashAt(src, i, before, top, path, broken)
  {
    hide Clash;
    assert forall i :: 0 <= i < |src| ==>
        (ClashAt(src, i, before, top, path, broken) <==>
         Clash(src, i, before, top, path, broken, src[i].what.SDir?
                         && Clashes(src[i].what.entries, SubTree(before, src[i].name), false, path + [src[i].name], broken)));
  }

  // ----- one entry after the other comes to that -----

  lemma ListedNames(src: Listing)
    requires ListingOk(src)
    ensures Listed(src)
    decreases src
  {
    forall i | 0 <= i < |src| && src[i].what.SDir? ensures Listed(src[i].what.entries) {
      ListedNames(src[i].what.entries);
    }
  }

  lemma TailOk(src: Listing)
    requires ListingOk(src) && src != []
    ensures ListingOk(src[1..])
    ensures forall i :: 1 <= i < |src| ==> src[i].name != src[0].name && src[i].name != Tmp(src[0].name) && src[0].name != Tmp(src[i].name)
  {
    assert forall i :: 0 <= i < |src[1..]| ==> src[1..][i] == src[i + 1];
  }

  lemma FoldersOk(src: Listing, i: nat)
    requires ListingOk(src) && i < |src| && src[i].what.SDir?
    ensures ListingOk(src[i].what.entries)
  {
  }

  lemma TailListed(src: Listing)
    requires Listed(src) && src != []
    ensures Listed(src[1..])
    ensures forall i :: 1 <= i < |src| ==> src[i].name != src[0].name
  {
    assert forall i :: 0 <= i < |src[1..]| ==> src[1..][i] == src[i + 1];
  }

  /** What the first entry leaves at every name. */
  lemma StepAt(e: Entry, dst: Tree, top: bool, path: seq<string>, broken: Broken, name: string)
    requires Step(e, dst, top, path, broken).ok
    ensures var after := Step(e, dst, top, path, broken).tree;
            Got(after, name) ==
            if name == e.name && Ships(e.name, e.what) then
              match e.what
              case SFile(content) => if Keeps(dst, name, top) then Some(dst[name]) else Some(File(content, ModeOf(name, top)))
              case SDir(entries) => Some(Dir(Below(e, dst, path, broken).tree))
              case _ => Got(dst, name)
            else if CopiedAs(e, dst, top, name) then None
            else Got(dst, name)
  {
    hide Below, Synced;
    TmpIsOneToOne(e.name, e.name);
  }

  lemma StepFails(e: Entry, dst: Tree, top: bool, path: seq<string>, broken: Broken)
    ensures Step(e, dst, top, path, broken).ok <==> !Clash([e], 0, dst, top, path, broken, e.what.SDir? && !Below(e, dst, path, broken).ok)
  {
    hide Below, Synced;
    TmpIsOneToOne(e.name, e.name);
  }

  lemma {:induction false} FindTail(src: Listing, name: string)
    requires src != []
    ensures Find(src, name) == if src[0].name == name then 0 else 1 + Find(src[1..], name)
  {
  }

  /** Whether settings are kept does not change on the way to them. */
  lemma KeepsSame(src: Listing, dst: Tree, after: Tree, top: bool)
    requires Listed(src) && src != [] && SameBut(src[0], dst, after)
    ensures forall i :: 1 <= i < |src| ==> Keeps(dst, src[i].name, top) == Keeps(after, src[i].name, top)
  {
    hide Listed, SameBut;
    TailListed(src);
    forall i | 1 <= i < |src| ensures Keeps(dst, src[i].name, top) == Keeps(after, src[i].name, top) {
      if src[i].name == SETTINGS {
        SettingsAreNoTmp(src[0].name);
        SameButAt(src[0], dst, after, SETTINGS);
      }
    }
  }

  lemma SettingsAreNoTmp(name: string)
    ensures Tmp(name) != SETTINGS
  {
    assert Tmp(name)[0] == '.' && SETTINGS[0] == 'c';
  }

  lemma CopiedSame(src: Listing, dst: Tree, after: Tree, top: bool, name: string)
    requires Listed(src) && src != [] && SameBut(src[0], dst, after)
    ensures forall i :: 1 <= i < |src| ==> (CopiedAs(src[i], dst, top, name) <==> CopiedAs(src[i], after, top, name))
  {
    hide Listed, SameBut, Ships, Keeps;
    KeepsSame(src, dst, after, top);
  }

  lemma SweepsTail(src: Listing, dst: Tree, after: Tree, top: bool, name: string, n: nat)
    requires Listed(src) && src != [] && SameBut(src[0], dst, after)
    ensures Sweeps(src, dst, top, name, n + 1) <==> Sweeps(src[1..], after, top, name, n)
    ensures Sweeps(src, dst, top, name, 0) <==> CopiedAs(src[0], dst, top, name) || Sweeps(src[1..], after, top, name, 0)
  {
    hide Listed, SameBut, CopiedAs;
    CopiedSame(src, dst, after, top, name);
    assert forall i :: 0 <= i < |src[1..]| ==> src[1..][i] == src[i + 1];
    if Sweeps(src, dst, top, name, n + 1) {
      var i :| n + 1 <= i < |src| && CopiedAs(src[i], dst, top, name);
      assert src[1..][i - 1] == src[i];
    }
    if Sweeps(src, dst, top, name, 0) {
      var i :| 0 <= i < |src| && CopiedAs(src[i], dst, top, name);
      if i > 0 {
        assert src[1..][i - 1] == src[i];
      }
    }
  }

  lemma AheadTail(src: Listing, dst: Tree, after: Tree, top: bool, name: string, n: nat)
    requires Listed(src) && src != [] && SameBut(src[0], dst, after) && n < |src|
    ensures n > 0 ==> (SweptAhead(src, dst, top, name, n) <==>
                       CopiedAs(src[0], dst, top, name) || SweptAhead(src[1..], after, top, name, n - 1))
    ensures n > 0 ==> (Folder(src, name, n) <==> FolderAs(src[0], name) || Folder(src[1..], name, n - 1))
  {
    hide Listed, SameBut, CopiedAs, FolderAs;
    CopiedSame(src, dst, after, top, name);
    assert forall i :: 0 <= i < |src[1..]| ==> src[1..][i] == src[i + 1];
    if n > 0 {
      if SweptAhead(src, dst, top, name, n) {
        var i :| 0 <= i < n && i < |src| && CopiedAs(src[i], dst, top, name);
        if i > 0 {
          assert src[1..][i - 1] == src[i];
        }
      }
      if Folder(src, name, n) {
        var i :| 0 <= i < n && i < |src| && FolderAs(src[i], name);
        if i > 0 {
          assert src[1..][i - 1] == src[i];
        }
      }
    }
  }

  predicate SameBut(e: Entry, a: Tree, b: Tree) {
    forall n :: n in a.Keys + b.Keys && n != e.name && n != Tmp(e.name) ==> Got(a, n) == Got(b, n)
  }

  lemma SameButAt(e: Entry, a: Tree, b: Tree, n: string)
    requires SameBut(e, a, b) && n != e.name && n != Tmp(e.name)
    ensures Got(a, n) == Got(b, n)
  {
    if n in a || n in b {
      assert n in a.Keys + b.Keys;
    }
  }

  lemma StepIsLocal(e: Entry, dst: Tree, top: bool, path: seq<string>, broken: Broken)
    ensures SameBut(e, dst, Step(e, dst, top, path, broken).tree)
  {
    hide Below, Synced, Ships, Keeps;
  }

  /** What stops the sync at a later entry stops the rest of it. */
  lemma ClashTail(src: Listing, dst: Tree, top: bool, path: seq<string>, broken: Broken, i: nat)
    requires Listed(src) && 1 <= i < |src| && Step(src[0], dst, top, path, broken).ok
    ensures ClashAt(src, i, dst, top, path, broken)
       <==> ClashAt(src[1..], i - 1, Step(src[0], dst, top, path, broken).tree, top, path, broken)
  {
    var first, e := src[0], src[i];
    var after := Step(first, dst, top, path, broken).tree;
    assert src[1..][i - 1] == e;
    StepIsLocal(first, dst, top, path, broken);
    TailListed(src);
    KeepsSame(src, dst, after, top);
    AheadTail(src, dst, after, top, e.name, i);
    AheadTail(src, dst, after, top, Tmp(e.name), i);
    NameAfter(first, dst, top, path, broken, e.name);
    TemporaryAfter(first, dst, top, path, broken, e.name);
    hide Step, Clashes, Listed, SameBut, Folder, SweptAhead, Ships, Tmp, IsDir, CopiedAs, FolderAs, Keeps, SubTree;
  }

  /** What a step leaves at another entry's name. */
  lemma NameAfter(first: Entry, dst: Tree, top: bool, path: seq<string>, broken: Broken, name: string)
    requires name != first.name && Step(first, dst, top, path, broken).ok
    ensures var after := Step(first, dst, top, path, broken).tree;
            && (IsDir(dst, name) <==> IsDir(after, name))
            && SubTree(dst, name) == SubTree(after, name)
            && (name in dst && !IsDir(dst, name) && !CopiedAs(first, dst, top, name) <==> name in after && !IsDir(after, name))
  {
    StepAt(first, dst, top, path, broken, name);
    if CopiedAs(first, dst, top, name) {
      StepBlocks(first, dst, top, path, broken);
    }
    hide Step, Ships, Tmp;
  }

  /** And at the temporary name of another entry. */
  lemma TemporaryAfter(first: Entry, dst: Tree, top: bool, path: seq<string>, broken: Broken, name: string)
    requires name != first.name && Step(first, dst, top, path, broken).ok
    ensures var after := Step(first, dst, top, path, broken).tree;
            IsDir(dst, Tmp(name)) || FolderAs(first, Tmp(name)) <==> IsDir(after, Tmp(name))
  {
    StepAt(first, dst, top, path, broken, Tmp(name));
    TmpIsOneToOne(first.name, name);
    SettingsAreNoTmp(name);
    if first.what.SFile? && Ships(first.name, first.what) && !Keeps(dst, first.name, top) {
      StepBlocks(first, dst, top, path, broken);
    }
    if FolderAs(first, Tmp(name)) {
      FolderStays(first, dst, top, path, broken);
    }
    hide Step, Below, Synced, Ships, Tmp;
  }

  lemma FolderStays(e: Entry, dst: Tree, top: bool, path: seq<string>, broken: Broken)
    requires e.what.SDir? && Ships(e.name, e.what) && Step(e, dst, top, path, broken).ok
    ensures IsDir(Step(e, dst, top, path, broken).tree, e.name)
  {
    hide Below, Synced;
  }

  /** Where a file is copied there is no directory under its names. */
  lemma StepBlocks(e: Entry, dst: Tree, top: bool, path: seq<string>, broken: Broken)
    requires Step(e, dst, top, path, broken).ok && e.what.SFile? && Ships(e.name, e.what) && !Keeps(dst, e.name, top)
    ensures !IsDir(dst, e.name) && !IsDir(dst, Tmp(e.name))
  {
  }

  lemma ClashesTail(src: Listing, dst: Tree, top: bool, path: seq<string>, broken: Broken)
    requires Listed(src) && src != [] && Step(src[0], dst, top, path, broken).ok
    ensures Clashes(src, dst, top, path, broken) <==>
              ClashAt(src, 0, dst, top, path, broken)
              || Clashes(src[1..], Step(src[0], dst, top, path, broken).tree, top, path, broken)
  {
    hide ClashAt, Clashes, Listed, Step;
    var after := Step(src[0], dst, top, path, broken).tree;
    ClashesIs(src, dst, top, path, broken);
    ClashesIs(src[1..], after, top, path, broken);
    forall i | 1 <= i < |src|
      ensures ClashAt(src, i, dst, top, path, broken) <==> ClashAt(src[1..], i - 1, after, top, path, broken)
    {
      ClashTail(src, dst, top, path, broken, i);
    }
    if exists i :: 0 <= i < |src[1..]| && ClashAt(src[1..], i, after, top, path, broken) {
      var i :| 0 <= i < |src[1..]| && ClashAt(src[1..], i, after, top, path, broken);
      assert ClashAt(src, i + 1, dst, top, path, broken);
    }
  }

  lemma NotFound(src: Listing, name: string)
    requires forall i :: 0 <= i < |src| ==> src[i].name != name
    ensures Find(src, name) == |src|
  {
  }

  /** The name of the first entry. */
  lemma MergedFirst(src: Listing, dst: Tree, top: bool, path: seq<string>, broken: Broken)
    requires Listed(src) && src != [] && Step(src[0], dst, top, path, broken).ok
    requires src[0].what.SDir? && Ships(src[0].name, src[0].what) ==> Below(src[0], dst, path, broken).tree == Merged(src[0].what.entries, SubTree(dst, src[0].name), false)
    ensures var name := src[0].name;
            MergedAt(src, dst, top, name) == MergedAt(src[1..], Step(src[0], dst, top, path, broken).tree, top, name)
  {
    var e, after := src[0], Step(src[0], dst, top, path, broken).tree;
    var name := e.name;
    StepAt(e, dst, top, path, broken, name);
    StepIsLocal(e, dst, top, path, broken);
    TailListed(src);
    TmpIsOneToOne(name, name);
    FindTail(src, name);
    SweepsTail(src, dst, after, top, name, 0);
    hide Step, Below, Merged, Find, Ships, Listed, Sweeps, SameBut, Tmp;
    assert forall i :: 0 <= i < |src[1..]| ==> src[1..][i] == src[i + 1];
    NotFound(src[1..], name);
    if Keeps(dst, name, top) {
      SettingsAreSwept(src[1..], after, top);
    }
  }

  lemma SettingsAreSwept(src: Listing, dst: Tree, top: bool)
    ensures !Sweeps(src, dst, top, SETTINGS, 0)
  {
    forall i | 0 <= i < |src| ensures !CopiedAs(src[i], dst, top, SETTINGS) {
      SettingsAreNoTmp(src[i].name);
    }
  }

  /** The temporary name of the first entry, when that is copied. */
  lemma MergedTemporary(src: Listing, dst: Tree, top: bool, path: seq<string>, broken: Broken)
    requires Listed(src) && src != [] && Step(src[0], dst, top, path, broken).ok
    requires CopiedAs(src[0], dst, top, Tmp(src[0].name))
    ensures var name := Tmp(src[0].name);
            MergedAt(src, dst, top, name) == MergedAt(src[1..], Step(src[0], dst, top, path, broken).tree, top, name)
  {
    var e, after := src[0], Step(src[0], dst, top, path, broken).tree;
    var name := Tmp(e.name);
    StepAt(e, dst, top, path, broken, name);
    StepIsLocal(e, dst, top, path, broken);
    StepBlocks(e, dst, top, path, broken);
    TmpIsOneToOne(e.name, e.name);
    SettingsAreNoTmp(e.name);
    FindTail(src, name);
    SweptOnce(src, dst, top);
    SweepsTail(src, dst, after, top, name, 0);
    if Find(src, name) > 0 {
      SweepsTail(src, dst, after, top, name, Find(src, name) - 1);
    }
    hide Step, Below, Merged, Ships, Listed, SameBut;
    hide Sweeps, Find, Tmp;
    assert SubTree(dst, name) == map[] == SubTree(after, name);
    var i := Find(src, name);
    if i < |src| {
      assert src[1..][i - 1] == src[i];
    }
  }

  /** No other entry is copied under that name. */
  lemma SweptOnce(src: Listing, dst: Tree, top: bool)
    requires Listed(src) && src != []
    ensures forall n :: n >= 1 ==> !Sweeps(src, dst, top, Tmp(src[0].name), n)
  {
    hide Listed, Ships;
    TailListed(src);
    forall i | 1 <= i < |src| ensures !CopiedAs(src[i], dst, top, Tmp(src[0].name)) {
      TmpIsOneToOne(src[i].name, src[0].name);
    }
  }

  /** What a name holds in the end depends on its entry, on what it held, and on the sweeps. */
  lemma MergedAlike(a: Listing, b: Listing, dst: Tree, after: Tree, top: bool, name: string)
    requires var i, j := Find(a, name), Find(b, name);
             && (i < |a| <==> j < |b|) && (i < |a| ==> a[i] == b[j])
             && (Sweeps(a, dst, top, name, i) <==> Sweeps(b, after, top, name, j))
    requires Got(dst, name) == Got(after, name)
    requires Sweeps(a, dst, top, name, 0) <==> Sweeps(b, after, top, name, 0)
    ensures MergedAt(a, dst, top, name) == MergedAt(b, after, top, name)
  {
    assert SubTree(dst, name) == SubTree(after, name) && (Keeps(dst, name, top) <==> Keeps(after, name, top));
    hide Find, Ships, Sweeps, Merged, Keeps, SubTree;
  }

  /** The names it has no part in. */
  lemma MergedRest(src: Listing, dst: Tree, top: bool, path: seq<string>, broken: Broken, name: string)
    requires Listed(src) && src != [] && Step(src[0], dst, top, path, broken).ok
    requires name != src[0].name && !CopiedAs(src[0], dst, top, name)
    ensures MergedAt(src, dst, top, name) == MergedAt(src[1..], Step(src[0], dst, top, path, broken).tree, top, name)
  {
    hide Step, Below, Ships, Sweeps, Merged, MergedAt, Listed, SameBut, CopiedAs;
    var after := Step(src[0], dst, top, path, broken).tree;
    StepAt(src[0], dst, top, path, broken, name);
    StepIsLocal(src[0], dst, top, path, broken);
    FindTail(src, name);
    SweepsTail(src, dst, after, top, name, 0);
    var i := Find(src, name);
    assert i > 0;
    SweepsTail(src, dst, after, top, name, i - 1);
    assert i < |src| ==> src[1..][i - 1] == src[i];
    MergedAlike(src, src[1..], dst, after, top, name);
  }

  lemma SameTrees(a: Tree, b: Tree)
    requires forall n :: Got(a, n) == Got(b, n)
    ensures a == b
  {
    assert forall n :: n in a <==> Got(a, n).Some?;
    assert forall n :: n in b <==> Got(b, n).Some?;
    forall n | n in a ensures n in b && a[n] == b[n] {
      assert Got(a, n) == Got(b, n);
    }
    assert a.Keys == b.Keys;
  }

  lemma MergedTail(src: Listing, dst: Tree, top: bool, path: seq<string>, broken: Broken)
    requires Listed(src) && src != [] && Step(src[0], dst, top, path, broken).ok
    requires src[0].what.SDir? && Ships(src[0].name, src[0].what) ==> Below(src[0], dst, path, broken).tree == Merged(src[0].what.entries, SubTree(dst, src[0].name), false)
    ensures Merged(src, dst, top) == Merged(src[1..], Step(src[0], dst, top, path, broken).tree, top)
  {
    hide MergedAt, Merged, Step, Below, Listed;
    var after := Step(src[0], dst, top, path, broken).tree;
    forall n ensures Got(Merged(src, dst, top), n) == Got(Merged(src[1..], after, top), n) {
      MergedIs(src, dst, top, n);
      MergedIs(src[1..], after, top, n);
      if n == src[0].name {
        MergedFirst(src, dst, top, path, broken);
      } else if CopiedAs(src[0], dst, top, n) {
        MergedTemporary(src, dst, top, path, broken);
      } else {
        MergedRest(src, dst, top, path, broken, n);
      }
    }
    SameTrees(Merged(src, dst, top), Merged(src[1..], after, top));
  }

  lemma NothingMerged(dst: Tree, top: bool)
    ensures Merged([], dst, top) == dst
  {
    forall n ensures Got(Merged([], dst, top), n) == Got(dst, n) {
      MergedIs([], dst, top, n);
    }
    SameTrees(Merged([], dst, top), dst);
  }

  /** Going through the entries one by one succeeds exactly when nothing is in the way, and then
      leaves at every name what should be there. */
  lemma {:induction false} SyncedIsMerged(src: Listing, dst: Tree, top: bool, path: seq<string>, broken: Broken)
    requires Listed(src)
    ensures Synced(src, dst, top, path, broken).ok <==> !Clashes(src, dst, top, path, broken)
    ensures Synced(src, dst, top, path, broken).ok ==> Synced(src, dst, top, path, broken).tree == Merged(src, dst, top)
    decreases src
  {
    if src == [] {
      NothingMerged(dst, top);
    } else {
      var e := src[0];
      hide Synced, Clashes, ClashAt, Step, Below, Merged, Listed;
      TailListed(src);
      if e.what.SDir? {
        FoldersListed(src, 0);
        SyncedIsMerged(e.what.entries, SubTree(dst, e.name), false, path + [e.name], broken);
      }
      FirstEntry(src, dst, top, path, broken);
      SyncedIs(src, dst, top, path, broken);
      var o := Step(e, dst, top, path, broken);
      if o.ok {
        ClashesTail(src, dst, top, path, broken);
        SyncedIsMerged(src[1..], o.tree, top, path, broken);
        MergedTail(src, dst, top, path, broken);
      } else {
        ClashesIs(src, dst, top, path, broken);
      }
    }
  }

  lemma FoldersListed(src: Listing, i: nat)
    requires Listed(src) && i < |src| && src[i].what.SDir?
    ensures Listed(src[i].what.entries)
  {
  }

  lemma FirstEntry(src: Listing, dst: Tree, top: bool, path: seq<string>, broken: Broken)
    requires src != []
    requires var e := src[0];
             e.what.SDir? ==>
               (Synced(e.what.entries, SubTree(dst, e.name), false, path + [e.name], broken).ok <==>
                !Clashes(e.what.entries, SubTree(dst, e.name), false, path + [e.name], broken))
    requires var e := src[0];
             e.what.SDir? && Synced(e.what.entries, SubTree(dst, e.name), false, path + [e.name], broken).ok ==>
               Synced(e.what.entries, SubTree(dst, e.name), false, path + [e.name], broken).tree
               == Merged(e.what.entries, SubTree(dst, e.name), false)
    ensures var e := src[0];
            && (Step(e, dst, top, path, broken).ok <==> !ClashAt(src, 0, dst, top, path, broken))
            && (Step(e, dst, top, path, broken).ok && e.what.SDir? && Ships(e.name, e.what) ==>
                  Below(e, dst, path, broken).tree == Merged(e.what.entries, SubTree(dst, e.name), false))
  {
    hide Synced, Clashes, Merged;
    StepFails(src[0], dst, top, path, broken);
    BelowFails(src[0], dst, path, broken);
  }

  lemma BelowFails(e: Entry, dst: Tree, path: seq<string>, broken: Broken)
    requires e.what.SDir? ==>
               (Synced(e.what.entries, SubTree(dst, e.name), false, path + [e.name], broken).ok <==>
                !Clashes(e.what.entries, SubTree(dst, e.name), false, path + [e.name], broken))
    ensures (e.what.SDir? && !Below(e, dst, path, broken).ok) <==> ClashesBelow(e, dst, path, broken)
  {
  }
}
