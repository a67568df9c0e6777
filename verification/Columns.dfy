/**
 The guests of a window as columns (pegaprox/background/metrics_store.py, GuestColumns): from
 the stored parts to one flat column per figure, and back to one guest's samples as a strided
 slice.
 */
module Columns {
  import opened Metrics

  // ----- the stored window -----

  /** Snapshots in time order: the roster each was stored with, by its id, and its body. */
  datatype Storage = Storage(rosters: map<nat, Roster>, snaps: seq<(nat, Dyn)>)

  predicate StorageOk(st: Storage) {
    forall s :: 0 <= s < |st.snaps| ==>
      && st.snaps[s].0 in st.rosters && RosterOk(st.rosters[st.snaps[s].0])
      && DynOk(st.snaps[s].1, |st.rosters[st.snaps[s].0].vids|)
  }

  function RosterOf(st: Storage, s: nat): Roster
    requires StorageOk(st) && s < |st.snaps|
  {
    st.rosters[st.snaps[s].0]
  }

  /** The guest maps of the window, as the row loop reads them. */
  function Rows(st: Storage): (r: seq<Guests>)
    requires StorageOk(st)
    ensures |r| == |st.snaps|
  {
    seq(|st.snaps|, s requires 0 <= s < |st.snaps| => GuestMap(RosterOf(st, s), st.snaps[s].1))
  }

  // ----- all the guests of the window -----

  /** Two ascending lists as one. */
  function Merge(a: seq<nat>, b: seq<nat>): seq<nat>
    decreases |a| + |b|
  {
    if a == [] then b
    else if b == [] then a
    else if a[0] < b[0] then [a[0]] + Merge(a[1..], b)
    else if b[0] < a[0] then [b[0]] + Merge(a, b[1..])
    else [a[0]] + Merge(a[1..], b[1..])
  }

  lemma {:induction false} MergeHas(a: seq<nat>, b: seq<nat>)
    ensures forall v :: v in Merge(a, b) <==> v in a || v in b
    decreases |a| + |b|
  {
    if a != [] && b != [] {
      var a', b' := if a[0] <= b[0] then a[1..] else a, if b[0] <= a[0] then b[1..] else b;
      MergeHas(a', b');
      assert a == [a[0]] + a[1..] && b == [b[0]] + b[1..];
    }
  }

  lemma {:induction false} MergeAscends(a: seq<nat>, b: seq<nat>)
    requires Ascending(a) && Ascending(b)
    ensures Ascending(Merge(a, b))
    decreases |a| + |b|
  {
    if a != [] && b != [] {
      var a', b' := if a[0] <= b[0] then a[1..] else a, if b[0] <= a[0] then b[1..] else b;
      var v := if a[0] <= b[0] then a[0] else b[0];
      MergeAscends(a', b');
      MergeHas(a', b');
      Cons(v, Merge(a', b'));
    }
  }

  lemma Cons(v: nat, rest: seq<nat>)
    requires Ascending(rest) && forall x :: x in rest ==> v < x
    ensures Ascending([v] + rest)
  {
    forall i | 0 <= i < |rest| ensures v < rest[i] {
      assert rest[i] in rest;
    }
  }

  function Union(st: Storage, from: nat): seq<nat>
    requires StorageOk(st) && from <= |st.snaps|
    decreases |st.snaps| - from
  {
    if from == |st.snaps| then [] else Merge(RosterOf(st, from).vids, Union(st, from + 1))
  }

  lemma {:induction false} UnionIs(st: Storage, from: nat)
    requires StorageOk(st) && from <= |st.snaps|
    ensures Ascending(Union(st, from))
    ensures forall s, v :: from <= s < |st.snaps| && v in RosterOf(st, s).vids ==> v in Union(st, from)
    ensures forall v :: v in Union(st, from) ==> exists s :: from <= s < |st.snaps| && v in RosterOf(st, s).vids
    decreases |st.snaps| - from
  {
    hide RosterOk, DynOk;
    if from < |st.snaps| {
      UnionIs(st, from + 1);
      assert Ascending(RosterOf(st, from).vids) by { VidsAscend(st, from); }
      MergeHas(RosterOf(st, from).vids, Union(st, from + 1));
      MergeAscends(RosterOf(st, from).vids, Union(st, from + 1));
      forall v | v in Union(st, from) ensures exists s :: from <= s < |st.snaps| && v in RosterOf(st, s).vids {
        if v !in RosterOf(st, from).vids {
          assert v in Union(st, from + 1);
        }
      }
    }
  }

  lemma VidsAscend(st: Storage, s: nat)
    requires StorageOk(st) && s < |st.snaps|
    ensures Ascending(RosterOf(st, s).vids)
  {
  }

  // ----- one row of the window's width -----

  function IndexOf(s: seq<nat>, x: nat): (i: nat)
    ensures i <= |s|
    ensures i < |s| <==> x in s
    ensures i < |s| ==> s[i] == x
    ensures forall j :: 0 <= j < i ==> s[j] != x
  {
    if s == [] || s[0] == x then 0 else 1 + IndexOf(s[1..], x)
  }

  /** The entries of some of the window's guests at their places, and holes for the others. */
  function Spread<T>(vids: seq<nat>, all: seq<nat>, src: seq<T>, hole: T): (r: seq<T>)
    requires |src| == |vids|
    ensures |r| == |all|
    decreases |all|
  {
    if all == [] then []
    else if vids != [] && vids[0] == all[0] then [src[0]] + Spread(vids[1..], all[1..], src[1..], hole)
    else [hole] + Spread(vids, all[1..], src, hole)
  }

  lemma {:induction false} SpreadIs<T>(vids: seq<nat>, all: seq<nat>, src: seq<T>, hole: T, g: nat)
    requires |src| == |vids| && Ascending(vids) && Ascending(all) && g < |all|
    requires forall v :: v in vids ==> v in all
    ensures Spread(vids, all, src, hole)[g] == if all[g] in vids then src[IndexOf(vids, all[g])] else hole
    decreases |all|
  {
    FirstOfAll(vids, all, g);
    hide Ascending;
    if vids != [] && vids[0] == all[0] {
      if g > 0 {
        assert all[1..][g - 1] == all[g];
        SpreadIs(vids[1..], all[1..], src[1..], hole, g - 1);
        assert vids == [vids[0]] + vids[1..];
      }
    } else if g > 0 {
      assert all[1..][g - 1] == all[g];
      SpreadIs(vids, all[1..], src, hole, g - 1);
    }
  }

  lemma FirstOfAll(vids: seq<nat>, all: seq<nat>, g: nat)
    requires Ascending(vids) && Ascending(all) && g < |all|
    requires forall v :: v in vids ==> v in all
    ensures Ascending(all[1..]) && (vids != [] ==> Ascending(vids[1..]))
    ensures g > 0 ==> all[g] != all[0]
    ensures vids != [] && vids[0] == all[0] ==> forall v :: v in vids[1..] ==> v in all[1..]
    ensures vids == [] || vids[0] != all[0] ==> all[0] !in vids && forall v :: v in vids ==> v in all[1..]
  {
    assert all == [all[0]] + all[1..];
    if vids != [] {
      assert vids[0] in all;
      assert vids == [vids[0]] + vids[1..];
      forall v | v in vids[1..] ensures v in all[1..] {
        assert v in vids && v > vids[0] >= all[0];
      }
    }
  }

  // ----- flat columns -----

  function Flat<T>(rows: seq<seq<T>>): seq<T> {
    if rows == [] then [] else rows[0] + Flat(rows[1..])
  }

  /** col[g::width] */
  function Strided<T>(col: seq<T>, g: nat, width: nat): seq<T>
    requires width > 0
    decreases |col| - g
  {
    if g >= |col| then [] else [col[g]] + Strided(col, g + width, width)
  }

  lemma {:induction false} StrideSkips<T>(a: seq<T>, b: seq<T>, g: nat, width: nat)
    requires width > 0
    ensures Strided(a + b, |a| + g, width) == Strided(b, g, width)
    decreases |b| - g
  {
    if g < |b| {
      StrideSkips(a, b, g + width, width);
      assert (a + b)[|a| + g] == b[g];
    }
  }

  /** A strided slice of a flat column is the column of one guest. */
  lemma {:induction false} StrideIsColumn<T>(rows: seq<seq<T>>, g: nat, width: nat)
    requires g < width && forall s :: 0 <= s < |rows| ==> |rows[s]| == width
    ensures |Strided(Flat(rows), g, width)| == |rows|
    ensures forall s :: 0 <= s < |rows| ==> Strided(Flat(rows), g, width)[s] == rows[s][g]
  {
    if rows != [] {
      StrideIsColumn(rows[1..], g, width);
      StrideSkips(rows[0], Flat(rows[1..]), g, width);
      assert Flat(rows)[g] == rows[0][g];
    }
  }

  /** Where a row's entry of a guest is in a flat column. */
  function Place(row: nat, width: nat, g: nat): nat {
    row * width + g
  }

  /** And one entry of it. */
  lemma {:induction false} FlatAt<T>(rows: seq<seq<T>>, s: nat, g: nat, width: nat)
    requires g < width && s < |rows| && forall i :: 0 <= i < |rows| ==> |rows[i]| == width
    ensures Place(s, width, g) < |Flat(rows)| && Flat(rows)[Place(s, width, g)] == rows[s][g]
  {
    if s > 0 {
      FlatAt(rows[1..], s - 1, g, width);
      assert s * width + g == width + ((s - 1) * width + g);
    }
  }

  // ----- the columns -----

  /** The static byte of a guest: of none, or of one that is in the roster. */
  datatype Static = Hole | Here(lxc: bool)

  /** order: each guest once, by its first row, with its place; snapK: the row of the
      static columns a snapshot is to be read with. */
  datatype GuestColumns = GuestColumns(
    snaps: nat, width: nat, order: seq<(nat, nat)>,
    flags: seq<Flags>, cpu: seq<int>, mem: seq<int>,
    snapK: seq<nat>, statics: seq<Static>, maxcpu: seq<int>, maxmem: seq<int>)

  const NOT_THERE: Flags := Flags(false, false, false, false)

  /** The roster ids of the snapshots without repetition, each at its first occurrence. */
  function Used(snaps: seq<(nat, Dyn)>): (r: seq<nat>) {
    if snaps == [] then []
    else
      var before := Used(snaps[..|snaps| - 1]);
      var rid := snaps[|snaps| - 1].0;
      if rid in before then before else before + [rid]
  }

  lemma {:induction false} UsedIs(snaps: seq<(nat, Dyn)>)
    ensures forall s :: 0 <= s < |snaps| ==> snaps[s].0 in Used(snaps)
    ensures forall rid :: rid in Used(snaps) ==> exists s :: 0 <= s < |snaps| && snaps[s].0 == rid
  {
    if snaps != [] {
      var before := snaps[..|snaps| - 1];
      UsedIs(before);
      forall s | 0 <= s < |snaps| ensures snaps[s].0 in Used(snaps) {
        if s < |before| {
          assert before[s].0 in Used(before);
        }
      }
      forall rid | rid in Used(snaps) ensures exists s :: 0 <= s < |snaps| && snaps[s].0 == rid {
        if rid in Used(before) {
          var s :| 0 <= s < |before| && before[s].0 == rid;
          assert snaps[s].0 == rid;
        } else {
          assert snaps[|snaps| - 1].0 == rid;
        }
      }
    }
  }

  function StaticsOf(r: Roster): (s: seq<Static>)
    ensures |s| == |r.lxc|
  {
    seq(|r.lxc|, i requires 0 <= i < |r.lxc| => Here(r.lxc[i]))
  }

  /** The guests of the rows without repetition, each at its first occurrence. */
  function FirstSeen(rows: seq<Guests>): seq<nat> {
    if rows == [] then [] else WithNew(FirstSeen(rows[..|rows| - 1]), rows[|rows| - 1])
  }

  function WithNew(seen: seq<nat>, row: Guests): seq<nat> {
    if row == [] then seen
    else
      var before := WithNew(seen, row[..|row| - 1]);
      var vid := row[|row| - 1].0;
      if vid in before then before else before + [vid]
  }

  /** The roster a row of the static columns is for. */
  function RosterUsed(st: Storage, k: nat): (r: Roster)
    requires StorageOk(st) && k < |Used(st.snaps)|
    ensures RosterOk(r) && exists s :: 0 <= s < |st.snaps| && RosterOf(st, s) == r
  {
    UsedIs(st.snaps);
    assert Used(st.snaps)[k] in Used(st.snaps);
    var s :| 0 <= s < |st.snaps| && st.snaps[s].0 == Used(st.snaps)[k];
    assert RosterOf(st, s) == st.rosters[Used(st.snaps)[k]];
    st.rosters[Used(st.snaps)[k]]
  }

  function FlagRow(st: Storage, all: seq<nat>, s: nat): (r: seq<Flags>)
    requires StorageOk(st) && s < |st.snaps|
    ensures |r| == |all|
  {
    Spread(RosterOf(st, s).vids, all, st.snaps[s].1.flags, NOT_THERE)
  }

  function CpuRow(st: Storage, all: seq<nat>, s: nat): (r: seq<int>)
    requires StorageOk(st) && s < |st.snaps|
    ensures |r| == |all|
  {
    Spread(RosterOf(st, s).vids, all, st.snaps[s].1.cpu, 0)
  }

  function MemRow(st: Storage, all: seq<nat>, s: nat): (r: seq<int>)
    requires StorageOk(st) && s < |st.snaps|
    ensures |r| == |all|
  {
    Spread(RosterOf(st, s).vids, all, st.snaps[s].1.mem, 0)
  }

  function StaticRow(r: Roster, all: seq<nat>): (row: seq<Static>)
    requires RosterOk(r)
    ensures |row| == |all|
  {
    Spread(r.vids, all, StaticsOf(r), Hole)
  }

  function MaxCpuRow(r: Roster, all: seq<nat>): (row: seq<int>)
    requires RosterOk(r)
    ensures |row| == |all|
  {
    Spread(r.vids, all, r.maxcpu, 0)
  }

  function MaxMemRow(r: Roster, all: seq<nat>): (row: seq<int>)
    requires RosterOk(r)
    ensures |row| == |all|
  {
    Spread(r.vids, all, r.maxmem, 0)
  }

  function FlagRows(st: Storage, all: seq<nat>): (r: seq<seq<Flags>>)
    requires StorageOk(st)
    ensures |r| == |st.snaps|
    ensures forall s :: 0 <= s < |r| ==> r[s] == FlagRow(st, all, s) && |r[s]| == |all|
  {
    seq(|st.snaps|, s requires 0 <= s < |st.snaps| => FlagRow(st, all, s))
  }

  function CpuRows(st: Storage, all: seq<nat>): (r: seq<seq<int>>)
    requires StorageOk(st)
    ensures |r| == |st.snaps|
    ensures forall s :: 0 <= s < |r| ==> r[s] == CpuRow(st, all, s) && |r[s]| == |all|
  {
    seq(|st.snaps|, s requires 0 <= s < |st.snaps| => CpuRow(st, all, s))
  }

  function MemRows(st: Storage, all: seq<nat>): (r: seq<seq<int>>)
    requires StorageOk(st)
    ensures |r| == |st.snaps|
    ensures forall s :: 0 <= s < |r| ==> r[s] == MemRow(st, all, s) && |r[s]| == |all|
  {
    seq(|st.snaps|, s requires 0 <= s < |st.snaps| => MemRow(st, all, s))
  }

  function StaticRows(st: Storage, all: seq<nat>): (r: seq<seq<Static>>)
    requires StorageOk(st)
    ensures |r| == |Used(st.snaps)|
    ensures forall k :: 0 <= k < |r| ==> r[k] == StaticRow(RosterUsed(st, k), all) && |r[k]| == |all|
  {
    seq(|Used(st.snaps)|, k requires 0 <= k < |Used(st.snaps)| => StaticRow(RosterUsed(st, k), all))
  }

  function MaxCpuRows(st: Storage, all: seq<nat>): (r: seq<seq<int>>)
    requires StorageOk(st)
    ensures |r| == |Used(st.snaps)|
    ensures forall k :: 0 <= k < |r| ==> r[k] == MaxCpuRow(RosterUsed(st, k), all) && |r[k]| == |all|
  {
    seq(|Used(st.snaps)|, k requires 0 <= k < |Used(st.snaps)| => MaxCpuRow(RosterUsed(st, k), all))
  }

  function MaxMemRows(st: Storage, all: seq<nat>): (r: seq<seq<int>>)
    requires StorageOk(st)
    ensures |r| == |Used(st.snaps)|
    ensures forall k :: 0 <= k < |r| ==> r[k] == MaxMemRow(RosterUsed(st, k), all) && |r[k]| == |all|
  {
    seq(|Used(st.snaps)|, k requires 0 <= k < |Used(st.snaps)| => MaxMemRow(RosterUsed(st, k), all))
  }

  function SnapK(st: Storage): (r: seq<nat>)
    ensures |r| == |st.snaps|
    ensures forall s :: 0 <= s < |r| ==> r[s] == IndexOf(Used(st.snaps), st.snaps[s].0)
  {
    seq(|st.snaps|, s requires 0 <= s < |st.snaps| => IndexOf(Used(st.snaps), st.snaps[s].0))
  }

  function Places(order: seq<nat>, all: seq<nat>): (r: seq<(nat, nat)>)
    ensures |r| == |order| && forall i :: 0 <= i < |r| ==> r[i] == (order[i], IndexOf(all, order[i]))
  {
    seq(|order|, i requires 0 <= i < |order| => (order[i], IndexOf(all, order[i])))
  }

  /** The columns of a stored window. */
  function ColumnsOf(st: Storage): GuestColumns
    requires StorageOk(st)
  {
    var all := Union(st, 0);
    GuestColumns(|st.snaps|, |all|, Places(FirstSeen(Rows(st)), all),
                 Flat(FlagRows(st, all)), Flat(CpuRows(st, all)), Flat(MemRows(st, all)),
                 SnapK(st), Flat(StaticRows(st, all)), Flat(MaxCpuRows(st, all)), Flat(MaxMemRows(st, all)))
  }
}
