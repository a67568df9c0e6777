/** The loop that lists the guests of a window, each at its first row. */
module ColumnsInPlace {
  import opened Wrappers
  import opened Metrics
  import opened Columns

  predicate AllIn(row: Guests, order: seq<nat>) {
    forall i :: 0 <= i < |row| ==> row[i].0 in order
  }

  lemma {:induction false} NothingNew(order: seq<nat>, row: Guests)
    requires AllIn(row, order)
    ensures WithNew(order, row) == order
  {
    if row != [] {
      NothingNew(order, row[..|row| - 1]);
    }
  }

  lemma {:induction false} NewOnes(order: seq<nat>, row: Guests)
    ensures AllIn(row, WithNew(order, row))
    ensures forall v :: v in WithNew(order, row) ==> v in order || exists i :: 0 <= i < |row| && row[i].0 == v
    ensures forall v :: v in order ==> v in WithNew(order, row)
    ensures Once(order) ==> Once(WithNew(order, row))
  {
    if row != [] {
      var n := |row| - 1;
      NewOnes(order, row[..n]);
      assert forall i :: 0 <= i < n ==> row[..n][i] == row[i];
    }
  }

  lemma RowIn(st: Storage, s: nat, order: seq<nat>)
    requires StorageOk(st) && s < |st.snaps|
    requires forall v :: v in RosterOf(st, s).vids ==> v in order
    ensures AllIn(Rows(st)[s], order)
  {
    var r := RosterOf(st, s);
    var p := Positions(r);
    assert forall i :: 0 <= i < |p| ==> r.vids[p[i]] in r.vids;
  }

  lemma {:induction false} VidsIn(st: Storage, s: nat, order: seq<nat>)
    requires StorageOk(st) && s < |st.snaps| && AllIn(Rows(st)[s], order)
    ensures forall v :: v in RosterOf(st, s).vids ==> v in order
  {
    var r := RosterOf(st, s);
    var p := Positions(r);
    forall v | v in r.vids ensures v in order {
      var pos :| 0 <= pos < |r.vids| && r.vids[pos] == v;
      PermutationHits(p, |r.vids|, pos);
      var i :| 0 <= i < |p| && p[i] == pos;
      assert Rows(st)[s][i].0 == v;
    }
  }

  /** What has been found after some snapshots; the shortcuts: the roster of the snapshot
      before, and the guest lists that are all seen. */
  ghost predicate Found(st: Storage, s: nat, order: seq<nat>, prev: Option<nat>, done: set<seq<nat>>)
    requires StorageOk(st)
  {
    && s <= |st.snaps| && order == FirstSeen(Rows(st)[..s]) && Once(order)
    && (prev.Some? ==> exists t :: 0 <= t < |st.snaps| && SnapK(st)[t] == prev.value
                                   && forall v :: v in RosterOf(st, t).vids ==> v in order)
    && (forall vids, v :: vids in done && v in vids ==> v in order)
    && (forall v :: v in order ==> v in Union(st, 0))
  }

  lemma SameRow(st: Storage, s: nat, t: nat)
    requires StorageOk(st) && s < |st.snaps| && t < |st.snaps| && SnapK(st)[s] == SnapK(st)[t]
    ensures RosterOf(st, s) == RosterOf(st, t)
  {
    UsedIs(st.snaps);
  }

  /** A snapshot whose guests are all seen adds none. */
  lemma Skips(st: Storage, s: nat, order: seq<nat>, prev: Option<nat>, done: set<seq<nat>>)
    requires StorageOk(st) && s < |st.snaps| && Found(st, s, order, prev, done)
    requires forall v :: v in RosterOf(st, s).vids ==> v in order
    ensures Found(st, s + 1, order, prev, done)
  {
    RowIn(st, s, order);
    NothingNew(order, Rows(st)[s]);
    assert Rows(st)[..s + 1][..s] == Rows(st)[..s];
  }

  /** order: the guests of the window as the dicts of its snapshots fill in. */
  method OrderOf(st: Storage) returns (order: seq<nat>)
    requires StorageOk(st)
    ensures order == FirstSeen(Rows(st))
  {
    hide Rows, Union, FirstSeen, SnapK, Used, RosterOk, DynOk;
    var snapK, width := SnapK(st), |Union(st, 0)|;
    var prev: Option<nat>, done: set<seq<nat>> := None, {};
    order := [];
    var s := 0;
    NothingFound(st);
    while s < |st.snaps|
      invariant 0 <= s <= |st.snaps|
      invariant Found(st, s, order, prev, done)
    {
      var k, r := snapK[s], RosterOf(st, s);
      if prev == Some(k) || |order| == width {
        if prev == Some(k) {
          PrevIsSeen(st, s, order, prev, done);
        } else {
          UnionIs(st, 0);
          UnionCounts(st);
          FullHasAll(order, SetOf(Union(st, 0)));
        }
        Skips(st, s, order, prev, done);
      } else if r.vids in done {
        Skips(st, s, order, prev, done);
        PrevMoves(st, s, order, prev, done);
        prev := Some(k);
      } else {
        var before := order;
        var row := Rows(st)[s];
        var i := 0;
        while i < |row|
          invariant 0 <= i <= |row|
          invariant order == WithNew(before, row[..i])
        {
          assert row[..i + 1][..i] == row[..i];
          NotAgain(st, s, before, i);
          if row[i].0 !in before {
            order := order + [row[i].0];
          }
          i := i + 1;
        }
        assert row[..i] == row;
        AllAreIn(st, s, before, prev, done);
        prev, done := Some(k), done + {r.vids};
      }
      s := s + 1;
    }
    assert Rows(st)[..s] == Rows(st);
  }

  lemma NothingFound(st: Storage)
    requires StorageOk(st)
    ensures Found(st, 0, [], None, {})
  {
  }

  lemma PrevIsSeen(st: Storage, s: nat, order: seq<nat>, prev: Option<nat>, done: set<seq<nat>>)
    requires StorageOk(st) && s < |st.snaps| && Found(st, s, order, prev, done) && prev == Some(SnapK(st)[s])
    ensures forall v :: v in RosterOf(st, s).vids ==> v in order
  {
    hide SnapK, FirstSeen, Rows, Union;
    var t :| 0 <= t < |st.snaps| && SnapK(st)[t] == prev.value && forall v :: v in RosterOf(st, t).vids ==> v in order;
    SameRow(st, s, t);
  }

  lemma PrevMoves(st: Storage, s: nat, order: seq<nat>, prev: Option<nat>, done: set<seq<nat>>)
    requires StorageOk(st) && s < |st.snaps| && Found(st, s + 1, order, prev, done)
    requires forall v :: v in RosterOf(st, s).vids ==> v in order
    ensures Found(st, s + 1, order, Some(SnapK(st)[s]), done)
  {
  }

  lemma UnionCounts(st: Storage)
    requires StorageOk(st)
    ensures |SetOf(Union(st, 0))| == |Union(st, 0)|
  {
    UnionIs(st, 0);
    OnceCounts(Union(st, 0));
  }

  /** Within one dict a guest that is new is not there yet. */
  lemma NotAgain(st: Storage, s: nat, before: seq<nat>, i: nat)
    requires StorageOk(st) && s < |st.snaps| && i < |Rows(st)[s]|
    ensures var row := Rows(st)[s];
            row[i].0 in WithNew(before, row[..i]) <==> row[i].0 in before
  {
    GuestMapIsDict(RosterOf(st, s), st.snaps[s].1);
    var row := Rows(st)[s];
    NewOnes(before, row[..i]);
    assert forall j :: 0 <= j < i ==> row[..i][j] == row[j];
  }

  lemma AllAreIn(st: Storage, s: nat, before: seq<nat>, prev: Option<nat>, done: set<seq<nat>>)
    requires StorageOk(st) && s < |st.snaps| && Found(st, s, before, prev, done)
    ensures Found(st, s + 1, WithNew(before, Rows(st)[s]), Some(SnapK(st)[s]), done + {RosterOf(st, s).vids})
  {
    hide Union, Rows, SnapK, RosterOk, DynOk, WithNew;
    var row := Rows(st)[s];
    var order := WithNew(before, row);
    NewOnes(before, row);
    VidsIn(st, s, order);
    OneRowMore(st, s);
    UnionIs(st, 0);
    RowIn(st, s, RosterOf(st, s).vids);
  }

  lemma OneRowMore(st: Storage, s: nat)
    requires StorageOk(st) && s < |st.snaps|
    ensures FirstSeen(Rows(st)[..s + 1]) == WithNew(FirstSeen(Rows(st)[..s]), Rows(st)[s])
  {
    assert Rows(st)[..s + 1][..s] == Rows(st)[..s];
  }
}
