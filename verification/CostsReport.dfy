/** What the cost report says of a guest, counted over the snapshots it is in. */
module CostsReport {
  import opened Wrappers
  import opened Metrics
  import opened Columns
  import opened Costs

  /** The guest in a snapshot. */
  function Entry(row: Guests, v: nat): Option<Guest> {
    if row == [] then None else if row[0].0 == v then Some(row[0].1) else Entry(row[1..], v)
  }

  predicate Dicts(rows: seq<Guests>) {
    forall s :: 0 <= s < |rows| ==> IsDict(rows[s])
  }

  /** The snapshots that have the guest and say this of it. */
  function Those(rows: seq<Guests>, v: nat, says: Guest -> bool): set<nat> {
    set s: nat | s < |rows| && Entry(rows[s], v).Some? && says(Entry(rows[s], v).value)
  }

  /** The sum of a figure over the snapshots that have it. */
  function Total(rows: seq<Guests>, v: nat, figure: Guest -> Option<Figure>): real {
    if rows == [] then 0.0
    else
      var n := |rows| - 1;
      var e := Entry(rows[n], v);
      Total(rows[..n], v, figure) + if e.Some? && figure(e.value).Some? then Value(figure(e.value).value) else 0.0
  }

  /** m is the largest of these figures of the guest, 0 where none is more. */
  ghost predicate Largest(rows: seq<Guests>, v: nat, figure: Guest -> int, m: int) {
    && m >= 0 && (forall s :: 0 <= s < |rows| && Entry(rows[s], v).Some? ==> figure(Entry(rows[s], v).value) <= m)
    && (m > 0 ==> exists s :: 0 <= s < |rows| && Entry(rows[s], v).Some? && figure(Entry(rows[s], v).value) == m)
  }

  lemma {:induction false} InDict(row: Guests, v: nat)
    requires IsDict(row)
    ensures In(row, v) == match Entry(row, v) case Some(g) => [g] case None => []
  {
    if row != [] {
      var n := |row| - 1;
      InFront(row[0], row[1..], v);
      assert [row[0]] + row[1..] == row;
      assert IsDict(row[1..]) by {
        assert forall i :: 0 <= i < |row[1..]| ==> row[1..][i] == row[i + 1];
      }
      InDict(row[1..], v);
      if row[0].0 == v {
        NotAgain(row, v);
      }
    }
  }

  lemma {:induction false} InFront(first: (nat, Guest), rest: Guests, v: nat)
    ensures In([first] + rest, v) == (if first.0 == v then [first.1] else []) + In(rest, v)
  {
    var all := [first] + rest;
    if rest == [] {
      assert all[..0] == [];
    } else {
      var n := |rest| - 1;
      assert all[..|all| - 1] == [first] + rest[..n] && all[|all| - 1] == rest[n];
      InFront(first, rest[..n], v);
    }
  }

  lemma {:induction false} NotAgain(row: Guests, v: nat)
    requires IsDict(row) && row != [] && row[0].0 == v
    ensures Entry(row[1..], v).None?
  {
    EntryIsThere(row[1..], v);
    assert forall i :: 0 <= i < |row[1..]| ==> row[1..][i] == row[i + 1];
  }

  lemma {:induction false} EntryIsThere(row: Guests, v: nat)
    ensures Entry(row, v).Some? ==> exists i :: 0 <= i < |row| && row[i] == (v, Entry(row, v).value)
  {
    if row != [] && row[0].0 != v {
      EntryIsThere(row[1..], v);
      if Entry(row[1..], v).Some? {
        var i :| 0 <= i < |row[1..]| && row[1..][i] == (v, Entry(row, v).value);
        assert row[i + 1] == row[1..][i];
      }
    }
  }

  lemma OneMoreSnapshot(rows: seq<Guests>, v: nat, says: Guest -> bool)
    requires rows != []
    ensures var n := |rows| - 1; var e := Entry(rows[n], v);
            |Those(rows, v, says)| == |Those(rows[..n], v, says)| + if e.Some? && says(e.value) then 1 else 0
  {
    var n := |rows| - 1;
    var before := Those(rows[..n], v, says);
    var e := Entry(rows[n], v);
    assert Those(rows, v, says) == before + if e.Some? && says(e.value) then {n} else {};
    assert n !in before;
  }

  /** What the samples of a guest come to. */
  lemma {:induction false} SamplesCount(rows: seq<Guests>, v: nat)
    requires Dicts(rows)
    ensures var s := Samples(rows, v);
            && |s| == |Those(rows, v, (g: Guest) => true)| && Running(s) == |Those(rows, v, (g: Guest) => g.running)|
            && |Cpus(s)| == |Those(rows, v, (g: Guest) => g.cpu.Some?)| && |Mems(s)| == |Those(rows, v, (g: Guest) => g.mem.Some?)|
            && Sum(Cpus(s)) == Total(rows, v, (g: Guest) => g.cpu) && Sum(Mems(s)) == Total(rows, v, (g: Guest) => g.mem)
  {
    if rows == [] {
      NothingSampled(v);
    } else {
      var n := |rows| - 1;
      assert forall i :: 0 <= i < n ==> rows[..n][i] == rows[i];
      SamplesCount(rows[..n], v);
      InDict(rows[n], v);
      OneMoreSnapshot(rows, v, (g: Guest) => true);
      OneMoreSnapshot(rows, v, (g: Guest) => g.running);
      OneMoreSnapshot(rows, v, (g: Guest) => g.cpu.Some?);
      OneMoreSnapshot(rows, v, (g: Guest) => g.mem.Some?);
      var s := Samples(rows[..n], v);
      hide Those, Running, Cpus, Mems, Sum, Entry, In;
      if Entry(rows[n], v).Some? {
        SampleMore(s, Entry(rows[n], v).value);
      } else {
        assert s + [] == s;
      }
    }
  }

  lemma NothingSampled(v: nat)
    ensures var s := Samples([], v);
            |s| == 0 && Running(s) == 0 && |Cpus(s)| == 0 && |Mems(s)| == 0 && Sum(Cpus(s)) == 0.0 && Sum(Mems(s)) == 0.0
    ensures forall says: Guest -> bool :: Those([], v, says) == {}
  {
  }

  lemma SampleMore(s: seq<Guest>, g: Guest)
    ensures Running(s + [g]) == Running(s) + if g.running then 1 else 0
    ensures |Cpus(s + [g])| == |Cpus(s)| + (if g.cpu.Some? then 1 else 0)
    ensures |Mems(s + [g])| == |Mems(s)| + (if g.mem.Some? then 1 else 0)
    ensures Sum(Cpus(s + [g])) == Sum(Cpus(s)) + (if g.cpu.Some? then Value(g.cpu.value) else 0.0)
    ensures Sum(Mems(s + [g])) == Sum(Mems(s)) + (if g.mem.Some? then Value(g.mem.value) else 0.0)
  {
    OneMore(s, g);
    SumMore(Cpus(s), if g.cpu.Some? then [g.cpu.value] else []);
    SumMore(Mems(s), if g.mem.Some? then [g.mem.value] else []);
    hide Running, Cpus, Mems, Sum;
  }

  lemma SumMore(s: seq<Figure>, more: seq<Figure>)
    requires |more| <= 1
    ensures Sum(s + more) == Sum(s) + if more == [] then 0.0 else Value(more[0])
  {
    if more != [] {
      assert (s + more)[..|s|] == s;
    } else {
      assert s + more == s;
    }
  }

  /** g is what some snapshot has of the guest. */
  predicate Held(rows: seq<Guests>, v: nat, g: Guest) {
    exists s :: 0 <= s < |rows| && Entry(rows[s], v) == Some(g)
  }

  lemma HeldMore(rows: seq<Guests>, v: nat, g: Guest)
    requires rows != []
    ensures Held(rows, v, g) <==> Held(rows[..|rows| - 1], v, g) || Entry(rows[|rows| - 1], v) == Some(g)
  {
    hide Entry;
    var n := |rows| - 1;
    if Held(rows, v, g) {
      var s :| 0 <= s < |rows| && Entry(rows[s], v) == Some(g);
      assert s < n ==> rows[..n][s] == rows[s];
    }
    if Held(rows[..n], v, g) {
      var s :| 0 <= s < n && Entry(rows[..n][s], v) == Some(g);
      assert rows[..n][s] == rows[s];
    }
  }

  lemma LastSamples(rows: seq<Guests>, v: nat)
    requires Dicts(rows) && rows != []
    ensures Dicts(rows[..|rows| - 1])
    ensures var e := Entry(rows[|rows| - 1], v);
            Samples(rows, v) == Samples(rows[..|rows| - 1], v) + if e.Some? then [e.value] else []
  {
    InDict(rows[|rows| - 1], v);
    hide Entry, In;
  }

  /** The samples of a guest are its entries. */
  lemma {:induction false} SamplesAre(rows: seq<Guests>, v: nat, g: Guest)
    requires Dicts(rows)
    ensures g in Samples(rows, v) <==> Held(rows, v, g)
  {
    hide Held, Dicts, Entry;
    if rows == [] {
      NobodyHeld(v, g);
    } else {
      LastSamples(rows, v);
      SamplesAre(rows[..|rows| - 1], v, g);
      HeldMore(rows, v, g);
      hide Samples;
    }
  }

  lemma NobodyHeld(v: nat, g: Guest)
    ensures !Held([], v, g) && Samples([], v) == []
  {
  }

  /** lxc is the kind of the first snapshot that has the guest. */
  predicate FirstKind(rows: seq<Guests>, v: nat, lxc: bool) {
    exists s :: 0 <= s < |rows| && Entry(rows[s], v).Some? && Entry(rows[s], v).value.lxc == lxc
                && forall r :: 0 <= r < s ==> Entry(rows[r], v).None?
  }

  /** The first of them is that of the first snapshot that has the guest. */
  lemma {:induction false} FirstSample(rows: seq<Guests>, v: nat)
    requires Dicts(rows)
    ensures Samples(rows, v) != [] ==> FirstKind(rows, v, Samples(rows, v)[0].lxc)
    ensures Samples(rows, v) == [] ==> forall s :: 0 <= s < |rows| ==> Entry(rows[s], v).None?
  {
    hide Dicts, Entry;
    if rows != [] {
      var n := |rows| - 1;
      LastSamples(rows, v);
      FirstSample(rows[..n], v);
      hide Samples;
      var before := Samples(rows[..n], v);
      assert forall i :: 0 <= i < n ==> rows[..n][i] == rows[i];
      if before != [] {
        var s :| 0 <= s < n && Entry(rows[..n][s], v).Some? && Entry(rows[..n][s], v).value.lxc == before[0].lxc
                 && forall r :: 0 <= r < s ==> Entry(rows[..n][r], v).None?;
        assert Entry(rows[s], v).Some?;
      }
    }
  }

  lemma LargestIs(rows: seq<Guests>, v: nat)
    requires Dicts(rows) && Samples(rows, v) != []
    ensures Largest(rows, v, (g: Guest) => g.maxcpu, MaxOf(MaxCpus(Samples(rows, v))))
    ensures Largest(rows, v, (g: Guest) => g.maxmem, MaxOf(MaxMems(Samples(rows, v))))
  {
    var s := Samples(rows, v);
    hide Samples, Entry;
    forall r | 0 <= r < |rows| && Entry(rows[r], v).Some?
      ensures Entry(rows[r], v).value.maxcpu <= MaxOf(MaxCpus(s)) && Entry(rows[r], v).value.maxmem <= MaxOf(MaxMems(s))
    {
      SamplesAre(rows, v, Entry(rows[r], v).value);
      assert Held(rows, v, Entry(rows[r], v).value);
      var i :| 0 <= i < |s| && s[i] == Entry(rows[r], v).value;
      assert MaxCpus(s)[i] == s[i].maxcpu && MaxMems(s)[i] == s[i].maxmem;
    }
    if MaxOf(MaxCpus(s)) > 0 {
      var i :| 0 <= i < |s| && MaxCpus(s)[i] == MaxOf(MaxCpus(s));
      SamplesAre(rows, v, s[i]);
    }
    if MaxOf(MaxMems(s)) > 0 {
      var i :| 0 <= i < |s| && MaxMems(s)[i] == MaxOf(MaxMems(s));
      SamplesAre(rows, v, s[i]);
    }
  }

  /** average, over those snapshots: times their number it is the sum of the figure. */
  predicate Average(rows: seq<Guests>, v: nat, has: Guest -> bool, figure: Guest -> Option<Figure>, average: real) {
    var n := |Those(rows, v, has)|;
    average * (n as real) == Total(rows, v, figure) && (n == 0 ==> average == 0.0)
  }

  lemma CountsSaid(rows: seq<Guests>, v: nat)
    requires Dicts(rows) && Samples(rows, v) != []
    ensures var st := StatOf(Samples(rows, v));
            && st.total == |Those(rows, v, (g: Guest) => true)| > 0
            && st.rCount == |Those(rows, v, (g: Guest) => g.running)|
            && Largest(rows, v, (g: Guest) => g.maxcpu, st.maxcpu) && Largest(rows, v, (g: Guest) => g.maxmem, st.maxmem)
            && FirstKind(rows, v, st.lxc)
  {
    SamplesCount(rows, v);
    FirstSample(rows, v);
    LargestIs(rows, v);
    hide Samples, Entry, Those, Total, Largest, Cpus, Mems, Running, Mean, MaxOf;
  }

  lemma AveragesSaid(rows: seq<Guests>, v: nat)
    requires Dicts(rows) && Samples(rows, v) != []
    ensures var st := StatOf(Samples(rows, v));
            Average(rows, v, (g: Guest) => g.cpu.Some?, (g: Guest) => g.cpu, st.avgCpu)
            && Average(rows, v, (g: Guest) => g.mem.Some?, (g: Guest) => g.mem, st.avgMem)
  {
    hide Samples, Those, Total, Cpus, Mems, Running, Mean, Sum, MaxOf, Entry, Average;
    var s := Samples(rows, v);
    SamplesCount(rows, v);
    OneAverage(rows, v, (g: Guest) => g.cpu.Some?, (g: Guest) => g.cpu, Cpus(s));
    OneAverage(rows, v, (g: Guest) => g.mem.Some?, (g: Guest) => g.mem, Mems(s));
  }

  lemma OneAverage(rows: seq<Guests>, v: nat, has: Guest -> bool, figure: Guest -> Option<Figure>, s: seq<Figure>)
    requires |s| == |Those(rows, v, has)| && Sum(s) == Total(rows, v, figure)
    ensures Average(rows, v, has, figure, Mean(s))
  {
    MeanIs(s);
    hide Those, Total, Sum, Mean;
  }

  /** What is reported of a guest: how many snapshots have it and how many have it running; the
      largest of each size; the kind of its first snapshot; and the average of each figure over the
      snapshots that have it. */
  lemma ReportSays(rows: seq<Guests>, j: nat)
    requires Dicts(rows) && j < |Stats(rows)|
    ensures var (v, st) := Stats(rows)[j];
            && st.total == |Those(rows, v, (g: Guest) => true)| > 0
            && st.rCount == |Those(rows, v, (g: Guest) => g.running)|
            && Largest(rows, v, (g: Guest) => g.maxcpu, st.maxcpu) && Largest(rows, v, (g: Guest) => g.maxmem, st.maxmem)
            && FirstKind(rows, v, st.lxc)
            && Average(rows, v, (g: Guest) => g.cpu.Some?, (g: Guest) => g.cpu, st.avgCpu)
            && Average(rows, v, (g: Guest) => g.mem.Some?, (g: Guest) => g.mem, st.avgMem)
  {
    hide Samples, Entry, Those, Largest, FirstSeen, FirstKind, Average, StatOf;
    var v := FirstSeen(rows)[j];
    SeenHaveSamples(rows, v);
    CountsSaid(rows, v);
    AveragesSaid(rows, v);
    assert Stats(rows)[j] == (v, StatOf(Samples(rows, v)));
  }

  lemma MeanIs(s: seq<Figure>)
    ensures Mean(s) * (|s| as real) == Sum(s)
    ensures |s| == 0 ==> Mean(s) == 0.0
  {
  }
}
