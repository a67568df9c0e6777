/** The column engine of the cost report, and that it gives what the loop over the rows gives. */
module CostsOnColumns {
  import opened Wrappers
  import opened Metrics
  import opened Columns
  import opened Costs

  // ----- translate, count, compress -----

  datatype Bit = HereBit | RunBit | CpuBit | MemBit

  function Has(f: Flags, bit: Bit): bool {
    match bit case HereBit => f.here case RunBit => f.running case CpuBit => f.cpuSet case MemBit => f.memSet
  }

  /** bytes.translate: one bit of every flag byte. */
  function Bits(flags: seq<Flags>, bit: Bit): (r: seq<bool>)
    ensures |r| == |flags| && forall i :: 0 <= i < |r| ==> r[i] == Has(flags[i], bit)
  {
    seq(|flags|, i requires 0 <= i < |flags| => Has(flags[i], bit))
  }

  function Count(s: seq<bool>): (n: nat)
    ensures n <= |s|
    ensures n == |s| <==> forall i :: 0 <= i < |s| ==> s[i]
  {
    if s == [] then 0 else Count(s[..|s| - 1]) + if s[|s| - 1] then 1 else 0
  }

  function Compress<T>(xs: seq<T>, picks: seq<bool>): seq<T>
    requires |xs| == |picks|
  {
    if xs == [] then []
    else Compress(xs[..|xs| - 1], picks[..|xs| - 1]) + if picks[|xs| - 1] then [xs[|xs| - 1]] else []
  }

  /** bytes.find: the first that is set. */
  function First(s: seq<bool>): (i: nat)
    ensures i <= |s| && (i < |s| ==> s[i]) && forall j :: 0 <= j < i ==> !s[j]
  {
    if s == [] || s[0] then 0 else 1 + First(s[1..])
  }

  function Figures(tenths: seq<int>): (r: seq<Figure>)
    ensures |r| == |tenths| && forall i :: 0 <= i < |r| ==> r[i] == FigureOf(tenths[i])
  {
    seq(|tenths|, i requires 0 <= i < |tenths| => FigureOf(tenths[i]))
  }

  function IsHere(s: Static): bool {
    s.Here?
  }

  // ----- the engine -----

  /** What GuestColumns promises of the guest at place g. */
  predicate Readable(c: GuestColumns, g: nat) {
    && 0 < c.width && g < c.width && |c.snapK| == c.snaps
    && |Strided(c.flags, g, c.width)| == |Strided(c.cpu, g, c.width)| == |Strided(c.mem, g, c.width)| == c.snaps
    && |Strided(c.maxcpu, g, c.width)| == |Strided(c.maxmem, g, c.width)| == |Strided(c.statics, g, c.width)|
    && forall s :: 0 <= s < c.snaps ==> Place(c.snapK[s], c.width, g) < |c.statics|
  }

  /** GuestColumns.values: a static column's values, one per roster that has the guest. */
  function Values(c: GuestColumns, col: seq<int>, g: nat): seq<int>
    requires Readable(c, g) && |Strided(col, g, c.width)| == |Strided(c.statics, g, c.width)|
  {
    var here := Strided(c.statics, g, c.width);
    if Hole !in here then Strided(col, g, c.width)
    else Compress(Strided(col, g, c.width), seq(|here|, k requires 0 <= k < |here| => IsHere(here[k])))
  }

  /** The figures of a column where they are set, which the average is of. */
  function Picked(c: GuestColumns, col: seq<int>, picks: seq<bool>): seq<Figure>
    requires |col| == |picks| == c.snaps
  {
    Figures(if Count(picks) == c.snaps then col else Compress(col, picks))
  }

  function ColStat(c: GuestColumns, g: nat): Stat
    requires Readable(c, g)
  {
    var flags := Strided(c.flags, g, c.width);
    var here := Bits(flags, HereBit);
    var cpuSet, memSet := Bits(flags, CpuBit), Bits(flags, MemBit);
    var cpu, mem := Strided(c.cpu, g, c.width), Strided(c.mem, g, c.width);
    var first := First(here);
    Stat(first < c.snaps && c.statics[Place(c.snapK[first], c.width, g)] == Here(true),
         Count(Bits(flags, RunBit)), Count(here),
         MaxOf([0] + Values(c, c.maxcpu, g)), MaxOf([0] + Values(c, c.maxmem, g)),
         if Count(cpuSet) == 0 then 0.0 else Sum(Picked(c, cpu, cpuSet)) / (Count(cpuSet) as real),
         if Count(memSet) == 0 then 0.0 else Sum(Picked(c, mem, memSet)) / (Count(memSet) as real))
  }

  predicate AllReadable(c: GuestColumns) {
    forall i :: 0 <= i < |c.order| ==> Readable(c, c.order[i].1)
  }

  function CostStatsCols(c: GuestColumns): seq<(nat, Stat)>
    requires AllReadable(c)
  {
    seq(|c.order|, i requires 0 <= i < |c.order| => (c.order[i].0, ColStat(c, c.order[i].1)))
  }

  // ----- one guest, snapshot by snapshot -----

  /** What each snapshot has of a guest. */
  function Track(st: Storage, v: nat): (r: seq<Option<Guest>>)
    requires StorageOk(st)
    ensures |r| == |st.snaps|
  {
    seq(|st.snaps|, s requires 0 <= s < |st.snaps| => At(st, v, s))
  }

  function At(st: Storage, v: nat, s: nat): Option<Guest>
    requires StorageOk(st) && s < |st.snaps|
  {
    var r := RosterOf(st, s);
    if v in r.vids then Some(Entry(r, st.snaps[s].1, IndexOf(r.vids, v))) else None
  }

  function Somes<T>(s: seq<Option<T>>): seq<T> {
    if s == [] then [] else Somes(s[..|s| - 1]) + if s[|s| - 1].Some? then [s[|s| - 1].value] else []
  }

  /** The column entries of a guest that hold what a snapshot has of it. */
  predicate Cell(x: Option<Guest>, f: Flags, cpu: int, mem: int) {
    match x
    case None => f == NOT_THERE
    case Some(g) =>
      && f.here && f.running == g.running && f.cpuSet == g.cpu.Some? && f.memSet == g.mem.Some?
      && (f.cpuSet ==> FigureOf(cpu) == g.cpu.value) && (f.memSet ==> FigureOf(mem) == g.mem.value)
  }

  predicate Cells(track: seq<Option<Guest>>, flags: seq<Flags>, cpu: seq<int>, mem: seq<int>) {
    && |track| == |flags| == |cpu| == |mem|
    && forall s :: 0 <= s < |track| ==> Cell(track[s], flags[s], cpu[s], mem[s])
  }

  lemma BitsPrefix(flags: seq<Flags>, bit: Bit, n: nat)
    requires n <= |flags|
    ensures Bits(flags[..n], bit) == Bits(flags, bit)[..n]
  {
  }

  lemma CountMore(s: seq<bool>)
    requires s != []
    ensures Count(s) == Count(s[..|s| - 1]) + if s[|s| - 1] then 1 else 0
  {
  }

  /** The last snapshot of a track, and those before it. */
  lemma CellsFront(track: seq<Option<Guest>>, flags: seq<Flags>, cpu: seq<int>, mem: seq<int>)
    requires Cells(track, flags, cpu, mem) && track != []
    ensures var n := |track| - 1;
            && |flags| == |cpu| == |mem| == n + 1
            && Cells(track[..n], flags[..n], cpu[..n], mem[..n]) && Cell(track[n], flags[n], cpu[n], mem[n])
  {
    hide Cell;
    assert forall s :: 0 <= s < |track| - 1 ==> Cell(track[s], flags[s], cpu[s], mem[s]);
  }

  lemma BitsLast(flags: seq<Flags>, bit: Bit)
    requires flags != []
    ensures var n := |flags| - 1;
            && Bits(flags, bit)[..n] == Bits(flags[..n], bit) && Bits(flags, bit)[n] == Has(flags[n], bit)
            && Count(Bits(flags, bit)) == Count(Bits(flags[..n], bit)) + if Has(flags[n], bit) then 1 else 0
  {
    BitsPrefix(flags, bit, |flags| - 1);
    CountMore(Bits(flags, bit));
  }

  lemma {:induction false} HereIsCounted(track: seq<Option<Guest>>, flags: seq<Flags>, cpu: seq<int>, mem: seq<int>)
    requires Cells(track, flags, cpu, mem)
    ensures Count(Bits(flags, HereBit)) == |Somes(track)|
  {
    if track != [] {
      hide Cells, Somes, Count, Bits;
      var n := |track| - 1;
      CellsFront(track, flags, cpu, mem);
      HereIsCounted(track[..n], flags[..n], cpu[..n], mem[..n]);
      BitsLast(flags, HereBit);
      LastOfSomes(track);
    }
  }

  lemma RunningLast(track: seq<Option<Guest>>)
    requires track != []
    ensures var n := |track| - 1;
            Running(Somes(track)) == Running(Somes(track[..n])) + if track[n].Some? && track[n].value.running then 1 else 0
  {
    LastOfSomes(track);
    var n := |track| - 1;
    if track[n].Some? {
      var before := Somes(track[..n]);
      assert (before + [track[n].value])[..|before|] == before;
    }
  }

  lemma {:induction false} RunningIsCounted(track: seq<Option<Guest>>, flags: seq<Flags>, cpu: seq<int>, mem: seq<int>)
    requires Cells(track, flags, cpu, mem)
    ensures Count(Bits(flags, RunBit)) == Running(Somes(track))
  {
    if track != [] {
      hide Cells, Somes, Count, Bits, Running;
      var n := |track| - 1;
      CellsFront(track, flags, cpu, mem);
      RunningIsCounted(track[..n], flags[..n], cpu[..n], mem[..n]);
      BitsLast(flags, RunBit);
      RunningLast(track);
    }
  }

  lemma OneFigureMore(col: seq<int>, picks: seq<bool>)
    requires |col| == |picks| && col != []
    ensures var n := |col| - 1;
            Figures(Compress(col, picks)) == Figures(Compress(col[..n], picks[..n])) + if picks[n] then [FigureOf(col[n])] else []
  {
  }

  lemma NothingGathered()
    ensures Cpus([]) == [] && Mems([]) == []
  {
  }

  lemma CpusLast(track: seq<Option<Guest>>)
    requires track != []
    ensures var n := |track| - 1;
            Cpus(Somes(track)) == Cpus(Somes(track[..n]))
                                + if track[n].Some? && track[n].value.cpu.Some? then [track[n].value.cpu.value] else []
  {
    LastOfSomes(track);
    var n := |track| - 1;
    var before := Somes(track[..n]);
    if track[n].Some? {
      assert (before + [track[n].value])[..|before|] == before;
    } else {
      assert Cpus(before) + [] == Cpus(before);
    }
  }

  lemma {:induction false} CpusAre(track: seq<Option<Guest>>, flags: seq<Flags>, cpu: seq<int>, mem: seq<int>)
    requires Cells(track, flags, cpu, mem)
    ensures Figures(Compress(cpu, Bits(flags, CpuBit))) == Cpus(Somes(track))
    ensures Count(Bits(flags, CpuBit)) == |Cpus(Somes(track))|
  {
    if track == [] {
      NothingGathered();
    } else {
      hide Cells, Somes, Count, Bits, Cpus, Compress, Figures;
      var n := |track| - 1;
      CellsFront(track, flags, cpu, mem);
      CpusAre(track[..n], flags[..n], cpu[..n], mem[..n]);
      BitsLast(flags, CpuBit);
      OneFigureMore(cpu, Bits(flags, CpuBit));
      CpusLast(track);
    }
  }

  lemma MemsLast(track: seq<Option<Guest>>)
    requires track != []
    ensures var n := |track| - 1;
            Mems(Somes(track)) == Mems(Somes(track[..n]))
                                + if track[n].Some? && track[n].value.mem.Some? then [track[n].value.mem.value] else []
  {
    LastOfSomes(track);
    var n := |track| - 1;
    var before := Somes(track[..n]);
    if track[n].Some? {
      assert (before + [track[n].value])[..|before|] == before;
    } else {
      assert Mems(before) + [] == Mems(before);
    }
  }

  lemma {:induction false} MemsAre(track: seq<Option<Guest>>, flags: seq<Flags>, cpu: seq<int>, mem: seq<int>)
    requires Cells(track, flags, cpu, mem)
    ensures Figures(Compress(mem, Bits(flags, MemBit))) == Mems(Somes(track))
    ensures Count(Bits(flags, MemBit)) == |Mems(Somes(track))|
  {
    if track == [] {
      NothingGathered();
    } else {
      hide Cells, Somes, Count, Bits, Mems, Compress, Figures;
      var n := |track| - 1;
      CellsFront(track, flags, cpu, mem);
      MemsAre(track[..n], flags[..n], cpu[..n], mem[..n]);
      BitsLast(flags, MemBit);
      OneFigureMore(mem, Bits(flags, MemBit));
      MemsLast(track);
    }
  }

  lemma {:induction false} AllPicked<T>(xs: seq<T>, picks: seq<bool>)
    requires |xs| == |picks| && forall i :: 0 <= i < |picks| ==> picks[i]
    ensures Compress(xs, picks) == xs
  {
    if xs != [] {
      AllPicked(xs[..|xs| - 1], picks[..|xs| - 1]);
    }
  }

  /** Leaving out compress where every snapshot has the figure changes nothing. */
  lemma PickedIs(c: GuestColumns, col: seq<int>, picks: seq<bool>)
    requires |col| == |picks| == c.snaps
    ensures Picked(c, col, picks) == Figures(Compress(col, picks))
  {
    if Count(picks) == c.snaps {
      AllPicked(col, picks);
    }
  }

  // ----- the samples of a guest are its track -----

  lemma {:induction false} InDict(row: Guests, v: nat)
    requires IsDict(row)
    ensures forall i :: 0 <= i < |row| && row[i].0 == v ==> In(row, v) == [row[i].1]
    ensures (forall i :: 0 <= i < |row| ==> row[i].0 != v) ==> In(row, v) == []
  {
    if row != [] {
      InDict(row[..|row| - 1], v);
      assert forall i :: 0 <= i < |row| - 1 ==> row[..|row| - 1][i] == row[i];
    }
  }

  /** What one stored snapshot says of a guest. */
  lemma RowHas(st: Storage, v: nat, s: nat)
    requires StorageOk(st) && s < |st.snaps|
    ensures In(Rows(st)[s], v) == match At(st, v, s) case None => [] case Some(g) => [g]
  {
    hide In;
    var r, d := RosterOf(st, s), st.snaps[s].1;
    var row := GuestMap(r, d);
    GuestMapIsDict(r, d);
    InDict(row, v);
    var p := Positions(r);
    if v in r.vids {
      var pos := IndexOf(r.vids, v);
      PermutationHits(p, |r.vids|, pos);
      var i :| 0 <= i < |p| && p[i] == pos;
      assert row[i] == (v, Entry(r, d, pos));
    } else {
      forall i | 0 <= i < |row| ensures row[i].0 != v {
        assert r.vids[p[i]] in r.vids;
      }
    }
  }

  lemma TrackAt(st: Storage, v: nat, s: nat)
    requires StorageOk(st) && s < |st.snaps|
    ensures Track(st, v)[s] == At(st, v, s)
  {
  }

  lemma SamplesTo(rows: seq<Guests>, v: nat, n: nat)
    requires 0 < n <= |rows|
    ensures Samples(rows[..n], v) == Samples(rows[..n - 1], v) + In(rows[n - 1], v)
  {
    assert rows[..n][..n - 1] == rows[..n - 1];
  }

  lemma SomesTo<T>(track: seq<Option<T>>, n: nat)
    requires 0 < n <= |track|
    ensures Somes(track[..n]) == Somes(track[..n - 1]) + match track[n - 1] case None => [] case Some(x) => [x]
  {
    assert track[..n][..n - 1] == track[..n - 1];
  }

  lemma {:induction false} TrackIsSamples(st: Storage, v: nat, n: nat)
    requires StorageOk(st) && n <= |st.snaps|
    ensures Samples(Rows(st)[..n], v) == Somes(Track(st, v)[..n])
  {
    if n > 0 {
      hide *;
      TrackIsSamples(st, v, n - 1);
      RowHas(st, v, n - 1);
      TrackAt(st, v, n - 1);
      SamplesTo(Rows(st), v, n);
      SomesTo(Track(st, v), n);
    }
  }

  // ----- the columns of one guest are its track -----

  lemma PlaceOf(st: Storage, v: nat)
    requires StorageOk(st) && v in Union(st, 0)
    ensures var all := Union(st, 0);
            Ascending(all) && IndexOf(all, v) < |all| && all[IndexOf(all, v)] == v
    ensures forall s, u :: 0 <= s < |st.snaps| && u in RosterOf(st, s).vids ==> u in Union(st, 0)
  {
    UnionIs(st, 0);
  }

  lemma CellAt(st: Storage, v: nat, s: nat)
    requires StorageOk(st) && v in Union(st, 0) && s < |st.snaps|
    ensures var all := Union(st, 0);
            var g := IndexOf(all, v);
            g < |all| && Cell(At(st, v, s), FlagRow(st, all, s)[g], CpuRow(st, all, s)[g], MemRow(st, all, s)[g])
  {
    hide Union, Spread;
    var all := Union(st, 0);
    var g := IndexOf(all, v);
    PlaceOf(st, v);
    var r, d := RosterOf(st, s), st.snaps[s].1;
    VidsAscend(st, s);
    SpreadIs(r.vids, all, d.flags, NOT_THERE, g);
    SpreadIs(r.vids, all, d.cpu, 0, g);
    SpreadIs(r.vids, all, d.mem, 0, g);
  }

  lemma ColumnsAreTrack(st: Storage, v: nat)
    requires StorageOk(st) && v in Union(st, 0)
    ensures var c := ColumnsOf(st);
            var g := IndexOf(Union(st, 0), v);
            c.width > 0 && Cells(Track(st, v), Strided(c.flags, g, c.width), Strided(c.cpu, g, c.width), Strided(c.mem, g, c.width))
  {
    hide Union, Flat, Strided, Cell, At, FlagRow, CpuRow, MemRow;
    var all := Union(st, 0);
    var g := IndexOf(all, v);
    PlaceOf(st, v);
    StrideIsColumn(FlagRows(st, all), g, |all|);
    StrideIsColumn(CpuRows(st, all), g, |all|);
    StrideIsColumn(MemRows(st, all), g, |all|);
    forall s | 0 <= s < |st.snaps|
      ensures Cell(At(st, v, s), FlagRow(st, all, s)[g], CpuRow(st, all, s)[g], MemRow(st, all, s)[g])
    {
      CellAt(st, v, s);
    }
  }

  /** The static columns of a guest: one row per roster used. */
  lemma StaticsAt(st: Storage, v: nat, k: nat)
    requires StorageOk(st) && v in Union(st, 0) && k < |Used(st.snaps)|
    ensures var c := ColumnsOf(st);
            var g := IndexOf(Union(st, 0), v);
            var r := RosterUsed(st, k);
            && c.width > 0 && |Strided(c.statics, g, c.width)| == |Strided(c.maxcpu, g, c.width)| == |Strided(c.maxmem, g, c.width)| == |Used(st.snaps)|
            && Place(k, c.width, g) < |c.statics| && c.statics[Place(k, c.width, g)] == Strided(c.statics, g, c.width)[k]
            && (if v in r.vids then
                  && Strided(c.statics, g, c.width)[k] == Here(r.lxc[IndexOf(r.vids, v)])
                  && Strided(c.maxcpu, g, c.width)[k] == r.maxcpu[IndexOf(r.vids, v)]
                  && Strided(c.maxmem, g, c.width)[k] == r.maxmem[IndexOf(r.vids, v)]
                else Strided(c.statics, g, c.width)[k] == Hole)
  {
    hide *;
    PlaceOf(st, v);
    ColumnsHave(st);
    StaticStrides(st, Union(st, 0), IndexOf(Union(st, 0), v), k);
    StaticRowAt(st, v, k);
  }

  lemma ColumnsHave(st: Storage)
    requires StorageOk(st)
    ensures var c := ColumnsOf(st);
            var all := Union(st, 0);
            && c.width == |all| && c.snaps == |st.snaps| && c.snapK == SnapK(st)
            && c.statics == Flat(StaticRows(st, all)) && c.maxcpu == Flat(MaxCpuRows(st, all)) && c.maxmem == Flat(MaxMemRows(st, all))
  {
  }

  lemma StaticStrides(st: Storage, all: seq<nat>, g: nat, k: nat)
    requires StorageOk(st) && g < |all| && k < |Used(st.snaps)|
    ensures var statics := Flat(StaticRows(st, all));
            var r := RosterUsed(st, k);
            && |Strided(statics, g, |all|)| == |Used(st.snaps)|
            && |Strided(Flat(MaxCpuRows(st, all)), g, |all|)| == |Used(st.snaps)|
            && |Strided(Flat(MaxMemRows(st, all)), g, |all|)| == |Used(st.snaps)|
            && Place(k, |all|, g) < |statics| && statics[Place(k, |all|, g)] == StaticRow(r, all)[g]
            && Strided(statics, g, |all|)[k] == StaticRow(r, all)[g]
            && Strided(Flat(MaxCpuRows(st, all)), g, |all|)[k] == MaxCpuRow(r, all)[g]
            && Strided(Flat(MaxMemRows(st, all)), g, |all|)[k] == MaxMemRow(r, all)[g]
  {
    hide Flat, Strided, StaticRow, MaxCpuRow, MaxMemRow, Used, RosterUsed, StorageOk;
    StrideIsColumn(StaticRows(st, all), g, |all|);
    StrideIsColumn(MaxCpuRows(st, all), g, |all|);
    StrideIsColumn(MaxMemRows(st, all), g, |all|);
    FlatAt(StaticRows(st, all), k, g, |all|);
  }

  lemma StaticRowAt(st: Storage, v: nat, k: nat)
    requires StorageOk(st) && v in Union(st, 0) && k < |Used(st.snaps)|
    ensures var all := Union(st, 0);
            var g := IndexOf(all, v);
            var r := RosterUsed(st, k);
            g < |all|
            && if v in r.vids then
                 && StaticRow(r, all)[g] == Here(r.lxc[IndexOf(r.vids, v)])
                 && MaxCpuRow(r, all)[g] == r.maxcpu[IndexOf(r.vids, v)]
                 && MaxMemRow(r, all)[g] == r.maxmem[IndexOf(r.vids, v)]
               else StaticRow(r, all)[g] == Hole
  {
    hide Union, Spread, Used;
    var all := Union(st, 0);
    var g := IndexOf(all, v);
    PlaceOf(st, v);
    var r := RosterUsed(st, k);
    var s :| 0 <= s < |st.snaps| && RosterOf(st, s) == r;
    VidsAscend(st, s);
    SpreadIs(r.vids, all, StaticsOf(r), Hole, g);
    SpreadIs(r.vids, all, r.maxcpu, 0, g);
    SpreadIs(r.vids, all, r.maxmem, 0, g);
  }

  lemma SnapUses(st: Storage, s: nat)
    requires StorageOk(st) && s < |st.snaps|
    ensures SnapK(st)[s] < |Used(st.snaps)| && RosterUsed(st, SnapK(st)[s]) == RosterOf(st, s)
  {
    UsedIs(st.snaps);
  }

  lemma IsReadable(st: Storage, v: nat)
    requires StorageOk(st) && v in Union(st, 0)
    ensures Readable(ColumnsOf(st), IndexOf(Union(st, 0), v))
  {
    hide Union, Flat, Strided, Cells, Rows, FirstSeen, Used;
    var c := ColumnsOf(st);
    var g := IndexOf(Union(st, 0), v);
    PlaceOf(st, v);
    assert |Strided(c.flags, g, c.width)| == |Strided(c.cpu, g, c.width)| == |Strided(c.mem, g, c.width)| == c.snaps by {
      ColumnsAreTrack(st, v);
      CellsHaveOneLength(Track(st, v), Strided(c.flags, g, c.width), Strided(c.cpu, g, c.width), Strided(c.mem, g, c.width));
    }
    forall s | 0 <= s < c.snaps ensures Place(c.snapK[s], c.width, g) < |c.statics| {
      SnapUses(st, s);
      StaticsAt(st, v, c.snapK[s]);
    }
    StrideIsColumn(StaticRows(st, Union(st, 0)), g, c.width);
    StrideIsColumn(MaxCpuRows(st, Union(st, 0)), g, c.width);
    StrideIsColumn(MaxMemRows(st, Union(st, 0)), g, c.width);
  }

  lemma CellsHaveOneLength(track: seq<Option<Guest>>, flags: seq<Flags>, cpu: seq<int>, mem: seq<int>)
    requires Cells(track, flags, cpu, mem)
    ensures |track| == |flags| == |cpu| == |mem|
  {
  }

  // ----- the largest of the static values -----

  lemma SameMax(a: seq<int>, b: seq<int>)
    requires forall x :: x in a ==> x in b
    requires forall x :: x in b ==> x in a || x <= 0
    ensures MaxOf(a) == MaxOf(b)
  {
    var m, n := MaxOf(a), MaxOf(b);
    if m != 0 {
      assert m in b;
    }
    if n != 0 {
      assert n in a || n <= 0;
    }
  }

  lemma {:induction false} CompressHas<T>(xs: seq<T>, picks: seq<bool>, x: T)
    requires |xs| == |picks|
    ensures x in Compress(xs, picks) <==> exists k :: 0 <= k < |xs| && picks[k] && xs[k] == x
  {
    if xs != [] {
      var n := |xs| - 1;
      CompressHas(xs[..n], picks[..n], x);
      if x in Compress(xs[..n], picks[..n]) {
        var k :| 0 <= k < n && picks[..n][k] && xs[..n][k] == x;
        assert picks[k] && xs[k] == x;
      }
      if k :| 0 <= k < |xs| && picks[k] && xs[k] == x {
        assert k < n ==> picks[..n][k] && xs[..n][k] == x;
      }
    }
  }

  lemma ValuesHave(c: GuestColumns, col: seq<int>, g: nat, x: int)
    requires Readable(c, g) && |Strided(col, g, c.width)| == |Strided(c.statics, g, c.width)|
    ensures x in Values(c, col, g) <==>
            exists k :: 0 <= k < |Strided(col, g, c.width)| && Strided(c.statics, g, c.width)[k].Here? && Strided(col, g, c.width)[k] == x
  {
    ReadableMeans(c, g);
    hide Readable, Strided;
    var here := Strided(c.statics, g, c.width);
    var picks := seq(|here|, k requires 0 <= k < |here| => IsHere(here[k]));
    CompressHas(Strided(col, g, c.width), picks, x);
    if Hole !in here {
      assert forall k :: 0 <= k < |here| ==> here[k] in here;
    } else {
      assert forall k :: 0 <= k < |here| ==> picks[k] == here[k].Here?;
    }
  }

  lemma {:induction false} SomesHave<T>(s: seq<Option<T>>, x: T)
    ensures x in Somes(s) <==> exists i :: 0 <= i < |s| && s[i] == Some(x)
  {
    if s != [] {
      var n := |s| - 1;
      SomesHave(s[..n], x);
      if x in Somes(s[..n]) {
        var i :| 0 <= i < n && s[..n][i] == Some(x);
        assert s[i] == Some(x);
      }
      if i :| 0 <= i < |s| && s[i] == Some(x) {
        assert i < n ==> s[..n][i] == Some(x);
      }
    }
  }

  /** A static figure of a guest: as the entries have it, and as the rosters do. */
  datatype Figured = MaxCpu | MaxMem

  function OfGuest(f: Figured, g: Guest): int {
    match f case MaxCpu => g.maxcpu case MaxMem => g.maxmem
  }

  function OfColumns(f: Figured, c: GuestColumns): seq<int> {
    match f case MaxCpu => c.maxcpu case MaxMem => c.maxmem
  }

  function OfSamples(f: Figured, s: seq<Guest>): seq<int> {
    match f case MaxCpu => MaxCpus(s) case MaxMem => MaxMems(s)
  }

  lemma OfSamplesHas(f: Figured, s: seq<Guest>, x: int)
    ensures x in OfSamples(f, s) <==> exists g :: g in s && OfGuest(f, g) == x
  {
    var r := OfSamples(f, s);
    if x in r {
      var i :| 0 <= i < |r| && r[i] == x;
      assert s[i] in s;
    }
    if g :| g in s && OfGuest(f, g) == x {
      var i :| 0 <= i < |s| && s[i] == g;
      assert r[i] == x;
    }
  }

  lemma ValueInSamples(st: Storage, v: nat, f: Figured, k: nat)
    requires StorageOk(st) && v in Union(st, 0) && k < |Used(st.snaps)|
    ensures var c := ColumnsOf(st);
            var g := IndexOf(Union(st, 0), v);
            c.width > 0 && k < |Strided(OfColumns(f, c), g, c.width)| == |Strided(c.statics, g, c.width)|
            && (Strided(c.statics, g, c.width)[k].Here? ==> Strided(OfColumns(f, c), g, c.width)[k] in OfSamples(f, Somes(Track(st, v))))
  {
    hide Union, Strided, Used, ColumnsOf, OfSamples;
    StaticsAt(st, v, k);
    var r := RosterUsed(st, k);
    if v in r.vids {
      var s :| 0 <= s < |st.snaps| && RosterOf(st, s) == r;
      var e := Entry(r, st.snaps[s].1, IndexOf(r.vids, v));
      assert Track(st, v)[s] == Some(e);
      SomesHave(Track(st, v), e);
      OfSamplesHas(f, Somes(Track(st, v)), OfGuest(f, e));
    }
  }

  lemma SampleInValues(st: Storage, v: nat, f: Figured, s: nat)
    requires StorageOk(st) && v in Union(st, 0) && s < |st.snaps| && At(st, v, s).Some?
    ensures var c := ColumnsOf(st);
            var g := IndexOf(Union(st, 0), v);
            var k := SnapK(st)[s];
            c.width > 0 && k < |Strided(OfColumns(f, c), g, c.width)| == |Strided(c.statics, g, c.width)|
            && Strided(c.statics, g, c.width)[k] == Here(At(st, v, s).value.lxc)
            && Place(k, c.width, g) < |c.statics| && c.statics[Place(k, c.width, g)] == Here(At(st, v, s).value.lxc)
            && Strided(OfColumns(f, c), g, c.width)[k] == OfGuest(f, At(st, v, s).value)
  {
    hide Union, Strided, Used, ColumnsOf, RosterUsed, Place;
    SnapUses(st, s);
    StaticsAt(st, v, SnapK(st)[s]);
  }

  lemma MaximaAgree(st: Storage, v: nat, f: Figured)
    requires StorageOk(st) && v in Union(st, 0)
    ensures var c := ColumnsOf(st);
            var g := IndexOf(Union(st, 0), v);
            && Readable(c, g) && |Strided(OfColumns(f, c), g, c.width)| == |Strided(c.statics, g, c.width)|
            && MaxOf([0] + Values(c, OfColumns(f, c), g)) == MaxOf(OfSamples(f, Somes(Track(st, v))))
  {
    hide Union, Strided, Used, ColumnsOf, OfSamples, OfGuest, Values, Readable, MaxOf, At;
    var c := ColumnsOf(st);
    var g := IndexOf(Union(st, 0), v);
    IsReadable(st, v);
    StridesMatch(c, g, f);
    var values, samples := Values(c, OfColumns(f, c), g), OfSamples(f, Somes(Track(st, v)));
    forall x | x in values ensures x in samples {
      ValuesHave(c, OfColumns(f, c), g, x);
      var k :| 0 <= k < |Strided(OfColumns(f, c), g, c.width)| && Strided(c.statics, g, c.width)[k].Here?
               && Strided(OfColumns(f, c), g, c.width)[k] == x;
      StridesCount(st, v, f);
      ValueInSamples(st, v, f, k);
    }
    forall x | x in samples ensures x in values {
      OfSamplesHas(f, Somes(Track(st, v)), x);
      var e :| e in Somes(Track(st, v)) && OfGuest(f, e) == x;
      SomesHave(Track(st, v), e);
      var s :| 0 <= s < |Track(st, v)| && Track(st, v)[s] == Some(e);
      SampleInValues(st, v, f, s);
      ValuesHave(c, OfColumns(f, c), g, x);
    }
    SameMax(samples, [0] + values);
  }

  lemma StridesMatch(c: GuestColumns, g: nat, f: Figured)
    requires Readable(c, g)
    ensures c.width > 0 && |Strided(OfColumns(f, c), g, c.width)| == |Strided(c.statics, g, c.width)|
  {
  }

  lemma StridesCount(st: Storage, v: nat, f: Figured)
    requires StorageOk(st) && v in Union(st, 0)
    ensures var c := ColumnsOf(st);
            c.width > 0 && |Strided(OfColumns(f, c), IndexOf(Union(st, 0), v), c.width)| == |Used(st.snaps)|
  {
    hide Union, Strided, Used, Flat, Rows, FirstSeen;
    PlaceOf(st, v);
    var all := Union(st, 0);
    var g := IndexOf(all, v);
    StrideIsColumn(MaxCpuRows(st, all), g, |all|);
    StrideIsColumn(MaxMemRows(st, all), g, |all|);
  }

  // ----- the kind -----

  lemma {:induction false} FirstIsFirst<T>(track: seq<Option<T>>, here: seq<bool>)
    requires |here| == |track| && forall s :: 0 <= s < |track| ==> here[s] == track[s].Some?
    ensures Somes(track) != [] <==> First(here) < |here|
    ensures First(here) < |here| ==> track[First(here)] == Some(Somes(track)[0])
  {
    if track != [] {
      var n := |track| - 1;
      FirstIsFirst(track[..n], here[..n]);
      FirstOfPrefix(here, n);
      LastOfSomes(track);
      hide First, Somes;
      assert here[n] == track[n].Some?;
    }
  }

  lemma LastOfSomes<T>(track: seq<Option<T>>)
    requires track != []
    ensures var n := |track| - 1;
            var before := Somes(track[..n]);
            Somes(track) == (if track[n].Some? then before + [track[n].value] else before)
            && (before != [] ==> Somes(track)[0] == before[0])
  {
  }

  lemma {:induction false} FirstOfPrefix(s: seq<bool>, n: nat)
    requires n <= |s|
    ensures First(s[..n]) < n ==> First(s) == First(s[..n])
    ensures First(s[..n]) == n ==> First(s) >= n
  {
    if n > 0 && !s[0] {
      assert s[..n][1..] == s[1..][..n - 1];
      FirstOfPrefix(s[1..], n - 1);
    }
  }

  // ----- the two engines -----

  lemma {:induction false} SeenAreInUnion(st: Storage, v: nat)
    requires StorageOk(st) && v in FirstSeen(Rows(st))
    ensures v in Union(st, 0) && Somes(Track(st, v)) != []
  {
    hide Union, Rows;
    SeenHaveSamples(Rows(st), v);
    assert Rows(st)[..|st.snaps|] == Rows(st) && Track(st, v)[..|st.snaps|] == Track(st, v);
    TrackIsSamples(st, v, |st.snaps|);
    var e := Somes(Track(st, v))[0];
    SomesHave(Track(st, v), e);
    UnionIs(st, 0);
  }

  lemma StatsAgree(st: Storage, v: nat)
    requires StorageOk(st) && v in Union(st, 0) && Somes(Track(st, v)) != []
    ensures Readable(ColumnsOf(st), IndexOf(Union(st, 0), v))
    ensures ColStat(ColumnsOf(st), IndexOf(Union(st, 0), v)) == StatOf(Somes(Track(st, v)))
  {
    hide Union, Strided, Used, ColumnsOf, Values, Readable, MaxOf, At, Compress, Cells, Picked, Place;
    var c := ColumnsOf(st);
    var g := IndexOf(Union(st, 0), v);
    var track := Track(st, v);
    var samples := Somes(track);
    IsReadable(st, v);
    ColumnsAreTrack(st, v);
    ReadableMeans(c, g);
    var flags, cpu, mem := Strided(c.flags, g, c.width), Strided(c.cpu, g, c.width), Strided(c.mem, g, c.width);
    CellsHaveOneLength(track, flags, cpu, mem);
    HereIsCounted(track, flags, cpu, mem);
    RunningIsCounted(track, flags, cpu, mem);
    CpusAre(track, flags, cpu, mem);
    MemsAre(track, flags, cpu, mem);
    PickedIs(c, cpu, Bits(flags, CpuBit));
    PickedIs(c, mem, Bits(flags, MemBit));
    MaximaAgree(st, v, MaxCpu);
    MaximaAgree(st, v, MaxMem);
    KindsAgree(st, v);
  }

  lemma ReadableMeans(c: GuestColumns, g: nat)
    requires Readable(c, g)
    ensures c.width > 0 && |Strided(c.flags, g, c.width)| == |Strided(c.cpu, g, c.width)| == |Strided(c.mem, g, c.width)| == c.snaps
    ensures |c.snapK| == c.snaps && forall s :: 0 <= s < c.snaps ==> Place(c.snapK[s], c.width, g) < |c.statics|
  {
  }

  lemma KindsAgree(st: Storage, v: nat)
    requires StorageOk(st) && v in Union(st, 0) && Somes(Track(st, v)) != []
    ensures var c := ColumnsOf(st);
            var g := IndexOf(Union(st, 0), v);
            && Readable(c, g)
            && var first := First(Bits(Strided(c.flags, g, c.width), HereBit));
               first < c.snaps && c.statics[Place(c.snapK[first], c.width, g)] == Here(Somes(Track(st, v))[0].lxc)
  {
    hide Union, Strided, Used, ColumnsOf, Readable, At, Cells, Place;
    var c := ColumnsOf(st);
    var g := IndexOf(Union(st, 0), v);
    var track := Track(st, v);
    IsReadable(st, v);
    ReadableMeans(c, g);
    ColumnsAreTrack(st, v);
    ColumnsHave(st);
    var flags, cpu, mem := Strided(c.flags, g, c.width), Strided(c.cpu, g, c.width), Strided(c.mem, g, c.width);
    HereIsSome(track, flags, cpu, mem);
    FirstIsFirst(track, Bits(flags, HereBit));
    SampleInValues(st, v, MaxCpu, First(Bits(flags, HereBit)));
  }

  lemma HereIsSome(track: seq<Option<Guest>>, flags: seq<Flags>, cpu: seq<int>, mem: seq<int>)
    requires Cells(track, flags, cpu, mem)
    ensures |track| == |flags| && forall s :: 0 <= s < |track| ==> Bits(flags, HereBit)[s] == track[s].Some?
  {
    forall s | 0 <= s < |track| ensures Bits(flags, HereBit)[s] == track[s].Some? {
      assert Cell(track[s], flags[s], cpu[s], mem[s]);
    }
  }

  /** Over columns built from any stored window, the column engine gives the same guests in the
      same first-seen order, with the same kind, counts, maxima and averages, as the loop over
      the rows. */
  lemma EnginesAgree(st: Storage)
    requires StorageOk(st)
    ensures AllReadable(ColumnsOf(st))
    ensures CostStatsCols(ColumnsOf(st)) == Stats(Rows(st))
  {
    hide Rows, Readable, ColStat, StatOf, Samples, Union, FirstSeen;
    var c := ColumnsOf(st);
    var order := FirstSeen(Rows(st));
    assert c.order == Places(order, Union(st, 0));
    forall i | 0 <= i < |order|
      ensures Readable(c, c.order[i].1) && Samples(Rows(st), order[i]) != []
              && ColStat(c, c.order[i].1) == StatOf(Samples(Rows(st), order[i]))
    {
      var v := order[i];
      SeenAreInUnion(st, v);
      StatsAgree(st, v);
      assert Rows(st)[..|st.snaps|] == Rows(st) && Track(st, v)[..|st.snaps|] == Track(st, v);
      TrackIsSamples(st, v, |st.snaps|);
    }
    assert CostStatsCols(c) == Stats(Rows(st));
  }

  /** From the dicts the collector wrote to the report: storing them in columns and reading the
      columns gives what the loop over those very dicts gives. */
  lemma StoredWindowAgrees(vms: seq<Guests>, st: Storage)
    requires |st.snaps| == |vms|
    requires forall s :: 0 <= s < |vms| ==>
               IsDict(vms[s]) && st.snaps[s].0 in st.rosters
               && Encode(vms[s]) == Some((st.rosters[st.snaps[s].0], st.snaps[s].1))
    ensures StorageOk(st) && AllReadable(ColumnsOf(st)) && CostStatsCols(ColumnsOf(st)) == Stats(vms)
  {
    hide Encode, GuestMap, RosterOk, DynOk, Stats, CostStatsCols, ColumnsOf, AllReadable;
    forall s | 0 <= s < |vms|
      ensures var r := st.rosters[st.snaps[s].0];
              RosterOk(r) && DynOk(st.snaps[s].1, |r.vids|) && GuestMap(r, st.snaps[s].1) == vms[s]
    {
      StoredComesBack(vms[s]);
    }
    assert Rows(st) == vms;
    EnginesAgree(st);
  }
}
