/**
 What the cost report reads of the history of each guest (pegaprox/api/costs.py): the loop
 over the rows, and the engine over columns that has to give the same.
 */
module Costs {
  import opened Metrics
  import opened Columns

  datatype Stat = Stat(lxc: bool, rCount: nat, total: nat, maxcpu: int, maxmem: int, avgCpu: real, avgMem: real)

  // ----- sums, means and maxima -----

  function Sum(s: seq<Figure>): real {
    if s == [] then 0.0 else Sum(s[..|s| - 1]) + Value(s[|s| - 1])
  }

  /** The mean, of the one figure 0 when there is none. */
  function Mean(s: seq<Figure>): real {
    if s == [] then 0.0 else Sum(s) / (|s| as real)
  }

  function Max(a: int, b: int): int {
    if a < b then b else a
  }

  /** The largest, 0 where none is more. */
  function MaxOf(s: seq<int>): (m: int)
    ensures m >= 0
    ensures forall i :: 0 <= i < |s| ==> s[i] <= m
    ensures m == 0 || m in s
  {
    if s == [] then 0 else Max(MaxOf(s[..|s| - 1]), s[|s| - 1])
  }

  // ----- what the rows say of a guest -----

  /** The entries of a guest in one row. */
  function In(row: Guests, v: nat): seq<Guest> {
    if row == [] then [] else In(row[..|row| - 1], v) + if row[|row| - 1].0 == v then [row[|row| - 1].1] else []
  }

  /** The samples of a guest over the rows. */
  function Samples(rows: seq<Guests>, v: nat): seq<Guest> {
    if rows == [] then [] else Samples(rows[..|rows| - 1], v) + In(rows[|rows| - 1], v)
  }

  function Running(s: seq<Guest>): nat {
    if s == [] then 0 else Running(s[..|s| - 1]) + if s[|s| - 1].running then 1 else 0
  }

  function Cpus(s: seq<Guest>): seq<Figure> {
    if s == [] then [] else Cpus(s[..|s| - 1]) + if s[|s| - 1].cpu.Some? then [s[|s| - 1].cpu.value] else []
  }

  function Mems(s: seq<Guest>): seq<Figure> {
    if s == [] then [] else Mems(s[..|s| - 1]) + if s[|s| - 1].mem.Some? then [s[|s| - 1].mem.value] else []
  }

  function MaxCpus(s: seq<Guest>): (r: seq<int>)
    ensures |r| == |s| && forall i :: 0 <= i < |s| ==> r[i] == s[i].maxcpu
  {
    seq(|s|, i requires 0 <= i < |s| => s[i].maxcpu)
  }

  function MaxMems(s: seq<Guest>): (r: seq<int>)
    ensures |r| == |s| && forall i :: 0 <= i < |s| ==> r[i] == s[i].maxmem
  {
    seq(|s|, i requires 0 <= i < |s| => s[i].maxmem)
  }

  function StatOf(s: seq<Guest>): Stat
    requires s != []
  {
    Stat(s[0].lxc, Running(s), |s|, MaxOf(MaxCpus(s)), MaxOf(MaxMems(s)), Mean(Cpus(s)), Mean(Mems(s)))
  }

  lemma {:induction false} NewAreSeen(seen: seq<nat>, row: Guests, v: nat)
    ensures v in WithNew(seen, row) <==> v in seen || In(row, v) != []
  {
    if row != [] {
      NewAreSeen(seen, row[..|row| - 1], v);
    }
  }

  lemma {:induction false} SeenHaveSamples(rows: seq<Guests>, v: nat)
    ensures v in FirstSeen(rows) <==> Samples(rows, v) != []
  {
    if rows != [] {
      SeenHaveSamples(rows[..|rows| - 1], v);
      NewAreSeen(FirstSeen(rows[..|rows| - 1]), rows[|rows| - 1], v);
    }
  }

  /** What the report reads of each guest, in the order of their first samples. */
  function Stats(rows: seq<Guests>): (r: seq<(nat, Stat)>)
    ensures |r| == |FirstSeen(rows)|
  {
    var order := FirstSeen(rows);
    forall i | 0 <= i < |order| ensures Samples(rows, order[i]) != [] {
      SeenHaveSamples(rows, order[i]);
    }
    seq(|order|, i requires 0 <= i < |order| && Samples(rows, order[i]) != [] => (order[i], StatOf(Samples(rows, order[i]))))
  }

  // ----- the loop over the rows -----

  /** What the loop gathers of a guest. */
  datatype Gathered = Gathered(cpu: seq<Figure>, mem: seq<Figure>, maxmem: int, maxcpu: int, lxc: bool, rCount: nat, total: nat)

  function Gather(s: seq<Guest>): Gathered
    requires s != []
  {
    Gathered(Cpus(s), Mems(s), MaxOf(MaxMems(s)), MaxOf(MaxCpus(s)), s[0].lxc, Running(s), |s|)
  }

  lemma OneMore(s: seq<Guest>, g: Guest)
    ensures Cpus(s + [g]) == Cpus(s) + if g.cpu.Some? then [g.cpu.value] else []
    ensures Mems(s + [g]) == Mems(s) + if g.mem.Some? then [g.mem.value] else []
    ensures Running(s + [g]) == Running(s) + if g.running then 1 else 0
    ensures MaxOf(MaxCpus(s + [g])) == Max(MaxOf(MaxCpus(s)), g.maxcpu)
    ensures MaxOf(MaxMems(s + [g])) == Max(MaxOf(MaxMems(s)), g.maxmem)
  {
    assert (s + [g])[..|s|] == s;
    assert MaxCpus(s + [g])[..|s|] == MaxCpus(s) && MaxMems(s + [g])[..|s|] == MaxMems(s);
  }

  /** The state of the loop: the guests in the order they came in, and what was gathered. */
  ghost predicate Follows(order: seq<nat>, byVm: map<nat, Gathered>, rows: seq<Guests>, row: Guests) {
    && order == WithNew(FirstSeen(rows), row)
    && (forall v :: v in byVm <==> v in order)
    && (forall v :: v in byVm ==> var s := Samples(rows, v) + In(row, v); s != [] && byVm[v] == Gather(s))
  }

  /** setdefault, and what the body of the loop adds. */
  function Added(byVm: map<nat, Gathered>, v: nat, g: Guest): Gathered {
    var e := if v in byVm then byVm[v] else Gathered([], [], 0, 0, g.lxc, 0, 0);
    Gathered(e.cpu + if g.cpu.Some? then [g.cpu.value] else [],
             e.mem + if g.mem.Some? then [g.mem.value] else [],
             if g.maxmem != 0 then Max(e.maxmem, g.maxmem) else e.maxmem,
             if g.maxcpu != 0 then Max(e.maxcpu, g.maxcpu) else e.maxcpu,
             e.lxc, e.rCount + if g.running then 1 else 0, e.total + 1)
  }

  lemma AddedIs(byVm: map<nat, Gathered>, v: nat, g: Guest, s: seq<Guest>)
    requires if v in byVm then s != [] && byVm[v] == Gather(s) else s == []
    ensures Added(byVm, v, g) == Gather(s + [g])
  {
    OneMore(s, g);
    EmptyGathers();
    hide Running, Cpus, Mems, MaxOf;
    assert v in byVm ==> (s + [g])[0] == s[0];
  }

  lemma AddedFollows(order: seq<nat>, byVm: map<nat, Gathered>, rows: seq<Guests>, row: Guests, v: nat, g: Guest)
    requires Follows(order, byVm, rows, row)
    ensures Follows(if v in byVm then order else order + [v], byVm[v := Added(byVm, v, g)], rows, row + [(v, g)])
  {
    hide Gather, Added, Samples, FirstSeen;
    var more := row + [(v, g)];
    var byVm' := byVm[v := Added(byVm, v, g)];
    assert more[..|row|] == row;
    forall u | u in byVm' ensures var s := Samples(rows, u) + In(more, u); s != [] && byVm'[u] == Gather(s) {
      if u == v {
        var s := Samples(rows, v) + In(row, v);
        assert Samples(rows, v) + In(more, v) == s + [g];
        if v !in byVm {
          NothingBefore(rows, row, v);
        }
        AddedIs(byVm, v, g, s);
      } else {
        assert In(more, u) == In(row, u) + [] == In(row, u);
        assert byVm'[u] == byVm[u];
      }
    }
  }

  lemma NothingBefore(rows: seq<Guests>, row: Guests, v: nat)
    requires v !in WithNew(FirstSeen(rows), row)
    ensures Samples(rows, v) + In(row, v) == []
  {
    NewAreSeen(FirstSeen(rows), row, v);
    SeenHaveSamples(rows, v);
  }

  lemma EmptyGathers()
    ensures Cpus([]) == [] && Mems([]) == [] && MaxOf(MaxCpus([])) == 0 && MaxOf(MaxMems([])) == 0 && Running([]) == 0
  {
  }

  lemma NextRow(order: seq<nat>, byVm: map<nat, Gathered>, rows: seq<Guests>, row: Guests)
    requires Follows(order, byVm, rows, row)
    ensures Follows(order, byVm, rows + [row], [])
  {
    assert (rows + [row])[..|rows|] == rows;
    forall v | v in byVm
      ensures Samples(rows + [row], v) + In([], v) != [] && byVm[v] == Gather(Samples(rows + [row], v) + In([], v))
    {
      assert Samples(rows + [row], v) + In([], v) == Samples(rows, v) + In(row, v);
    }
  }

  lemma FollowedIs(order: seq<nat>, byVm: map<nat, Gathered>, rows: seq<Guests>, j: nat)
    requires Follows(order, byVm, rows, []) && j < |order|
    ensures order == FirstSeen(rows) && order[j] in byVm
    ensures var e := byVm[order[j]];
            Stats(rows)[j] == (order[j], Stat(e.lxc, e.rCount, e.total, e.maxcpu, e.maxmem, Mean(e.cpu), Mean(e.mem)))
  {
    hide Samples, FirstSeen, Cpus, Mems, Running, MaxOf, Mean;
    var v := order[j];
    assert Samples(rows, v) + In([], v) == Samples(rows, v);
    SeenHaveSamples(rows, v);
  }

  lemma NothingFollowsNothing()
    ensures Follows([], map[], [], [])
  {
  }

  /** The loop over guests and snapshots gives each guest what its samples say. */
  method CostStats(rows: seq<Guests>) returns (out: seq<(nat, Stat)>)
    ensures out == Stats(rows)
  {
    hide Follows, Added, Stats;
    var order: seq<nat>, byVm: map<nat, Gathered> := [], map[];
    NothingFollowsNothing();
    var s := 0;
    while s < |rows|
      invariant 0 <= s <= |rows|
      invariant Follows(order, byVm, rows[..s], [])
    {
      var row := rows[s];
      var i := 0;
      while i < |row|
        invariant 0 <= i <= |row|
        invariant Follows(order, byVm, rows[..s], row[..i])
      {
        var (v, g) := row[i];
        AddedFollows(order, byVm, rows[..s], row[..i], v, g);
        assert row[..i + 1] == row[..i] + [(v, g)];
        var e := Added(byVm, v, g);
        if v !in byVm {
          order := order + [v];
        }
        byVm := byVm[v := e];
        i := i + 1;
      }
      assert row[..i] == row;
      NextRow(order, byVm, rows[..s], row);
      assert rows[..s + 1] == rows[..s] + [row];
      s := s + 1;
    }
    assert rows[..s] == rows;
    FollowedOrder(order, byVm, rows);
    out := [];
    var j := 0;
    while j < |order|
      invariant 0 <= j <= |order|
      invariant out == Stats(rows)[..j]
    {
      FollowedIs(order, byVm, rows, j);
      var e := byVm[order[j]];
      var avgCpu := if e.cpu == [] then 0.0 else Sum(e.cpu) / (|e.cpu| as real);
      var avgMem := if e.mem == [] then 0.0 else Sum(e.mem) / (|e.mem| as real);
      out := out + [(order[j], Stat(e.lxc, e.rCount, e.total, e.maxcpu, e.maxmem, avgCpu, avgMem))];
      j := j + 1;
    }
  }

  lemma FollowedOrder(order: seq<nat>, byVm: map<nat, Gathered>, rows: seq<Guests>)
    requires Follows(order, byVm, rows, [])
    ensures order == FirstSeen(rows)
  {
  }
}
