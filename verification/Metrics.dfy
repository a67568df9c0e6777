/**
 How the guests of one snapshot are stored (pegaprox/background/metrics_store.py): a roster
 of what seldom changes, in vmid order, and a body of what each snapshot measured.  The
 hosts of the guests, which the costs do not read, are left out.
 */
module Metrics {
  import opened Wrappers

  /** A cpu or mem figure as the collector wrote it: a float, or an int. */
  datatype Figure = Float(x: real) | Int(n: int)

  function Value(f: Figure): real {
    match f case Float(x) => x case Int(n) => n as real
  }

  datatype Guest = Guest(lxc: bool, running: bool, cpu: Option<Figure>, mem: Option<Figure>, maxmem: int, maxcpu: int)

  /** The guests of a snapshot, a dict in its own order. */
  type Guests = seq<(nat, Guest)>

  predicate IsDict<T>(d: seq<(nat, T)>) {
    forall i, j :: 0 <= i < j < |d| ==> d[i].0 != d[j].0
  }

  // ----- tenths -----

  const MAX_TENTHS: int := 32767

  /** The tenths that give the figure back; -1 for the int 0; None off shape. */
  function Tenths(f: Figure): Option<int> {
    match f
    case Float(x) =>
      var t := (x * 10.0).Floor;
      if 0 <= t <= MAX_TENTHS && t as real / 10.0 == x then Some(t) else None
    case Int(n) => if n == 0 then Some(-1) else None
  }

  /** The figure a stored tenth stands for. */
  function FigureOf(t: int): Figure {
    if t == -1 then Int(0) else Float(t as real / 10.0)
  }

  lemma TenthsComeBack(f: Figure)
    ensures Tenths(f).Some? ==> FigureOf(Tenths(f).value) == f && -1 <= Tenths(f).value <= MAX_TENTHS
  {
  }

  lemma TenTimes(x: real)
    ensures (x / 10.0) * 10.0 == x
  {
  }

  lemma TenthsAreKept(t: int)
    requires -1 <= t <= MAX_TENTHS
    ensures Tenths(FigureOf(t)) == Some(t)
  {
    if t >= 0 {
      var x := t as real / 10.0;
      TenTimes(t as real);
      assert (x * 10.0).Floor == t;
    }
  }

  // ----- the two parts -----

  /** The flag byte of a guest in a snapshot. */
  datatype Flags = Flags(here: bool, running: bool, cpuSet: bool, memSet: bool)

  datatype Roster = Roster(vids: seq<nat>, lxc: seq<bool>, maxcpu: seq<int>, maxmem: seq<int>, perm: Option<seq<nat>>)

  datatype Dyn = Dyn(flags: seq<Flags>, cpu: seq<int>, mem: seq<int>)

  const U32: int := 0x1_0000_0000
  const I63: int := 0x8000_0000_0000_0000

  predicate Ascending(s: seq<nat>) {
    forall i, j :: 0 <= i < j < |s| ==> s[i] < s[j]
  }

  /** No number twice. */
  predicate Once(s: seq<nat>) {
    forall i, j :: 0 <= i < j < |s| ==> s[i] != s[j]
  }

  predicate IsPermutation(p: seq<nat>, n: nat) {
    && |p| == n
    && (forall i :: 0 <= i < n ==> p[i] < n)
    && Once(p)
  }

  function UpTo(n: nat): (s: set<nat>)
    ensures |s| == n && forall i: nat :: i in s <==> i < n
  {
    if n == 0 then {} else UpTo(n - 1) + {n - 1}
  }

  lemma SubsetSize(a: set<nat>, b: set<nat>)
    requires a <= b
    ensures |a| <= |b|
  {
    assert b == a + (b - a);
    assert |a + (b - a)| == |a| + |b - a|;
  }

  function SetOf(s: seq<nat>): set<nat> {
    set v | v in s
  }

  lemma {:induction false} OnceCounts(s: seq<nat>)
    requires Once(s)
    ensures |SetOf(s)| == |s|
  {
    if s != [] {
      var t := s[..|s| - 1];
      OnceCounts(t);
      assert s == t + [s[|s| - 1]];
      assert SetOf(s) == SetOf(t) + {s[|s| - 1]};
    } else {
      assert SetOf(s) == {};
    }
  }

  /** A list without repeats, as long as the set it is from, holds all of it. */
  lemma FullHasAll(s: seq<nat>, all: set<nat>)
    requires Once(s) && |s| == |all| && forall v :: v in s ==> v in all
    ensures forall v :: v in all ==> v in s
  {
    OnceCounts(s);
    forall v | v in all ensures v in s {
      if v !in s {
        SubsetSize(SetOf(s), all - {v});
      }
    }
  }

  lemma PermutationHits(p: seq<nat>, n: nat, x: nat)
    requires IsPermutation(p, n) && x < n
    ensures x in p
  {
    FullHasAll(p, UpTo(n));
  }

  predicate RosterOk(r: Roster) {
    && Ascending(r.vids)
    && |r.lxc| == |r.maxcpu| == |r.maxmem| == |r.vids|
    && (forall i :: 0 <= i < |r.vids| ==> r.maxcpu[i] >= 0 && r.maxmem[i] >= 0)
    && (r.perm.Some? ==> IsPermutation(r.perm.value, |r.vids|))
  }

  predicate DynOk(d: Dyn, n: nat) {
    && |d.flags| == |d.cpu| == |d.mem| == n
    && forall i :: 0 <= i < n ==> d.flags[i].here
  }

  function Entry(r: Roster, d: Dyn, pos: nat): Guest
    requires RosterOk(r) && DynOk(d, |r.vids|) && pos < |r.vids|
  {
    Guest(r.lxc[pos], d.flags[pos].running,
          if d.flags[pos].cpuSet then Some(FigureOf(d.cpu[pos])) else None,
          if d.flags[pos].memSet then Some(FigureOf(d.mem[pos])) else None,
          r.maxmem[pos], r.maxcpu[pos])
  }

  /** The positions of a roster's guests in the order of the dict. */
  function Positions(r: Roster): (p: seq<nat>)
    requires RosterOk(r)
    ensures IsPermutation(p, |r.vids|)
  {
    match r.perm case Some(p) => p case None => seq(|r.vids|, i requires 0 <= i => i)
  }

  /** guest_map: the dict, as it was. */
  function GuestMap(r: Roster, d: Dyn): (m: Guests)
    requires RosterOk(r) && DynOk(d, |r.vids|)
    ensures |m| == |r.vids|
  {
    var p := Positions(r);
    seq(|p|, i requires 0 <= i < |p| => (r.vids[p[i]], Entry(r, d, p[i])))
  }

  lemma GuestMapIsDict(r: Roster, d: Dyn)
    requires RosterOk(r) && DynOk(d, |r.vids|)
    ensures IsDict(GuestMap(r, d))
  {
    var p := Positions(r);
    var m := GuestMap(r, d);
    forall i, j | 0 <= i < j < |m| ensures m[i].0 != m[j].0 {
      assert p[i] != p[j];
      assert p[i] < p[j] || p[j] < p[i];
    }
  }

  // ----- storing -----

  /** An entry is what the collector writes. */
  predicate InShape(vid: nat, g: Guest) {
    && vid < U32 && 0 <= g.maxcpu < U32 && 0 <= g.maxmem < I63
    && (g.cpu.Some? ==> Tenths(g.cpu.value).Some?)
    && (g.mem.Some? ==> Tenths(g.mem.value).Some?)
  }

  predicate AllInShape(vms: Guests) {
    forall i :: 0 <= i < |vms| ==> InShape(vms[i].0, vms[i].1)
  }

  function Insert(vms: Guests, vid: nat, g: Guest): Guests {
    if vms == [] || vid <= vms[0].0 then [(vid, g)] + vms else [vms[0]] + Insert(vms[1..], vid, g)
  }

  /** The guests in vmid order. */
  function ByVid(vms: Guests): Guests {
    if vms == [] then [] else Insert(ByVid(vms[1..]), vms[0].0, vms[0].1)
  }

  function Find(vms: Guests, vid: nat): (i: nat)
    ensures i <= |vms|
    ensures i < |vms| ==> vms[i].0 == vid
    ensures forall j :: 0 <= j < i ==> vms[j].0 != vid
  {
    if vms == [] || vms[0].0 == vid then 0 else 1 + Find(vms[1..], vid)
  }

  function Stored(f: Option<Figure>): int
    requires f.Some? ==> Tenths(f.value).Some?
  {
    if f.Some? then Tenths(f.value).value else 0
  }

  function RosterFor(sorted: Guests, perm: Option<seq<nat>>): Roster {
    var n := |sorted|;
    Roster(seq(n, i requires 0 <= i < n => sorted[i].0), seq(n, i requires 0 <= i < n => sorted[i].1.lxc),
           seq(n, i requires 0 <= i < n => sorted[i].1.maxcpu), seq(n, i requires 0 <= i < n => sorted[i].1.maxmem), perm)
  }

  function DynFor(sorted: Guests): Dyn
    requires AllInShape(sorted)
  {
    var n := |sorted|;
    Dyn(seq(n, i requires 0 <= i < n => Flags(true, sorted[i].1.running, sorted[i].1.cpu.Some?, sorted[i].1.mem.Some?)),
        seq(n, i requires 0 <= i < n => Stored(sorted[i].1.cpu)), seq(n, i requires 0 <= i < n => Stored(sorted[i].1.mem)))
  }

  /** encode_guests: the roster and the samples of the guests, by id; None unless AllInShape. */
  function Encode(vms: Guests): Option<(Roster, Dyn)> {
    if !AllInShape(vms) then None
    else
      SortKeepsShape(vms);
      var sorted := ByVid(vms);
      var perm := if sorted == vms then None else Some(PermOf(vms, sorted));
      Some((RosterFor(sorted, perm), DynFor(sorted)))
  }

  lemma {:induction false} InsertIs(vms: Guests, vid: nat, g: Guest)
    ensures multiset(Insert(vms, vid, g)) == multiset(vms) + multiset{(vid, g)}
    ensures |Insert(vms, vid, g)| == |vms| + 1
    ensures forall e :: e in Insert(vms, vid, g) <==> e in vms || e == (vid, g)
  {
    var r := Insert(vms, vid, g);
    if vms == [] || vid <= vms[0].0 {
    } else {
      InsertIs(vms[1..], vid, g);
      assert vms == [vms[0]] + vms[1..];
    }
    assert forall e :: e in r <==> e in multiset(r);
    assert forall e :: e in vms <==> e in multiset(vms);
  }

  predicate Sorted(vms: Guests) {
    forall i, j :: 0 <= i < j < |vms| ==> vms[i].0 < vms[j].0
  }

  lemma {:induction false} InsertSorts(vms: Guests, vid: nat, g: Guest)
    requires Sorted(vms) && forall i :: 0 <= i < |vms| ==> vms[i].0 != vid
    ensures Sorted(Insert(vms, vid, g))
  {
    if vms == [] || vid <= vms[0].0 {
    } else {
      InsertSorts(vms[1..], vid, g);
      InsertIs(vms[1..], vid, g);
      var r := Insert(vms[1..], vid, g);
      forall j | 0 <= j < |r| ensures vms[0].0 < r[j].0 {
        assert r[j] in r;
      }
    }
  }

  lemma {:induction false} ByVidIs(vms: Guests)
    ensures |ByVid(vms)| == |vms|
    ensures forall e :: e in ByVid(vms) <==> e in vms
    ensures IsDict(vms) ==> Sorted(ByVid(vms))
  {
    if vms != [] {
      var rest := vms[1..];
      ByVidIs(rest);
      InsertIs(ByVid(rest), vms[0].0, vms[0].1);
      if IsDict(vms) {
        forall i | 0 <= i < |ByVid(rest)| ensures ByVid(rest)[i].0 != vms[0].0 {
          assert ByVid(rest)[i] in ByVid(rest);
          var k :| 0 <= k < |rest| && rest[k] == ByVid(rest)[i];
          assert vms[k + 1] == rest[k];
        }
        InsertSorts(ByVid(rest), vms[0].0, vms[0].1);
      }
      assert vms == [vms[0]] + rest;
    }
  }

  lemma SortKeepsShape(vms: Guests)
    requires AllInShape(vms)
    ensures AllInShape(ByVid(vms))
  {
    ByVidIs(vms);
    var s := ByVid(vms);
    forall i | 0 <= i < |s| ensures InShape(s[i].0, s[i].1) {
      assert s[i] in s;
    }
  }

  // ----- back again -----

  lemma FindFinds(sorted: Guests, vms: Guests, i: nat)
    requires Sorted(sorted) && i < |vms| && vms[i] in sorted
    ensures Find(sorted, vms[i].0) < |sorted| && sorted[Find(sorted, vms[i].0)] == vms[i]
  {
    var k :| 0 <= k < |sorted| && sorted[k] == vms[i];
    var f := Find(sorted, vms[i].0);
    assert f <= k;
  }

  lemma EntryComesBack(sorted: Guests, perm: Option<seq<nat>>, pos: nat)
    requires Sorted(sorted) && AllInShape(sorted) && pos < |sorted|
    requires perm.Some? ==> IsPermutation(perm.value, |sorted|)
    ensures RosterOk(RosterFor(sorted, perm)) && DynOk(DynFor(sorted), |sorted|)
    ensures Entry(RosterFor(sorted, perm), DynFor(sorted), pos) == sorted[pos].1
  {
    var g := sorted[pos].1;
    if g.cpu.Some? {
      TenthsComeBack(g.cpu.value);
    }
    if g.mem.Some? {
      TenthsComeBack(g.mem.value);
    }
  }

  lemma PartsAreOk(sorted: Guests, perm: Option<seq<nat>>)
    requires Sorted(sorted) && AllInShape(sorted)
    requires perm.Some? ==> IsPermutation(perm.value, |sorted|)
    ensures RosterOk(RosterFor(sorted, perm)) && DynOk(DynFor(sorted), |sorted|)
  {
  }

  /** The position of each guest of the dict among the sorted ones. */
  function PermOf(vms: Guests, sorted: Guests): (p: seq<nat>)
    ensures |p| == |vms|
  {
    seq(|vms|, i requires 0 <= i < |vms| => Find(sorted, vms[i].0))
  }

  lemma PermIs(vms: Guests)
    requires IsDict(vms)
    ensures var sorted := ByVid(vms);
            var p := PermOf(vms, sorted);
            && |sorted| == |vms| && Sorted(sorted) && IsPermutation(p, |sorted|)
            && forall i :: 0 <= i < |vms| ==> sorted[p[i]] == vms[i]
  {
    ByVidIs(vms);
    var sorted := ByVid(vms);
    hide Sorted, ByVid;
    forall i | 0 <= i < |vms| ensures Find(sorted, vms[i].0) < |sorted| && sorted[Find(sorted, vms[i].0)] == vms[i] {
      assert vms[i] in vms;
      FindFinds(sorted, vms, i);
    }
  }

  /** The dict that was stored, from a roster and a body made of the sorted guests. */
  lemma MapComesBack(vms: Guests, sorted: Guests, perm: Option<seq<nat>>)
    requires Sorted(sorted) && AllInShape(sorted) && |sorted| == |vms|
    requires perm.Some? ==> IsPermutation(perm.value, |sorted|) && forall i :: 0 <= i < |vms| ==> sorted[perm.value[i]] == vms[i]
    requires perm.None? ==> sorted == vms
    ensures var (r, d) := (RosterFor(sorted, perm), DynFor(sorted));
            RosterOk(r) && DynOk(d, |r.vids|) && GuestMap(r, d) == vms
  {
    PartsAreOk(sorted, perm);
    hide Sorted, AllInShape, RosterOk, DynOk, Entry, DynFor, IsPermutation;
    var r, d := RosterFor(sorted, perm), DynFor(sorted);
    forall i | 0 <= i < |vms| ensures GuestMap(r, d)[i] == vms[i] {
      EntryComesBack(sorted, perm, Positions(r)[i]);
    }
  }

  /** What was stored reads back as the very dict it was made from - its guests, their order
      and every figure - and a dict is stored exactly when every entry is in shape. */
  lemma StoredComesBack(vms: Guests)
    requires IsDict(vms)
    ensures Encode(vms).Some? <==> AllInShape(vms)
    ensures Encode(vms).Some? ==>
              var (r, d) := Encode(vms).value;
              RosterOk(r) && DynOk(d, |r.vids|) && GuestMap(r, d) == vms
  {
    hide AllInShape, GuestMap, RosterOk, DynOk, RosterFor, DynFor, ByVid, PermOf, Sorted;
    if AllInShape(vms) {
      SortKeepsShape(vms);
      PermIs(vms);
      var sorted := ByVid(vms);
      MapComesBack(vms, sorted, if sorted == vms then None else Some(PermOf(vms, sorted)));
    }
  }
}
