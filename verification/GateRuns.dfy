/** What the gate keeps over whole runs of connections coming, moving on, being promoted, being
    inside a call and going, with a clock that does not go back. */
module GateRuns {
  import opened Wrappers
  import opened Gate

  // ----- one admission -----

  /** The per-source rule: c's own source holds perSource idle connections, and d is one of
      them with the least clock. */
  predicate StalestOfSource<C>(limits: Limits, s: State<C>, c: C, d: C)
    requires Known(s) && c in s.info
  {
    var same := Pick(s.info, s.anon, IdleFrom(s.info[c].source));
    && d in s.anon && !s.info[d].busy && s.info[d].source == s.info[c].source
    && d in same && |same| >= limits.perSource
    && forall i :: 0 <= i < |same| ==> s.info[d].last <= s.info[same[i]].last
  }

  /** The rule for all: the places are taken, no idle connection is of a group that holds more
      than d's, and of those whose group holds as many d has the least clock. */
  predicate StalestOfFullest<C>(limits: Limits, info: map<C, Info>, anon: seq<C>, d: C)
    requires forall i :: 0 <= i < |anon| ==> anon[i] in info
  {
    && |anon| >= limits.anonMax
    && d in anon && !info[d].busy
    && (forall i :: 0 <= i < |anon| && !info[anon[i]].busy ==> Share(info, anon, anon[i]) <= Share(info, anon, d))
    && (forall i :: 0 <= i < |anon| && !info[anon[i]].busy && Share(info, anon, anon[i]) == Share(info, anon, d) ==>
          info[d].last <= info[anon[i]].last)
  }

  lemma BySourceIsFair<C>(limits: Limits, s: State<C>, c: C)
    requires Known(s) && c in s.info && limits.perSource > 0
    ensures var d := BySource(limits, s, c); d.Some? ==> StalestOfSource(limits, s, c, d.value)
  {
  }

  lemma ByShareIsFair<C>(limits: Limits, info: map<C, Info>, anon: seq<C>)
    requires forall i :: 0 <= i < |anon| ==> anon[i] in info
    ensures var d := ByShare(limits, info, anon); d.Some? ==> StalestOfFullest(limits, info, anon, d.value)
  {
    hide Share, Most, Fullest, Stalest;
    var idle := Pick(info, anon, Idle);
    forall i | 0 <= i < |anon| && !info[anon[i]].busy ensures anon[i] in idle {
      PickFinds(info, anon, Idle, anon[i]);
    }
  }

  /** Who an admission drops: never a connection inside a call, never a member; one of the
      newcomer's own source or one of a fullest group, and in both cases one with the least
      clock of those. */
  lemma AdmissionIsFair<C>(limits: Limits, s: State<C>, c: C)
    requires Known(s) && c in s.info && limits.perSource > 0
    ensures var a := Admit(limits, s, c);
            && a.after.members == s.members && a.after.info == s.info && c in a.after.anon
            && (forall i :: 0 <= i < |s.anon| && s.anon[i] != c && s.anon[i] !in a.after.anon ==>
                  a.bySource == Some(s.anon[i]) || a.byShare == Some(s.anon[i]))
            && (a.bySource.Some? ==> StalestOfSource(limits, s, c, a.bySource.value))
            && (a.byShare.Some? ==> StalestOfFullest(limits, s.info, Without(s.anon, a.bySource), a.byShare.value))
  {
    hide BySource, ByShare, StalestOfSource, StalestOfFullest, Drop;
    BySourceIsFair(limits, s, c);
    var a := Admit(limits, s, c);
    var anon := Without(s.anon, a.bySource);
    ByShareIsFair(limits, s.info, anon);
    forall i | 0 <= i < |s.anon| && s.anon[i] != c && s.anon[i] !in a.after.anon
      ensures a.bySource == Some(s.anon[i]) || a.byShare == Some(s.anon[i])
    {
      var d := s.anon[i];
      if a.bySource != Some(d) {
        WithoutKeeps(s.anon, a.bySource, d);
        if a.byShare != Some(d) {
          WithoutKeeps(anon, a.byShare, d);
        }
      }
    }
  }

  lemma {:induction false} WithoutKeeps<C>(anon: seq<C>, c: Option<C>, d: C)
    requires d in anon && c != Some(d)
    ensures d in Without(anon, c)
  {
    if c.Some? {
      DropKeeps(anon, c.value, d);
    }
  }

  lemma {:induction false} DropKeeps<C>(conns: seq<C>, c: C, d: C)
    requires d in conns && c != d
    ensures d in Drop(conns, c)
  {
    var n := |conns| - 1;
    if d in conns[..n] {
      DropKeeps(conns[..n], c, d);
    } else {
      assert conns[n] == d;
    }
  }

  lemma {:induction false} PickFinds<C>(info: map<C, Info>, conns: seq<C>, q: Ask, c: C)
    requires forall i :: 0 <= i < |conns| ==> conns[i] in info
    requires c in conns && Is(q, info[c])
    ensures c in Pick(info, conns, q)
  {
    var n := |conns| - 1;
    if c in conns[..n] {
      PickFinds(info, conns[..n], q, c);
    } else {
      assert conns[n] == c;
    }
  }

  // ----- counting -----

  predicate Distinct<C(==)>(s: seq<C>) {
    forall i, j :: 0 <= i < j < |s| ==> s[i] != s[j]
  }

  function Count<C>(info: map<C, Info>, conns: seq<C>, q: Ask): nat
    requires forall i :: 0 <= i < |conns| ==> conns[i] in info
  {
    |Pick(info, conns, q)|
  }

  function Bit(b: bool): nat {
    if b then 1 else 0
  }

  lemma CountAppends<C>(info: map<C, Info>, conns: seq<C>, c: C, q: Ask)
    requires c in info && forall i :: 0 <= i < |conns| ==> conns[i] in info
    ensures forall i :: 0 <= i < |conns + [c]| ==> (conns + [c])[i] in info
    ensures Count(info, conns + [c], q) == Count(info, conns, q) + Bit(Is(q, info[c]))
  {
    assert (conns + [c])[..|conns|] == conns;
  }

  /** Dropping from the end on. */
  lemma DropLast<C>(conns: seq<C>, c: C)
    requires conns != []
    ensures var n := |conns| - 1;
            Drop(conns, c) == if conns[n] != c then Drop(conns[..n], c) + [conns[n]] else Drop(conns[..n], c)
    ensures Distinct(conns) ==> Distinct(conns[..|conns| - 1]) && conns[|conns| - 1] !in conns[..|conns| - 1]
  {
  }

  lemma AppendIsDistinct<C>(s: seq<C>, c: C)
    requires Distinct(s) && c !in s
    ensures Distinct(s + [c])
  {
  }

  lemma LastOr<C>(s: seq<C>, c: C)
    requires s != []
    ensures c in s <==> c in s[..|s| - 1] || c == s[|s| - 1]
  {
    assert s == s[..|s| - 1] + [s[|s| - 1]];
  }

  lemma {:induction false} DropIsDistinct<C>(conns: seq<C>, c: C)
    requires Distinct(conns)
    ensures Distinct(Drop(conns, c)) && |Drop(conns, c)| == |conns| - Bit(c in conns)
  {
    if conns == [] {
      DroppedNothing(conns, c);
    } else {
      hide Drop, Distinct;
      var n := |conns| - 1;
      DropLast(conns, c);
      DropIsDistinct(conns[..n], c);
      LastOr(conns, c);
      var r := Drop(conns[..n], c);
      if conns[n] != c {
        assert conns[n] !in r;
        AppendIsDistinct(r, conns[n]);
      }
    }
  }

  lemma CountLast<C>(info: map<C, Info>, conns: seq<C>, q: Ask)
    requires conns != [] && forall i :: 0 <= i < |conns| ==> conns[i] in info
    ensures var n := |conns| - 1;
            Count(info, conns, q) == Count(info, conns[..n], q) + Bit(Is(q, info[conns[n]]))
  {
  }

  lemma {:induction false} CountDrops<C>(info: map<C, Info>, conns: seq<C>, c: C, q: Ask)
    requires Distinct(conns) && forall i :: 0 <= i < |conns| ==> conns[i] in info
    ensures Count(info, Drop(conns, c), q) == Count(info, conns, q) - Bit(c in conns && Is(q, info[c]))
    ensures Distinct(Drop(conns, c))
    ensures |Drop(conns, c)| == |conns| - Bit(c in conns)
  {
    DropIsDistinct(conns, c);
    hide Drop, Count, Is;
    if conns == [] {
      DroppedNothing(conns, c);
    } else {
      var n := |conns| - 1;
      DropLast(conns, c);
      CountLast(info, conns, q);
      CountDrops(info, conns[..n], c, q);
      assert c in conns <==> c in conns[..n] || c == conns[n];
      if conns[n] != c {
        CountAppends(info, Drop(conns[..n], c), conns[n], q);
      }
    }
  }

  lemma DroppedNothing<C>(conns: seq<C>, c: C)
    requires conns == []
    ensures Drop(conns, c) == []
  {
  }

  /** What one connection says of itself changes the counts of the lists it is in by at most one. */
  lemma {:induction false} CountUpdates<C>(info: map<C, Info>, conns: seq<C>, c: C, i: Info, q: Ask)
    requires Distinct(conns) && forall k :: 0 <= k < |conns| ==> conns[k] in info
    requires c in info
    ensures Count(info[c := i], conns, q) ==
            Count(info, conns, q) - Bit(c in conns && Is(q, info[c])) + Bit(c in conns && Is(q, i))
  {
    if conns != [] {
      var n := |conns| - 1;
      CountUpdates(info, conns[..n], c, i, q);
    }
  }

  lemma {:induction false} CountSplits<C>(info: map<C, Info>, conns: seq<C>, source: string)
    requires forall k :: 0 <= k < |conns| ==> conns[k] in info
    ensures Count(info, conns, From(source)) == Count(info, conns, IdleFrom(source)) + Count(info, conns, BusyFrom(source))
    ensures |conns| == Count(info, conns, Idle) + Count(info, conns, Busy)
    ensures Count(info, conns, BusyFrom(source)) <= Count(info, conns, Busy)
  {
    if conns != [] {
      CountSplits(info, conns[..|conns| - 1], source);
    }
  }

  // ----- runs -----

  /** The gate with the clock, the number of promotions so far and, of the past, the most
      connections that were inside a call at once: of the ones without a signature, of those
      from each source, and of the members; late: how many members were promoted once more
      after the gate had dropped them. */
  datatype World<!C(==)> =
    World(s: State<C>, now: int, tick: nat, peakAnon: nat, peakFrom: map<string, nat>, peakMembers: nat, late: nat)

  datatype Step<C> =
    | Accepts(c: C, source: string, group: string)
    | Moves(c: C)
    | Promotes(c: C)
    | Enters(c: C)
    | Leaves(c: C)
    | Goes(c: C)
    | Ticks(elapsed: nat)

  function Begin<C(==)>(): World<C> {
    World(State([], [], map[]), 0, 0, 0, map[], 0, 0)
  }

  function PeakFrom<C>(w: World<C>, source: string): nat {
    if source in w.peakFrom then w.peakFrom[source] else 0
  }

  function Max(a: nat, b: nat): nat {
    if a < b then b else a
  }

  /** A member the gate has dropped: it is killed, but may take a few more steps before it ends. */
  predicate Former<C>(s: State<C>, c: C) {
    c in s.info && s.info[c].member && c !in s.members
  }

  /** The peaks after c entered a call. */
  function Peaked<C>(w: World<C>, c: C): World<C>
    requires Known(w.s) && c in w.s.info
  {
    var source := w.s.info[c].source;
    w.(peakAnon := Max(w.peakAnon, Count(w.s.info, w.s.anon, Busy)),
       peakMembers := Max(w.peakMembers, Count(w.s.info, w.s.members, Busy)),
       peakFrom := w.peakFrom[source := Max(PeakFrom(w, source), Count(w.s.info, w.s.anon, BusyFrom(source)))])
  }

  function Moved<C>(s: State<C>, c: C, now: int): State<C>
    requires c in s.info
  {
    s.(info := s.info[c := s.info[c].(last := now)])
  }

  function SetBusy<C>(s: State<C>, c: C, busy: bool): State<C>
    requires c in s.info
  {
    s.(info := s.info[c := s.info[c].(busy := busy)])
  }

  function Accepted<C>(s: State<C>, c: C, source: string, group: string, now: int): State<C> {
    s.(info := s.info[c := Info(source, group, false, false, now, 0)])
  }

  /** A step that is not possible now changes nothing. */
  function Next<C>(limits: Limits, w: World<C>, step: Step<C>): World<C>
    requires Known(w.s) && limits.perSource > 0
  {
    match step
    case Accepts(c, source, group) =>
      if c in w.s.info then w else w.(s := Admit(limits, Accepted(w.s, c, source, group, w.now), c).after)
    case Moves(c) => if c in w.s.info then w.(s := Moved(w.s, c, w.now)) else w
    case Promotes(c) =>
      if c in w.s.info then
        Peaked(w.(s := Promote(limits, w.s, c, w.tick), tick := w.tick + 1, late := w.late + Bit(Former(w.s, c))), c)
      else w
    case Enters(c) => if c in w.s.info then Peaked(w.(s := SetBusy(w.s, c, true)), c) else w
    case Leaves(c) => if c in w.s.info then w.(s := SetBusy(w.s, c, false)) else w
    case Goes(c) => w.(s := Release(w.s, c))
    case Ticks(elapsed) => w.(now := w.now + elapsed)
  }

  ghost predicate Inv<C(!new)>(limits: Limits, w: World<C>) {
    && Known(w.s) && Distinct(w.s.anon) && Distinct(w.s.members)
    && (forall c :: c in w.s.anon ==> c !in w.s.members && !w.s.info[c].member)
    && (forall c :: c in w.s.members ==> w.s.info[c].member && w.s.info[c].promoted < w.tick)
    && (forall c :: c in w.s.info ==> w.s.info[c].last <= w.now)
    && Ordered(w.s.info, w.s.members)
    && Count(w.s.info, w.s.anon, Busy) <= w.peakAnon
    && Count(w.s.info, w.s.members, Busy) <= w.peakMembers
    && (forall source :: Count(w.s.info, w.s.anon, BusyFrom(source)) <= PeakFrom(w, source))
    && |w.s.anon| <= Max(limits.anonMax, w.peakAnon + 1)
    && |w.s.members| <= Max(limits.memberMax, w.peakMembers + 1) + w.late
    && (forall source :: Count(w.s.info, w.s.anon, From(source)) <= limits.perSource + PeakFrom(w, source))
  }

  lemma {:induction false} CountSame<C>(info: map<C, Info>, info': map<C, Info>, conns: seq<C>, q: Ask)
    requires forall k :: 0 <= k < |conns| ==> conns[k] in info && conns[k] in info' && info'[conns[k]] == info[conns[k]]
    ensures Count(info', conns, q) == Count(info, conns, q)
  {
    if conns != [] {
      CountSame(info, info', conns[..|conns| - 1], q);
    }
  }

  /** Taking an idle connection out, or none: no busy one goes, and no source gains. */
  lemma GivesWay<C>(info: map<C, Info>, anon: seq<C>, d: Option<C>)
    requires Distinct(anon) && forall k :: 0 <= k < |anon| ==> anon[k] in info
    requires d.Some? ==> d.value in anon && !info[d.value].busy
    ensures var r := Without(anon, d);
            && Distinct(r) && |r| == |anon| - Bit(d.Some?)
            && (forall k :: 0 <= k < |r| ==> r[k] in anon)
            && Count(info, r, Busy) == Count(info, anon, Busy)
            && (forall source :: Count(info, r, BusyFrom(source)) == Count(info, anon, BusyFrom(source)))
            && (forall source :: Count(info, r, From(source)) ==
                  Count(info, anon, From(source)) - Bit(d.Some? && info[d.value].source == source))
  {
    hide Count, Drop;
    if d.Some? {
      CountDrops(info, anon, d.value, Busy);
      forall source ensures Count(info, Drop(anon, d.value), BusyFrom(source)) == Count(info, anon, BusyFrom(source)) {
        CountDrops(info, anon, d.value, BusyFrom(source));
      }
      forall source ensures Count(info, Drop(anon, d.value), From(source)) ==
                            Count(info, anon, From(source)) - Bit(info[d.value].source == source) {
        CountDrops(info, anon, d.value, From(source));
      }
    }
  }

  /** The counts of the anonymous connections after an admission. */
  lemma AdmissionCounts<C>(limits: Limits, s: State<C>, c: C)
    requires Known(s) && Distinct(s.anon) && c in s.info && c !in s.anon && !s.info[c].busy && limits.perSource > 0
    ensures var anon := Admit(limits, s, c).after.anon; var mine := s.info[c].source;
            && Distinct(anon) && (forall k :: 0 <= k < |anon| ==> anon[k] in s.anon || anon[k] == c)
            && Count(s.info, anon, Busy) == Count(s.info, s.anon, Busy)
            && (forall source :: Count(s.info, anon, BusyFrom(source)) == Count(s.info, s.anon, BusyFrom(source)))
            && (|anon| <= |s.anon| || |anon| <= limits.anonMax || |anon| <= Count(s.info, s.anon, Busy) + 1)
            && (forall source :: source != mine ==> Count(s.info, anon, From(source)) <= Count(s.info, s.anon, From(source)))
            && (Count(s.info, anon, From(mine)) <= Count(s.info, s.anon, From(mine))
                || Count(s.info, anon, From(mine)) <= limits.perSource + Count(s.info, s.anon, BusyFrom(mine)))
  {
    hide Pick, Drop, BySource, ByShare, StalestOfSource, StalestOfFullest;
    var a := Admit(limits, s, c);
    var mine := s.info[c].source;
    AdmissionIsFair(limits, s, c);
    Rules(limits, s, c);
    var anon1 := Without(s.anon, a.bySource);
    GivesWay(s.info, s.anon, a.bySource);
    var anon2 := Without(anon1, a.byShare);
    GivesWay(s.info, anon1, a.byShare);
    CountSplits(s.info, s.anon, mine);
    CountSplits(s.info, anon1, mine);
    hide Count, Without, Distinct;
    OneMoreIdle(s.info, anon2, c);
  }

  lemma OneMoreIdle<C>(info: map<C, Info>, anon: seq<C>, c: C)
    requires Distinct(anon) && c in info && c !in anon && !info[c].busy && forall k :: 0 <= k < |anon| ==> anon[k] in info
    ensures Distinct(anon + [c]) && forall k :: 0 <= k < |anon + [c]| ==> (anon + [c])[k] in info
    ensures Count(info, anon + [c], Busy) == Count(info, anon, Busy)
    ensures forall source :: Count(info, anon + [c], BusyFrom(source)) == Count(info, anon, BusyFrom(source))
    ensures forall source :: Count(info, anon + [c], From(source)) == Count(info, anon, From(source)) + Bit(source == info[c].source)
  {
    hide Count;
    CountAppends(info, anon, c, Busy);
    forall source ensures Count(info, anon + [c], BusyFrom(source)) == Count(info, anon, BusyFrom(source)) {
      CountAppends(info, anon, c, BusyFrom(source));
    }
    forall source ensures Count(info, anon + [c], From(source)) == Count(info, anon, From(source)) + Bit(source == info[c].source) {
      CountAppends(info, anon, c, From(source));
    }
  }

  /** When each of the two rules drops one. */
  lemma Rules<C>(limits: Limits, s: State<C>, c: C)
    requires Known(s) && c in s.info && limits.perSource > 0
    ensures var a := Admit(limits, s, c); var mine := s.info[c].source;
            var anon := Without(s.anon, a.bySource);
            && (a.bySource.None? ==> Count(s.info, s.anon, IdleFrom(mine)) < limits.perSource)
            && (a.bySource.Some? ==> a.bySource.value in s.anon && !s.info[a.bySource.value].busy
                                     && s.info[a.bySource.value].source == mine)
            && (a.byShare.None? ==> |anon| < limits.anonMax || Count(s.info, anon, Idle) == 0)
            && (a.byShare.Some? ==> a.byShare.value in anon && !s.info[a.byShare.value].busy)
  {
    hide Pick, Drop, BySource, ByShare;
    OwnRule(limits, s, c);
    ShareRule(limits, s.info, Without(s.anon, BySource(limits, s, c)));
  }

  lemma OwnRule<C>(limits: Limits, s: State<C>, c: C)
    requires Known(s) && c in s.info && limits.perSource > 0
    ensures var d := BySource(limits, s, c); var mine := s.info[c].source;
            && (d.None? ==> Count(s.info, s.anon, IdleFrom(mine)) < limits.perSource)
            && (d.Some? ==> d.value in s.anon && !s.info[d.value].busy && s.info[d.value].source == mine)
  {
    hide Pick, Stalest;
  }

  lemma ShareRule<C>(limits: Limits, info: map<C, Info>, anon: seq<C>)
    requires forall i :: 0 <= i < |anon| ==> anon[i] in info
    ensures var d := ByShare(limits, info, anon);
            && (d.None? ==> |anon| < limits.anonMax || Count(info, anon, Idle) == 0)
            && (d.Some? ==> d.value in anon && !info[d.value].busy)
  {
    hide Pick, Stalest, Fullest, Most;
  }

  lemma AcceptKeepsInv<C(!new)>(limits: Limits, w: World<C>, c: C, source: string, group: string)
    requires Inv(limits, w) && limits.perSource > 0
    ensures Inv(limits, Next(limits, w, Accepts(c, source, group)))
  {
    hide Admit, Count;
    if c !in w.s.info {
      var s := Accepted(w.s, c, source, group, w.now);
      assert c !in w.s.anon && c !in w.s.members;
      AdmissionIsFair(limits, s, c);
      AdmissionCounts(limits, s, c);
      CountSame(w.s.info, s.info, w.s.anon, Busy);
      CountSame(w.s.info, s.info, w.s.members, Busy);
      forall x ensures Count(s.info, s.anon, BusyFrom(x)) == Count(w.s.info, w.s.anon, BusyFrom(x)) {
        CountSame(w.s.info, s.info, w.s.anon, BusyFrom(x));
      }
      forall x ensures Count(s.info, s.anon, From(x)) == Count(w.s.info, w.s.anon, From(x)) {
        CountSame(w.s.info, s.info, w.s.anon, From(x));
      }
    }
  }

  /** One connection changes what it says of itself, within its place. */
  lemma UpdateCounts<C(!new)>(s: State<C>, c: C, i: Info)
    requires Known(s) && Distinct(s.anon) && Distinct(s.members) && c in s.info
    requires i.source == s.info[c].source
    ensures var info := s.info[c := i]; var b, b' := Bit(s.info[c].busy), Bit(i.busy);
            && (forall source :: Count(info, s.anon, From(source)) == Count(s.info, s.anon, From(source)))
            && (forall source :: source != i.source ==>
                  Count(info, s.anon, BusyFrom(source)) == Count(s.info, s.anon, BusyFrom(source)))
            && (!i.busy ==>
                  && Count(info, s.anon, Busy) <= Count(s.info, s.anon, Busy)
                  && Count(info, s.members, Busy) <= Count(s.info, s.members, Busy)
                  && Count(info, s.anon, BusyFrom(i.source)) <= Count(s.info, s.anon, BusyFrom(i.source)))
            && (i.busy == s.info[c].busy ==>
                  && Count(info, s.anon, Busy) == Count(s.info, s.anon, Busy)
                  && Count(info, s.members, Busy) == Count(s.info, s.members, Busy)
                  && Count(info, s.anon, BusyFrom(i.source)) == Count(s.info, s.anon, BusyFrom(i.source)))
  {
    hide Count;
    CountUpdates(s.info, s.anon, c, i, Busy);
    CountUpdates(s.info, s.members, c, i, Busy);
    forall source ensures Count(s.info[c := i], s.anon, From(source)) == Count(s.info, s.anon, From(source)) {
      CountUpdates(s.info, s.anon, c, i, From(source));
    }
    CountUpdates(s.info, s.anon, c, i, BusyFrom(i.source));
    forall source | source != i.source
      ensures Count(s.info[c := i], s.anon, BusyFrom(source)) == Count(s.info, s.anon, BusyFrom(source))
    {
      CountUpdates(s.info, s.anon, c, i, BusyFrom(source));
    }
  }

  lemma MoveKeepsInv<C(!new)>(limits: Limits, w: World<C>, c: C)
    requires Inv(limits, w) && limits.perSource > 0
    ensures Inv(limits, Next(limits, w, Moves(c)))
  {
    hide Count;
    if c in w.s.info {
      UpdateCounts(w.s, c, w.s.info[c].(last := w.now));
    }
  }

  lemma EnterKeepsInv<C(!new)>(limits: Limits, w: World<C>, c: C)
    requires Inv(limits, w) && limits.perSource > 0
    ensures Inv(limits, Next(limits, w, Enters(c)))
  {
    hide Count;
    if c in w.s.info {
      UpdateCounts(w.s, c, w.s.info[c].(busy := true));
    }
  }

  lemma LeaveKeepsInv<C(!new)>(limits: Limits, w: World<C>, c: C)
    requires Inv(limits, w) && limits.perSource > 0
    ensures Inv(limits, Next(limits, w, Leaves(c)))
  {
    hide Count;
    if c in w.s.info {
      UpdateCounts(w.s, c, w.s.info[c].(busy := false));
    }
  }

  /** Taking one out, busy or not: no count grows. */
  lemma DropCounts<C(!new)>(info: map<C, Info>, conns: seq<C>, c: C)
    requires Distinct(conns) && forall k :: 0 <= k < |conns| ==> conns[k] in info
    ensures var r := Drop(conns, c);
            && Distinct(r) && |r| <= |conns| && (c in conns ==> |r| < |conns|)
            && Count(info, r, Busy) <= Count(info, conns, Busy)
            && (forall source :: Count(info, r, BusyFrom(source)) <= Count(info, conns, BusyFrom(source)))
            && (forall source :: Count(info, r, From(source)) <= Count(info, conns, From(source)))
  {
    hide Count, Drop;
    CountDrops(info, conns, c, Busy);
    forall source ensures Count(info, Drop(conns, c), BusyFrom(source)) <= Count(info, conns, BusyFrom(source)) {
      CountDrops(info, conns, c, BusyFrom(source));
    }
    forall source ensures Count(info, Drop(conns, c), From(source)) <= Count(info, conns, From(source)) {
      CountDrops(info, conns, c, From(source));
    }
  }

  /** In the order of their last promotions. */
  predicate Ordered<C>(info: map<C, Info>, conns: seq<C>) {
    && (forall k :: 0 <= k < |conns| ==> conns[k] in info)
    && (forall i, j :: 0 <= i < j < |conns| ==> info[conns[i]].promoted < info[conns[j]].promoted)
  }

  lemma {:induction false} DropKeepsOrder<C>(info: map<C, Info>, conns: seq<C>, c: C)
    requires Ordered(info, conns)
    ensures Ordered(info, Drop(conns, c))
  {
    if conns != [] {
      var n := |conns| - 1;
      assert conns[..n] + [conns[n]] == conns;
      DropKeepsOrder(info, conns[..n], c);
      OrderAppends(info, conns[..n], Drop(conns[..n], c), conns[n]);
    }
  }

  lemma {:induction false} PickKeepsOrder<C>(info: map<C, Info>, conns: seq<C>, q: Ask)
    requires Ordered(info, conns)
    ensures Ordered(info, Pick(info, conns, q))
  {
    if conns != [] {
      var n := |conns| - 1;
      assert conns[..n] + [conns[n]] == conns;
      PickKeepsOrder(info, conns[..n], q);
      OrderAppends(info, conns[..n], Pick(info, conns[..n], q), conns[n]);
    }
  }

  lemma OrderAppends<C>(info: map<C, Info>, conns: seq<C>, r: seq<C>, x: C)
    requires Ordered(info, conns + [x]) && Ordered(info, r) && forall k :: 0 <= k < |r| ==> r[k] in conns
    ensures Ordered(info, r + [x]) && Ordered(info, conns)
    ensures r + [] == r
  {
    assert (conns + [x])[|conns|] == x;
    forall k | 0 <= k < |r| ensures info[r[k]].promoted < info[x].promoted {
      var m :| 0 <= m < |conns| && conns[m] == r[k];
      assert (conns + [x])[m] == r[k];
    }
    assert forall m :: 0 <= m < |conns| ==> (conns + [x])[m] == conns[m];
  }

  lemma GoKeepsInv<C(!new)>(limits: Limits, w: World<C>, c: C)
    requires Inv(limits, w) && limits.perSource > 0
    ensures Inv(limits, Next(limits, w, Goes(c)))
  {
    hide Count, Drop;
    DropCounts(w.s.info, w.s.anon, c);
    DropCounts(w.s.info, w.s.members, c);
    DropKeepsOrder(w.s.info, w.s.members, c);
  }

  /** Who gives way in the reserve: the idle member whose promotion is the oldest; and
      then, or with nobody idle, or with room, one more fits the bound. */
  lemma EvictionIsLeastRecent<C(!new)>(limits: Limits, w: World<C>, c: C)
    requires Inv(limits, w) && c in w.s.info
    ensures var d := Evicted(limits, w.s, c);
            && (d.Some? ==>
                  && d.value in w.s.members && !w.s.info[d.value].busy && !w.s.info[c].member
                  && |w.s.members| >= limits.memberMax
                  && forall e :: e in w.s.members && !w.s.info[e].busy ==>
                       w.s.info[d.value].promoted <= w.s.info[e].promoted)
            && (d.None? && !w.s.info[c].member ==>
                  |w.s.members| < limits.memberMax || |w.s.members| == Count(w.s.info, w.s.members, Busy))
  {
    var idle := Pick(w.s.info, w.s.members, Idle);
    FirstIdleIsOldest(w.s.info, w.s.members);
    CountSplits(w.s.info, w.s.members, "");
    hide Pick, Ordered;
  }

  lemma FirstIdleIsOldest<C(!new)>(info: map<C, Info>, members: seq<C>)
    requires Ordered(info, members)
    ensures var idle := Pick(info, members, Idle);
            forall e :: e in members && !info[e].busy ==> idle != [] && info[idle[0]].promoted <= info[e].promoted
  {
    hide Pick;
    var idle := Pick(info, members, Idle);
    PickKeepsOrder(info, members, Idle);
    forall e | e in members && !info[e].busy ensures idle != [] && info[idle[0]].promoted <= info[e].promoted {
      PickFinds(info, members, Idle, e);
      var k :| 0 <= k < |idle| && idle[k] == e;
    }
  }

  /** The lists a promotion leaves. */
  lemma PromotionLists<C(!new)>(limits: Limits, w: World<C>, c: C)
    requires Inv(limits, w) && c in w.s.info
    ensures var s := Promote(limits, w.s, c, w.tick);
            && Distinct(s.anon) && Distinct(s.members)
            && (forall d :: d in s.anon ==> d in w.s.anon && d != c)
            && (forall d :: d in s.members ==> d == c || d in w.s.members)
            && s.members != [] && s.members[|s.members| - 1] == c && (forall k :: 0 <= k < |s.members| - 1 ==> s.members[k] != c)
            && |s.members| <= Max(Max(limits.memberMax, w.peakMembers + 1) + w.late, Count(w.s.info, w.s.members, Busy) + 1) + Bit(Former(w.s, c))
            && (forall i, j :: 0 <= i < j < |s.members| - 1 ==> w.s.info[s.members[i]].promoted < w.s.info[s.members[j]].promoted)
  {
    hide Count, Drop, Evicted;
    var d := Evicted(limits, w.s, c);
    EvictionIsLeastRecent(limits, w, c);
    var members := Without(w.s.members, d);
    if d.Some? {
      DropCounts(w.s.info, w.s.members, d.value);
      DropKeepsOrder(w.s.info, w.s.members, d.value);
    }
    DropCounts(w.s.info, members, c);
    DropKeepsOrder(w.s.info, members, c);
    DropCounts(w.s.info, w.s.anon, c);
    assert w.s.info[c].member && !Former(w.s, c) ==> c in w.s.members && c in members;
  }

  lemma PromoteKeepsInv<C(!new)>(limits: Limits, w: World<C>, c: C)
    requires Inv(limits, w) && limits.perSource > 0
    ensures Inv(limits, Next(limits, w, Promotes(c)))
  {
    hide Count, Drop, Evicted, Without;
    if c in w.s.info {
      PromotionLists(limits, w, c);
      PromotionCounts(limits, w, c);
      PromotionInfo(limits, w, c);
      hide Promote;
    }
  }

  lemma PromotionInfo<C(!new)>(limits: Limits, w: World<C>, c: C)
    requires Known(w.s) && c in w.s.info
    ensures Promote(limits, w.s, c, w.tick).info == w.s.info[c := w.s.info[c].(member := true, promoted := w.tick)]
  {
  }

  lemma PromotionCounts<C(!new)>(limits: Limits, w: World<C>, c: C)
    requires Inv(limits, w) && c in w.s.info
    ensures var s := Promote(limits, w.s, c, w.tick);
            && Known(s) && |s.anon| <= |w.s.anon|
            && Count(s.info, s.anon, Busy) <= Count(w.s.info, w.s.anon, Busy)
            && (forall x :: Count(s.info, s.anon, BusyFrom(x)) <= Count(w.s.info, w.s.anon, BusyFrom(x)))
            && (forall x :: Count(s.info, s.anon, From(x)) <= Count(w.s.info, w.s.anon, From(x)))
  {
    hide Count, Drop, Evicted, Without;
    var s := Promote(limits, w.s, c, w.tick);
    PromotionLists(limits, w, c);
    DropCounts(w.s.info, w.s.anon, c);
    CountSame(w.s.info, s.info, s.anon, Busy);
    forall x ensures Count(s.info, s.anon, BusyFrom(x)) <= Count(w.s.info, w.s.anon, BusyFrom(x)) {
      CountSame(w.s.info, s.info, s.anon, BusyFrom(x));
    }
    forall x ensures Count(s.info, s.anon, From(x)) <= Count(w.s.info, w.s.anon, From(x)) {
      CountSame(w.s.info, s.info, s.anon, From(x));
    }
  }

  function After<C>(limits: Limits, w: World<C>, steps: seq<Step<C>>): (r: World<C>)
    requires Known(w.s) && limits.perSource > 0
    ensures Known(r.s)
    decreases |steps|
  {
    if steps == [] then w
    else
      var w' := Next(limits, w, steps[0]);
      NextIsKnown(limits, w, steps[0]);
      After(limits, w', steps[1..])
  }

  lemma NextIsKnown<C>(limits: Limits, w: World<C>, step: Step<C>)
    requires Known(w.s) && limits.perSource > 0
    ensures Known(Next(limits, w, step).s)
  {
    hide Count, BySource, ByShare, Evicted;
    if step.Accepts? && step.c !in w.s.info {
      var s := Accepted(w.s, step.c, step.source, step.group, w.now);
      var a := Admit(limits, s, step.c);
      assert forall x :: x in Without(s.anon, a.bySource) ==> x in s.anon;
      assert forall x :: x in Without(Without(s.anon, a.bySource), a.byShare) ==> x in s.anon;
    }
  }

  lemma {:induction false} InvHolds<C(!new)>(limits: Limits, w: World<C>, steps: seq<Step<C>>)
    requires Inv(limits, w) && limits.perSource > 0
    ensures Inv(limits, After(limits, w, steps))
    decreases |steps|
  {
    if steps != [] {
      hide Next, Count;
      NextIsKnown(limits, w, steps[0]);
      match steps[0] {
        case Accepts(c, source, group) => AcceptKeepsInv(limits, w, c, source, group);
        case Moves(c) => MoveKeepsInv(limits, w, c);
        case Promotes(c) => PromoteKeepsInv(limits, w, c);
        case Enters(c) => EnterKeepsInv(limits, w, c);
        case Leaves(c) => LeaveKeepsInv(limits, w, c);
        case Goes(c) => GoKeepsInv(limits, w, c);
        case Ticks(_) => TickKeepsInv(limits, w, steps[0]);
      }
      InvHolds(limits, Next(limits, w, steps[0]), steps[1..]);
    }
  }

  lemma TickKeepsInv<C(!new)>(limits: Limits, w: World<C>, step: Step<C>)
    requires Inv(limits, w) && limits.perSource > 0 && step.Ticks?
    ensures Inv(limits, Next(limits, w, step))
  {
    hide Count;
  }

  /** In every state the gate can come to: nobody is in both lists, the anonymous connections
      and those of each source stay within their places and the most calls there were at
      once, so do the members but for one place more for each late promotion, and the members
      stand in the order of their last promotion, so the idle one that gives way has the oldest. */
  lemma GateIsBounded<C(!new)>(limits: Limits, steps: seq<Step<C>>, c: C)
    requires limits.perSource > 0
    ensures var w := After(limits, Begin<C>(), steps);
            && (forall d :: d in w.s.anon ==> d !in w.s.members)
            && |w.s.anon| <= Max(limits.anonMax, w.peakAnon + 1)
            && |w.s.members| <= Max(limits.memberMax, w.peakMembers + 1) + w.late
            && (forall source :: |Pick(w.s.info, w.s.anon, From(source))| <= limits.perSource + PeakFrom(w, source))
            && Ordered(w.s.info, w.s.members)
            && (c in w.s.info && Evicted(limits, w.s, c).Some? ==>
                  var d := Evicted(limits, w.s, c).value;
                  && d in w.s.members && !w.s.info[d].busy
                  && forall e :: e in w.s.members && !w.s.info[e].busy ==> w.s.info[d].promoted <= w.s.info[e].promoted)
  {
    hide After, Evicted;
    InvHolds(limits, Begin<C>(), steps);
    var w := After(limits, Begin<C>(), steps);
    forall source ensures |Pick(w.s.info, w.s.anon, From(source))| <= limits.perSource + PeakFrom(w, source) {
      assert Count(w.s.info, w.s.anon, From(source)) <= limits.perSource + PeakFrom(w, source);
    }
    if c in w.s.info {
      EvictionIsLeastRecent(limits, w, c);
    }
  }

  /** Why late promotions count: a member that was dropped and is promoted once more comes back
      without anybody giving way. */
  lemma LatePromotionGrowsReserve<C>(limits: Limits, s: State<C>, c: C, tick: nat)
    requires Known(s) && Former(s, c)
    ensures |Promote(limits, s, c, tick).members| == |s.members| + 1
  {
  }
}
