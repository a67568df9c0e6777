/** A run in which a member promoted late is one more than the places: the bound is reached. */
module GateLate {
  import opened Wrappers
  import opened Gate
  import opened GateRuns

  /** The connections come one after the other and are promoted at once. */
  function Joining<C>(conns: seq<C>, source: string): seq<Step<C>> {
    if conns == [] then [] else [Accepts(conns[0], source, source), Promotes(conns[0])] + Joining(conns[1..], source)
  }

  lemma {:induction false} AfterThen<C>(limits: Limits, w: World<C>, a: seq<Step<C>>, b: seq<Step<C>>)
    requires Known(w.s) && limits.perSource > 0
    ensures After(limits, w, a + b) == After(limits, After(limits, w, a), b)
    decreases |a|
  {
    hide Next;
    if a == [] {
      assert a + b == b;
    } else {
      NextIsKnown(limits, w, a[0]);
      assert (a + b)[1..] == a[1..] + b;
      AfterThen(limits, Next(limits, w, a[0]), a[1..], b);
    }
  }

  lemma AfterOne<C>(limits: Limits, w: World<C>, step: Step<C>, rest: seq<Step<C>>)
    requires Known(w.s) && limits.perSource > 0
    ensures Known(Next(limits, w, step).s)
    ensures After(limits, w, [step] + rest) == After(limits, Next(limits, w, step), rest)
  {
    NextIsKnown(limits, w, step);
    hide Next;
    assert ([step] + rest)[1..] == rest;
  }

  lemma AfterNone<C>(limits: Limits, w: World<C>)
    requires Known(w.s) && limits.perSource > 0
    ensures After(limits, w, []) == w
  {
  }

  function Set<C(==)>(conns: seq<C>): set<C> {
    set c | c in conns
  }

  /** These are the members, idle all of them, and there was nobody else. */
  predicate Holds<C>(w: World<C>, conns: seq<C>) {
    && w.s.anon == [] && w.s.members == conns && w.peakMembers == 0 && w.late == 0
    && w.s.info.Keys == Set(conns)
    && forall c :: c in w.s.info ==> w.s.info[c].member && !w.s.info[c].busy
  }

  lemma {:induction false} AllIdle<C>(info: map<C, Info>, conns: seq<C>)
    requires forall i :: 0 <= i < |conns| ==> conns[i] in info && !info[conns[i]].busy
    ensures Pick(info, conns, Idle) == conns && Pick(info, conns, Busy) == []
  {
    if conns != [] {
      var n := |conns| - 1;
      AllIdle(info, conns[..n]);
      assert conns[..n] + [conns[n]] == conns;
    }
  }

  /** One connection more, accepted and promoted: nobody gives way while there is a place. */
  lemma Joins<C>(limits: Limits, w: World<C>, conns: seq<C>, c: C, source: string)
    requires limits.perSource > 0 && Holds(w, conns) && c !in conns && |conns| < limits.memberMax
    ensures Known(w.s) && Holds(After(limits, w, [Accepts(c, source, source), Promotes(c)]), conns + [c])
  {
    hide Next, Holds, Waits;
    var accepts, promotes := Accepts(c, source, source), Promotes(c);
    Admitted(limits, w, conns, c, source);
    var w1 := Next(limits, w, accepts);
    Promoted(limits, w1, conns, c);
    AfterOne(limits, w, accepts, [promotes]);
    AfterOne(limits, w1, promotes, []);
    AfterNone(limits, Next(limits, w1, promotes));
    assert [accepts] + [promotes] == [accepts, promotes];
    assert [promotes] + [] == [promotes];
  }

  /** Accepted and not promoted yet. */
  predicate Waits<C>(w: World<C>, conns: seq<C>, c: C) {
    && c !in conns && w.s.anon == [c] && w.s.members == conns && w.peakMembers == 0 && w.late == 0
    && w.s.info.Keys == Set(conns) + {c}
    && !w.s.info[c].member && !w.s.info[c].busy
    && forall d :: d in conns ==> w.s.info[d].member && !w.s.info[d].busy
  }

  lemma Admitted<C>(limits: Limits, w: World<C>, conns: seq<C>, c: C, source: string)
    requires limits.perSource > 0 && Holds(w, conns) && c !in conns
    ensures Known(w.s) && Waits(Next(limits, w, Accepts(c, source, source)), conns, c)
  {
    var s := Accepted(w.s, c, source, source, w.now);
    assert Pick(s.info, [], Idle) == [] && Pick(s.info, [], IdleFrom(source)) == [];
    assert Admit(limits, s, c).after.anon == [] + [c];
  }

  lemma PromotedIs<C>(limits: Limits, w: World<C>, c: C, members: seq<C>)
    requires limits.perSource > 0 && Known(w.s) && c in w.s.info && w.s.anon == [c] && !Former(w.s, c)
    requires members == Without(w.s.members, Evicted(limits, w.s, c)) && c !in members && !w.s.info[c].busy
    requires forall d :: d in members ==> d in w.s.info && !w.s.info[d].busy
    requires w.peakMembers == 0 && w.late == 0
    ensures var next := Next(limits, w, Promotes(c));
            && next.s.anon == [] && next.s.members == members + [c] && next.peakMembers == 0 && next.late == 0
            && next.s.info == w.s.info[c := w.s.info[c].(member := true, promoted := w.tick)]
  {
    hide Evicted, Without;
    assert [c][..0] == [] && Drop([], c) == [] && Drop([c], c) == [];
    var s := Promote(limits, w.s, c, w.tick);
    assert s.members == members + [c];
    hide Promote;
    AllIdle(s.info, s.members);
  }

  lemma EvictedIs<C>(limits: Limits, w: World<C>, conns: seq<C>, c: C)
    requires Waits(w, conns, c)
    ensures Known(w.s)
    ensures |conns| < limits.memberMax ==> Evicted(limits, w.s, c) == None
    ensures |conns| == limits.memberMax > 0 ==> Evicted(limits, w.s, c) == Some(conns[0])
  {
    AllIdle(w.s.info, conns);
    hide Pick;
  }

  lemma Promoted<C>(limits: Limits, w: World<C>, conns: seq<C>, c: C)
    requires limits.perSource > 0 && Waits(w, conns, c)
    ensures Known(w.s)
    ensures |conns| < limits.memberMax ==> Holds(Next(limits, w, Promotes(c)), conns + [c])
    ensures |conns| == limits.memberMax > 0 ==>
              Dropped(Next(limits, w, Promotes(c)), Drop(conns, conns[0]) + [c], conns[0])
  {
    hide Next, Evicted, Drop;
    EvictedIs(limits, w, conns, c);
    if |conns| < limits.memberMax {
      PromotedIs(limits, w, c, conns);
    } else if |conns| == limits.memberMax > 0 {
      PromotedIs(limits, w, c, Drop(conns, conns[0]));
    }
  }

  /** c gave way. */
  predicate Dropped<C>(w: World<C>, members: seq<C>, c: C) {
    && w.s.anon == [] && w.s.members == members && w.peakMembers == 0 && w.late == 0
    && c !in members && c in w.s.info && w.s.info[c].member && !w.s.info[c].busy
    && forall d :: d in members ==> d in w.s.info && !w.s.info[d].busy
  }

  lemma {:induction false} JoinAll<C>(limits: Limits, w: World<C>, conns: seq<C>, more: seq<C>, source: string)
    requires limits.perSource > 0 && Holds(w, conns) && Distinct(conns + more) && |conns + more| <= limits.memberMax
    ensures Known(w.s) && Holds(After(limits, w, Joining(more, source)), conns + more)
    decreases |more|
  {
    hide Holds, Distinct, After;
    HoldsKnown(w, conns);
    if more == [] {
      assert conns + more == conns;
      AfterNone(limits, w);
    } else {
      var c := more[0];
      NewOne(conns, more);
      Joins(limits, w, conns, c, source);
      var two := [Accepts(c, source, source), Promotes(c)];
      AfterThen(limits, w, two, Joining(more[1..], source));
      assert conns + more == (conns + [c]) + more[1..];
      JoinAll(limits, After(limits, w, two), conns + [c], more[1..], source);
    }
  }

  lemma HoldsKnown<C>(w: World<C>, conns: seq<C>)
    requires Holds(w, conns)
    ensures Known(w.s)
  {
  }

  lemma NewOne<C>(conns: seq<C>, more: seq<C>)
    requires Distinct(conns + more) && more != []
    ensures more[0] !in conns
  {
    var all := conns + more;
    forall i | 0 <= i < |conns| ensures conns[i] != more[0] {
      assert all[i] == conns[i] && all[|conns|] == more[0];
    }
  }

  lemma BeginHolds<C>()
    ensures Holds(Begin<C>(), [])
  {
  }

  lemma {:induction false} JoinApart<C>(a: seq<C>, b: seq<C>, source: string)
    ensures Joining(a + b, source) == Joining(a, source) + Joining(b, source)
  {
    if a == [] {
      assert a + b == b;
    } else {
      assert (a + b)[1..] == a[1..] + b;
      JoinApart(a[1..], b, source);
    }
  }

  /** The one that comes when the places are taken, and the late promotion. */
  lemma LastOnes<C>(limits: Limits, w: World<C>, conns: seq<C>, c: C, source: string)
    requires limits.perSource > 0 && Holds(w, conns) && c !in conns && Distinct(conns) && |conns| == limits.memberMax > 0
    ensures Known(w.s)
    ensures var late := After(limits, w, [Accepts(c, source, source)] + ([Promotes(c)] + ([Promotes(conns[0])] + [])));
            |late.s.members| == limits.memberMax + 1 && late.peakMembers == 0 && late.late == 1
  {
    hide Next, Holds, Waits, Dropped, Drop, Distinct;
    Admitted(limits, w, conns, c, source);
    var w1 := Next(limits, w, Accepts(c, source, source));
    Promoted(limits, w1, conns, c);
    var w2 := Next(limits, w1, Promotes(c));
    DropIsDistinct(conns, conns[0]);
    PromotedLate(limits, w2, Drop(conns, conns[0]) + [c], conns[0]);
    AfterOne(limits, w, Accepts(c, source, source), [Promotes(c)] + ([Promotes(conns[0])] + []));
    AfterOne(limits, w1, Promotes(c), [Promotes(conns[0])] + []);
    AfterOne(limits, w2, Promotes(conns[0]), []);
    AfterNone(limits, Next(limits, w2, Promotes(conns[0])));
  }

  lemma PromotedLate<C>(limits: Limits, w: World<C>, members: seq<C>, c: C)
    requires limits.perSource > 0 && Dropped(w, members, c)
    ensures Known(w.s)
    ensures var late := Next(limits, w, Promotes(c)); late.s.members == members + [c] && late.peakMembers == 0 && late.late == 1
  {
    LatePromotionGrowsReserve(limits, w.s, c, w.tick);
    var s := Promote(limits, w.s, c, w.tick);
    assert s.members == members + [c];
    AllIdle(s.info, s.members);
  }

  lemma JoiningOne<C>(c: C, source: string)
    ensures Joining([c], source) == [Accepts(c, source, source), Promotes(c)]
  {
    assert [c][1..] == [];
  }

  /** The whole run, the last connection and the late promotion apart. */
  lemma RunApart<C>(conns: seq<C>, n: nat, source: string)
    requires |conns| == n + 1 > 1
    ensures Joining(conns, source) + [Promotes(conns[0])] ==
            Joining(conns[..n], source) + ([Accepts(conns[n], source, source)] + ([Promotes(conns[n])] + ([Promotes(conns[0])] + [])))
  {
    hide Joining;
    assert conns[..n] + [conns[n]] == conns;
    JoinApart(conns[..n], [conns[n]], source);
    JoiningOne(conns[n], source);
  }

  /** For any places there are for members and one connection more than that, each promoted as it
      comes: the first gives way to the last, and, promoted once more, is one too many - with
      nobody ever inside a call. */
  lemma LatePromotionIsOneTooMany<C>(limits: Limits, conns: seq<C>, source: string)
    requires limits.perSource > 0 && |conns| == limits.memberMax + 1 > 1 && Distinct(conns)
    ensures var w := After(limits, Begin(), Joining(conns, source) + [Promotes(conns[0])]);
            |w.s.members| == limits.memberMax + 1 && w.peakMembers == 0 && w.late == 1
  {
    var n := limits.memberMax;
    var first, c := conns[..n], conns[n];
    assert Distinct(first) && first + [c] == conns;
    hide Joining, Holds, After, Distinct, Begin;
    NewOne(first, [c]);
    RunApart(conns, n, source);
    BeginHolds<C>();
    assert [] + first == first;
    JoinAll(limits, Begin(), [], first, source);
    var w := After(limits, Begin(), Joining(first, source));
    AfterThen(limits, Begin(), Joining(first, source),
              [Accepts(c, source, source)] + ([Promotes(c)] + ([Promotes(conns[0])] + [])));
    LastOnes(limits, w, first, c, source);
  }
}
