/**
 What each step does to the two lists of the gate, connection by connection, and what the clock
 and the order of a connection mean in a run.
 */
module GateSteps {
  import opened Wrappers
  import opened Gate
  import opened GateRuns

  // ----- one step -----

  /** An accepted connection comes last, and those in front stay in their order but for the ones that
      give way: one of its own source exactly when that has all its idle places taken, and then
      one of all exactly when all places are taken and somebody is idle. */
  lemma AdmissionWrites<C>(limits: Limits, s: State<C>, c: C)
    requires Known(s) && c in s.info && limits.perSource > 0
    ensures var a := Admit(limits, s, c);
            var anon := Without(s.anon, a.bySource);
            && a.after.anon == Without(anon, a.byShare) + [c]
            && a.after.members == s.members && a.after.info == s.info
            && (a.bySource.Some? <==> Count(s.info, s.anon, IdleFrom(s.info[c].source)) >= limits.perSource)
            && (a.byShare.Some? <==> |anon| >= limits.anonMax && exists d :: d in anon && !s.info[d].busy)
  {
    var a := Admit(limits, s, c);
    var anon := Without(s.anon, a.bySource);
    SomeIdle(s.info, anon);
    hide Pick, Stalest, Fullest, Most;
  }

  lemma {:induction false} SomeIdle<C>(info: map<C, Info>, conns: seq<C>)
    requires forall i :: 0 <= i < |conns| ==> conns[i] in info
    ensures Pick(info, conns, Idle) != [] <==> exists d :: d in conns && !info[d].busy
  {
    if conns != [] {
      var n := |conns| - 1;
      SomeIdle(info, conns[..n]);
      assert conns == conns[..n] + [conns[n]];
    }
  }

  /** A connection that is dropped is the one that goes: the others stay, in their order. */
  lemma {:induction false} DropLeaves<C>(conns: seq<C>, c: C, d: C)
    ensures d in Drop(conns, c) <==> d in conns && d != c
  {
    if conns != [] {
      var n := |conns| - 1;
      DropLeaves(conns[..n], c, d);
      assert conns == conns[..n] + [conns[n]];
    }
  }

  /** A promoted connection is a member, the last of them, and stands in the other list no more; a
      member gives way exactly when it was none yet, the places are taken and one of them is
      idle.  The rest is as it was. */
  lemma PromotionWrites<C>(limits: Limits, s: State<C>, c: C, tick: nat)
    requires Known(s) && c in s.info
    ensures var t := Promote(limits, s, c, tick);
            var d := Evicted(limits, s, c);
            && t.members == Drop(Without(s.members, d), c) + [c] && t.anon == Drop(s.anon, c)
            && t.info.Keys == s.info.Keys && (forall x :: x in s.info && x != c ==> t.info[x] == s.info[x])
            && t.info[c] == s.info[c].(member := true, promoted := tick)
            && (d.Some? <==> !s.info[c].member && |s.members| >= limits.memberMax && exists x :: x in s.members && !s.info[x].busy)
  {
    SomeIdle(s.info, s.members);
    hide Pick;
  }

  /** A connection that ends is in neither list; nobody else goes. */
  lemma ReleaseWrites<C(!new)>(s: State<C>, c: C)
    ensures var t := Release(s, c);
            && (forall d :: d in t.anon <==> d in s.anon && d != c)
            && (forall d :: d in t.members <==> d in s.members && d != c)
            && t.info == s.info
  {
    forall d ensures d in Drop(s.anon, c) <==> d in s.anon && d != c {
      DropLeaves(s.anon, c, d);
    }
    forall d ensures d in Drop(s.members, c) <==> d in s.members && d != c {
      DropLeaves(s.members, c, d);
    }
  }

  // ----- what the figures of a connection mean in a run -----

  /** The time the run has come to. */
  function Elapsed<C>(steps: seq<Step<C>>): nat {
    if steps == [] then 0
    else Elapsed(steps[..|steps| - 1]) + match steps[|steps| - 1] case Ticks(elapsed) => elapsed case _ => 0
  }

  /** c was accepted. */
  predicate Joined<C(==)>(steps: seq<Step<C>>, c: C) {
    exists i :: 0 <= i < |steps| && steps[i].Accepts? && steps[i].c == c
  }

  /** The last time c moved on: was accepted, or took a step. */
  function LastMove<C(==)>(steps: seq<Step<C>>, c: C): nat {
    if steps == [] then 0
    else
      var n := |steps| - 1;
      match steps[n]
      case Accepts(d, _, _) => if d == c && !Joined(steps[..n], c) then Elapsed(steps[..n]) else LastMove(steps[..n], c)
      case Moves(d) => if d == c && Joined(steps[..n], c) then Elapsed(steps[..n]) else LastMove(steps[..n], c)
      case _ => LastMove(steps[..n], c)
  }

  /** c is inside a call. */
  predicate InCall<C(==)>(steps: seq<Step<C>>, c: C) {
    if steps == [] then false
    else
      var n := |steps| - 1;
      match steps[n]
      case Enters(d) => if d == c then Joined(steps[..n], c) else InCall(steps[..n], c)
      case Leaves(d) => d != c && InCall(steps[..n], c)
      case _ => InCall(steps[..n], c)
  }

  /** How many promotions there were, each of a connection that was accepted. */
  function Promotions<C(==)>(steps: seq<Step<C>>): nat {
    if steps == [] then 0
    else
      var n := |steps| - 1;
      Promotions(steps[..n]) + if steps[n].Promotes? && Joined(steps[..n], steps[n].c) then 1 else 0
  }

  /** Which promotion the last one of c was, None before its first. */
  function LastPromotion<C(==)>(steps: seq<Step<C>>, c: C): Option<nat> {
    if steps == [] then None
    else
      var n := |steps| - 1;
      if steps[n] == Promotes(c) && Joined(steps[..n], c) then Some(Promotions(steps[..n])) else LastPromotion(steps[..n], c)
  }

  /** The figures of the connections are what the run so far says. */
  ghost predicate Figures<C(!new)>(w: World<C>, steps: seq<Step<C>>) {
    w.now == Elapsed(steps) && w.tick == Promotions(steps) && forall c :: FigureOf(w, steps, c)
  }

  lemma JoinedMore<C>(steps: seq<Step<C>>, step: Step<C>, c: C)
    ensures Joined(steps + [step], c) <==> Joined(steps, c) || (step.Accepts? && step.c == c)
  {
    var more := steps + [step];
    if Joined(steps, c) {
      var i :| 0 <= i < |steps| && steps[i].Accepts? && steps[i].c == c;
      assert more[i] == steps[i];
    }
    assert more[|steps|] == step;
  }

  lemma {:induction false} NeverJoined<C>(steps: seq<Step<C>>, c: C)
    requires !Joined(steps, c)
    ensures !InCall(steps, c) && LastPromotion(steps, c).None?
  {
    if steps != [] {
      var n := |steps| - 1;
      assert forall i :: 0 <= i < n ==> steps[..n][i] == steps[i];
      assert !Joined(steps[..n], c);
      NeverJoined(steps[..n], c);
    }
  }

  /** What a step does to the figures. */
  lemma StepInfo<C>(limits: Limits, w: World<C>, step: Step<C>)
    requires Known(w.s) && limits.perSource > 0
    ensures var w' := Next(limits, w, step);
            && w'.now == (if step.Ticks? then w.now + step.elapsed else w.now)
            && w'.tick == (if step.Promotes? && step.c in w.s.info then w.tick + 1 else w.tick)
            && w'.s.info ==
               match step
               case Accepts(c, source, group) =>
                 if c in w.s.info then w.s.info else w.s.info[c := Info(source, group, false, false, w.now, 0)]
               case Moves(c) => if c in w.s.info then w.s.info[c := w.s.info[c].(last := w.now)] else w.s.info
               case Promotes(c) =>
                 if c in w.s.info then w.s.info[c := w.s.info[c].(member := true, promoted := w.tick)] else w.s.info
               case Enters(c) => if c in w.s.info then w.s.info[c := w.s.info[c].(busy := true)] else w.s.info
               case Leaves(c) => if c in w.s.info then w.s.info[c := w.s.info[c].(busy := false)] else w.s.info
               case _ => w.s.info
  {
    hide Count, BySource, ByShare, Evicted, Drop, Without;
  }

  lemma FiguresMore<C>(steps: seq<Step<C>>, step: Step<C>, c: C)
    ensures var more := steps + [step];
            && Elapsed(more) == Elapsed(steps) + (match step case Ticks(elapsed) => elapsed case _ => 0)
            && Promotions(more) == Promotions(steps) + (if step.Promotes? && Joined(steps, step.c) then 1 else 0)
            && LastMove(more, c) == (match step
                                     case Accepts(d, _, _) => if d == c && !Joined(steps, c) then Elapsed(steps) else LastMove(steps, c)
                                     case Moves(d) => if d == c && Joined(steps, c) then Elapsed(steps) else LastMove(steps, c)
                                     case _ => LastMove(steps, c))
            && (InCall(more, c) <==> match step
                                     case Enters(d) => if d == c then Joined(steps, c) else InCall(steps, c)
                                     case Leaves(d) => d != c && InCall(steps, c)
                                     case _ => InCall(steps, c))
            && LastPromotion(more, c) == if step == Promotes(c) && Joined(steps, c) then Some(Promotions(steps)) else LastPromotion(steps, c)
  {
    var more := steps + [step];
    assert more[..|more| - 1] == steps && more[|more| - 1] == step;
    hide Joined;
  }

  predicate FigureOf<C(==)>(w: World<C>, steps: seq<Step<C>>, c: C) {
    && (c in w.s.info <==> Joined(steps, c))
    && (c in w.s.info ==>
          && w.s.info[c].last == LastMove(steps, c) && (w.s.info[c].busy <==> InCall(steps, c))
          && (w.s.info[c].member <==> LastPromotion(steps, c).Some?)
          && (w.s.info[c].member ==> Some(w.s.info[c].promoted) == LastPromotion(steps, c)))
  }

  lemma StepFigures<C(!new)>(limits: Limits, w: World<C>, steps: seq<Step<C>>, step: Step<C>)
    requires Known(w.s) && limits.perSource > 0 && Figures(w, steps)
    ensures Figures(Next(limits, w, step), steps + [step])
  {
    hide Joined, Next, LastMove, InCall, LastPromotion, Elapsed, Promotions;
    var more := steps + [step];
    var w' := Next(limits, w, step);
    StepInfo(limits, w, step);
    forall c ensures FigureOf(w', more, c) {
      assert FigureOf(w, steps, c);
      JoinedMore(steps, step, c);
      FiguresMore(steps, step, c);
      if !Joined(steps, c) {
        NeverJoined(steps, c);
      }
    }
    if step.Promotes? {
      assert FigureOf(w, steps, step.c);
      FiguresMore(steps, step, step.c);
    } else {
      SameCounts(steps, step);
    }
  }

  lemma SameCounts<C>(steps: seq<Step<C>>, step: Step<C>)
    ensures Elapsed(steps + [step]) == Elapsed(steps) + match step case Ticks(elapsed) => elapsed case _ => 0
    ensures !step.Promotes? ==> Promotions(steps + [step]) == Promotions(steps)
  {
    var more := steps + [step];
    assert more[..|more| - 1] == steps && more[|more| - 1] == step;
    hide Joined;
  }

  lemma {:induction false} FiguresHold<C(!new)>(limits: Limits, w: World<C>, past: seq<Step<C>>, steps: seq<Step<C>>)
    requires Known(w.s) && limits.perSource > 0 && Figures(w, past)
    ensures Figures(After(limits, w, steps), past + steps)
    decreases |steps|
  {
    hide Figures, Next;
    if steps == [] {
      assert past + steps == past;
    } else {
      NextIsKnown(limits, w, steps[0]);
      StepFigures(limits, w, past, steps[0]);
      FiguresHold(limits, Next(limits, w, steps[0]), past + [steps[0]], steps[1..]);
      assert (past + [steps[0]]) + steps[1..] == past + steps;
    }
  }

  /** In every run the clock a connection gives way by is the time of its last move; it is busy
      while it is inside a call, a member once it was promoted, and its place among the members is
      that of its last promotion. */
  lemma ClocksAreLastMoves<C(!new)>(limits: Limits, steps: seq<Step<C>>, c: C)
    requires limits.perSource > 0
    ensures var w := After(limits, Begin<C>(), steps);
            && (c in w.s.info <==> Joined(steps, c))
            && (c in w.s.info ==>
                  && w.s.info[c].last == LastMove(steps, c) && (w.s.info[c].busy <==> InCall(steps, c))
                  && (w.s.info[c].member <==> LastPromotion(steps, c).Some?)
                  && (w.s.info[c].member ==> Some(w.s.info[c].promoted) == LastPromotion(steps, c)))
  {
    hide After, Joined;
    NothingYet<C>();
    FiguresHold(limits, Begin<C>(), [], steps);
    assert [] + steps == steps;
    assert FigureOf(After(limits, Begin<C>(), steps), steps, c);
  }

  lemma NothingYet<C(!new)>()
    ensures Figures(Begin<C>(), [])
  {
  }
}
