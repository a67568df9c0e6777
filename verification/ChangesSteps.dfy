/**
 When each handler of the change plan goes through, and what it leaves of the row it finds: said
 of the request, the caller, what was read and what is there.  Over whole runs every plan is what
 the writes in the log made of it, one after the other, and who made each of them was allowed to.
 */
module ChangesSteps {
  import opened Wrappers
  import opened Changes
  import opened ChangesRuns

  // ----- create and edit -----

  /** A time, or nothing. */
  function Given(f: Field): Option<int> {
    if f.At? then Some(f.time) else None
  }

  predicate Backwards(start: Option<int>, end: Option<int>) {
    start.Some? && end.Some? && end.value <= start.value
  }

  /** A plan is created exactly for a known cluster the caller reaches and may request changes on,
      with a title of up to 200 characters, a description of up to 4000, a scope within their
      reach, and ends that are times, in order where both are given.  It is a draft of what was
      asked for, by the caller, and nobody has decided on it. */
  lemma CreatedIff(fold: Fold, w: World, id: Id, caller: Caller, cluster: string, known: bool, body: Body)
    requires id !in w.plans
    ensures var w' := Next(fold, w, Create(id, caller, cluster, known, body));
            && (id in w'.plans <==>
                && cluster != "" && known && caller.reachesCluster && caller.mayRequest
                && body.title.Some? && 1 <= |body.title.value| <= 200
                && (body.description.Some? ==> |body.description.value| <= 4000)
                && body.scope.Some? && caller.reachesScope
                && !body.start.NotATime? && !body.end.NotATime? && !Backwards(Given(body.start), Given(body.end)))
            && (id in w'.plans ==>
                var p := w'.plans[id];
                && p.title == body.title.value && p.description == (if body.description.Some? then body.description.value else "")
                && p.scope == body.scope.value && p.window == Window(Given(body.start), Given(body.end))
                && p.cluster == cluster && p.requester == caller.name && p.status == Draft
                && p.approvedBy == None && p.rejectedBy == None)
            && (forall i :: i in w.plans ==> i in w'.plans && w'.plans[i] == w.plans[i])
            && w'.handlers == w.handlers
  {
  }

  /** An end of the window after an edit: the one the request names, or the one that was read. */
  function EndThen(f: Field, read: Option<int>): Option<int> {
    if f.Absent? then read else Given(f)
  }

  /** The requester, by name. */
  predicate IsTheirs(fold: Fold, p: Plan, caller: Caller) {
    p.requester != "" && fold(p.requester) == fold(caller.name)
  }

  /** An edit goes through exactly for the requester, who may see the plan and request changes,
      where the plan was a draft when it was read and still is one, and the request names something
      and each thing it names is one a creation takes.  It replaces what it names, and of the window
      also the end it does not name, by the one it read; the rest stays as it is now. */
  lemma EditedIff(fold: Fold, w: World, n: nat, caller: Caller, body: Body)
    requires n in w.handlers && w.handlers[n].id in w.plans
    ensures var (id, read, w') := (w.handlers[n].id, w.handlers[n].read, Next(fold, w, Write(n, caller, body)));
            var windowed := !body.start.Absent? || !body.end.Absent?;
            var window := Window(EndThen(body.start, read.window.start), EndThen(body.end, read.window.end));
            && (|w'.log| > |w.log| <==>
                && IsTheirs(fold, read, caller) && caller.mayRequest && caller.visible
                && read.status == Draft && w.plans[id].status == Draft
                && (body.title.Some? || body.description.Some? || body.scope.Some? || windowed)
                && (body.title.Some? ==> 1 <= |body.title.value| <= 200)
                && (body.description.Some? ==> |body.description.value| <= 4000)
                && (body.scope.Some? ==> caller.reachesScope)
                && (windowed ==> !body.start.NotATime? && !body.end.NotATime? && !Backwards(window.start, window.end)))
            && w'.handlers == w.handlers - {n}
            && (|w'.log| <= |w.log| ==> w'.plans == w.plans)
            && (|w'.log| > |w.log| ==>
                var row := w.plans[id];
                w'.plans == w.plans[id := row.(
                    title := if body.title.Some? then body.title.value else row.title,
                    description := if body.description.Some? then body.description.value else row.description,
                    scope := if body.scope.Some? then body.scope.value else row.scope,
                    window := if windowed then window else row.window)])
  {
  }

  // ----- the five actions -----

  /** The action of a handler goes through. */
  predicate GoesThrough(fold: Fold, w: World, n: nat, caller: Caller, action: Action, reason: string, now: real)
    requires n in w.handlers
  {
    |Next(fold, w, Act(n, caller, action, reason, now)).log| > |w.log|
  }

  /** A draft is submitted exactly by its requester, who may see it, request changes and still
      reach its scope; with a window that has both ends, is up to 30 days long and starts no
      earlier than five minutes ago; while it is a draft with that very window. */
  lemma SubmittedIff(fold: Fold, w: World, n: nat, caller: Caller, reason: string, now: real)
    requires n in w.handlers && w.handlers[n].id in w.plans
    ensures var (read, row) := (w.handlers[n].read, w.plans[w.handlers[n].id]);
            GoesThrough(fold, w, n, caller, Submit, reason, now) <==>
              && read.status == Draft && row.status == Draft && row.window == read.window
              && IsTheirs(fold, read, caller) && caller.visible && caller.mayRequest && caller.reachesScope
              && read.window.start.Some? && read.window.end.Some?
              && var (start, end) := (read.window.start.value, read.window.end.value);
                 start < end && end - start <= 30 * 24 * 60 * 60 && start as real >= now - 300.0
  {
  }

  /** Someone who may decide on the plan: with changes.approve, on a cluster they reach, and an
      administrator where the plan is not for guests of their own. */
  predicate Decides(read: Plan, caller: Caller) {
    caller.mayApprove && caller.reachesCluster && (caller.admin || (read.scope.kind == "guests" && caller.ownGuests))
  }

  /** A submitted plan is approved exactly by someone else who may decide on it and see it, before
      its window is over. */
  lemma ApprovedIff(fold: Fold, w: World, n: nat, caller: Caller, reason: string, now: real)
    requires n in w.handlers && w.handlers[n].id in w.plans
    ensures var (read, row) := (w.handlers[n].read, w.plans[w.handlers[n].id]);
            GoesThrough(fold, w, n, caller, Approve, reason, now) <==>
              && read.status == Submitted && row.status == Submitted
              && !IsTheirs(fold, read, caller) && caller.visible && Decides(read, caller)
              && (read.window.end.Some? ==> read.window.end.value as real >= now)
  {
  }

  /** And rejected exactly by such a one, with a reason of up to 500 characters. */
  lemma RejectedIff(fold: Fold, w: World, n: nat, caller: Caller, reason: string, now: real)
    requires n in w.handlers && w.handlers[n].id in w.plans
    ensures var (read, row) := (w.handlers[n].read, w.plans[w.handlers[n].id]);
            GoesThrough(fold, w, n, caller, Reject, reason, now) <==>
              && read.status == Submitted && row.status == Submitted
              && !IsTheirs(fold, read, caller) && caller.visible && Decides(read, caller)
              && 1 <= |reason| <= 500
  {
  }

  /** A plan is closed exactly by someone who may see it and is its requester with
      changes.request, or may decide on it: cancelled before anything is final, marked done once
      it is approved. */
  lemma ClosedIff(fold: Fold, w: World, n: nat, caller: Caller, action: Action, reason: string, now: real)
    requires n in w.handlers && w.handlers[n].id in w.plans && action in {Cancel, Finish}
    ensures var (read, row) := (w.handlers[n].read, w.plans[w.handlers[n].id]);
            GoesThrough(fold, w, n, caller, action, reason, now) <==>
              && row.status == read.status
              && (if action == Finish then read.status == Approved else read.status in {Draft, Submitted, Approved})
              && caller.visible && ((IsTheirs(fold, read, caller) && caller.mayRequest) || Decides(read, caller))
  {
  }

  /** The status an action leads to. */
  function Afterwards(action: Action): Status {
    match action
    case Submit => Submitted
    case Approve => Approved
    case Reject => Rejected
    case Cancel => Cancelled
    case Finish => Done
  }

  /** What an action that goes through leaves: the row as it is now, with its new status, and who
      decided.  One that does not leaves everything. */
  lemma ActionWrites(fold: Fold, w: World, n: nat, caller: Caller, action: Action, reason: string, now: real)
    requires n in w.handlers && w.handlers[n].id in w.plans
    ensures var (id, w') := (w.handlers[n].id, Next(fold, w, Act(n, caller, action, reason, now)));
            && w'.handlers == w.handlers - {n}
            && w'.plans == if GoesThrough(fold, w, n, caller, action, reason, now)
                           then w.plans[id := ActedOn(w.plans[id], action, caller.name)] else w.plans
  {
    var (row, read) := (w.plans[w.handlers[n].id], w.handlers[n].read);
    if Acted(fold, row, read, caller, action, reason, now).Some? {
      MoveWrites(fold, row, read, caller, action, reason, now);
    }
    hide Acted;
  }

  lemma MoveWrites(fold: Fold, row: Plan, read: Plan, caller: Caller, action: Action, reason: string, now: real)
    requires Acted(fold, row, read, caller, action, reason, now).Some?
    ensures Acted(fold, row, read, caller, action, reason, now).value == ActedOn(row, action, caller.name)
  {
  }

  function ActedOn(row: Plan, action: Action, name: string): Plan {
    row.(status := Afterwards(action),
         approvedBy := if action == Approve then Some(name) else row.approvedBy,
         rejectedBy := if action == Reject then Some(name) else row.rejectedBy)
  }

  // ----- whole runs -----

  /** The last write to the plan id before the j-th. */
  predicate LastWrite(log: seq<Event>, i: nat, j: nat, id: Id) {
    i < j <= |log| && log[i].id == id && forall m :: i < m < j ==> log[m].id != id
  }

  /** Whoever made this write was allowed to. */
  predicate Allowed(fold: Fold, e: Event) {
    match e.what
    case Creation => e.caller.mayRequest && e.caller.reachesCluster && e.caller.reachesScope && e.after.requester == e.caller.name
    case Edit(_) => e.caller.visible && e.caller.mayRequest && IsTheirs(fold, e.read, e.caller)
    case Move(Submit) => e.caller.visible && e.caller.mayRequest && e.caller.reachesScope && IsTheirs(fold, e.read, e.caller)
    case Move(Approve) => e.caller.visible && Decides(e.read, e.caller) && !IsTheirs(fold, e.read, e.caller)
    case Move(Reject) => e.caller.visible && Decides(e.read, e.caller) && !IsTheirs(fold, e.read, e.caller)
    case Move(_) => e.caller.visible && ((e.caller.mayRequest && IsTheirs(fold, e.read, e.caller)) || Decides(e.read, e.caller))
  }

  /** What the write made of the row it found. */
  predicate MadeOf(row: Plan, e: Event) {
    match e.what
    case Creation => false
    case Edit(scope) =>
      && row.status == Draft && e.read.status == Draft
      && e.after == row.(title := e.after.title, description := e.after.description, window := e.after.window,
                         scope := if scope.Some? then scope.value else row.scope)
    case Move(action) =>
      && e.read.status == row.status && (action == Submit ==> e.read.window == row.window)
      && e.after == ActedOn(row, action, e.caller.name)
  }

  predicate Linked(log: seq<Event>, j: nat)
    requires j < |log|
  {
    if log[j].what.Creation? then forall i :: 0 <= i < j ==> log[i].id != log[j].id
    else exists i :: 0 <= i < j && LastWrite(log, i, j, log[j].id) && MadeOf(log[i].after, log[j])
  }

  predicate Shown(w: World, id: Id)
    requires id in w.plans
  {
    exists i :: 0 <= i < |w.log| && LastWrite(w.log, i, |w.log|, id) && w.log[i].after == w.plans[id]
  }

  /** Each plan is what its last write left, each write was of what the one before it left, and
      each was allowed. */
  ghost predicate Told(fold: Fold, w: World) {
    && (forall id :: id in w.plans ==> Shown(w, id))
    && (forall j :: 0 <= j < |w.log| ==> w.log[j].id in w.plans && Allowed(fold, w.log[j]) && Linked(w.log, j))
  }

  lemma LastWriteStays(log: seq<Event>, e: Event, i: nat, j: nat, id: Id)
    requires j <= |log|
    ensures LastWrite(log + [e], i, j, id) <==> LastWrite(log, i, j, id)
    ensures LastWrite(log, i, |log|, id) && e.id != id ==> LastWrite(log + [e], i, |log| + 1, id)
    ensures LastWrite(log + [e], |log|, |log| + 1, e.id)
  {
    assert forall m :: 0 <= m < |log| ==> (log + [e])[m] == log[m];
  }

  lemma LinkStays(log: seq<Event>, e: Event, j: nat)
    requires j < |log| && Linked(log, j)
    ensures Linked(log + [e], j)
  {
    hide MadeOf, LastWrite;
    assert forall m :: 0 <= m < |log| ==> (log + [e])[m] == log[m];
    if !log[j].what.Creation? {
      var i :| 0 <= i < j && LastWrite(log, i, j, log[j].id) && MadeOf(log[i].after, log[j]);
      LastWriteStays(log, e, i, j, log[j].id);
    }
  }

  lemma ShownStays(w: World, e: Event, id: Id)
    requires id in w.plans && Shown(w, id)
    ensures e.id != id ==> exists i :: 0 <= i < |w.log| + 1 && LastWrite(w.log + [e], i, |w.log| + 1, id) && (w.log + [e])[i].after == w.plans[id]
  {
    hide LastWrite;
    var i :| 0 <= i < |w.log| && LastWrite(w.log, i, |w.log|, id) && w.log[i].after == w.plans[id];
    LastWriteStays(w.log, e, i, |w.log|, id);
    assert (w.log + [e])[i] == w.log[i];
  }

  /** The new write is linked to what is there. */
  lemma NewIsLinked(w: World, e: Event)
    requires if e.what.Creation? then e.id !in w.plans else e.id in w.plans && Shown(w, e.id) && MadeOf(w.plans[e.id], e)
    requires forall j :: 0 <= j < |w.log| ==> w.log[j].id in w.plans
    ensures Linked(w.log + [e], |w.log|)
  {
    hide MadeOf, LastWrite;
    var (log, n) := (w.log + [e], |w.log|);
    assert forall i :: 0 <= i < n ==> log[i] == w.log[i];
    if !e.what.Creation? {
      var i :| 0 <= i < n && LastWrite(w.log, i, n, e.id) && w.log[i].after == w.plans[e.id];
      LastWriteStays(w.log, e, i, n, e.id);
    }
  }

  lemma AllAreShown(w: World, e: Event, done: World)
    requires forall id :: id in w.plans ==> Shown(w, id)
    requires done.plans == w.plans[e.id := e.after] && done.log == w.log + [e]
    ensures forall id :: id in done.plans ==> Shown(done, id)
  {
    hide LastWrite;
    var n := |w.log|;
    LastWriteStays(w.log, e, n, n, e.id);
    assert (w.log + [e])[n] == e;
    forall i | i in done.plans ensures Shown(done, i) {
      if i != e.id {
        ShownStays(w, e, i);
      }
    }
  }

  lemma WriteIsTold(fold: Fold, w: World, id: Id, what: What, caller: Caller, read: Plan, after: Plan, now: real)
    requires Told(fold, w)
    requires var e := Event(id, what, caller, read, after, now);
             Allowed(fold, e) && if what.Creation? then id !in w.plans else id in w.plans && MadeOf(w.plans[id], e)
    ensures Told(fold, Wrote(w, id, what, caller, read, after, now))
  {
    hide Allowed, MadeOf, LastWrite, Linked, Shown;
    var e := Event(id, what, caller, read, after, now);
    var log := w.log + [e];
    NewIsLinked(w, e);
    AllAreShown(w, e, Wrote(w, id, what, caller, read, after, now));
    forall j | 0 <= j < |log| ensures log[j].id in w.plans.Keys + {id} && Allowed(fold, log[j]) && Linked(log, j) {
      if j < |w.log| {
        LinkStays(w.log, e, j);
      }
    }
  }

  lemma SamePlans(fold: Fold, w: World, w': World)
    requires Told(fold, w) && w'.plans == w.plans && w'.log == w.log
    ensures Told(fold, w')
  {
    hide Allowed, Linked;
    forall id | id in w'.plans ensures Shown(w', id) {
      assert Shown(w, id);
    }
  }

  lemma StepIsTold(fold: Fold, w: World, step: Step)
    requires Told(fold, w) && Possible(w, step)
    ensures Told(fold, Next(fold, w, step))
  {
    hide Told;
    var w' := Next(fold, w, step);
    if |w'.log| == |w.log| {
      SamePlans(fold, w, w');
    } else {
      match step {
        case Create(id, caller, cluster, known, body) =>
          var p := Created(caller, cluster, known, body).value;
          WriteIsTold(fold, w, id, Creation, caller, p, p, 0.0);
        case Write(n, caller, body) =>
          var h := w.handlers[n];
          var over := w.(handlers := w.handlers - {n});
          SamePlans(fold, w, over);
          var after := Edited(fold, w.plans[h.id], h.read, caller, body).value;
          WriteIsTold(fold, over, h.id, Edit(body.scope), caller, h.read, after, 0.0);
        case Act(n, caller, action, reason, now) =>
          var h := w.handlers[n];
          var over := w.(handlers := w.handlers - {n});
          SamePlans(fold, w, over);
          var after := Acted(fold, w.plans[h.id], h.read, caller, action, reason, now).value;
          WriteIsTold(fold, over, h.id, Move(action), caller, h.read, after, now);
        case _ =>
      }
    }
  }

  lemma {:induction false} RunIsTold(fold: Fold, w: World, steps: seq<Step>)
    requires Told(fold, w) && RunPossible(fold, w, steps)
    ensures Told(fold, After(fold, w, steps))
    decreases |steps|
  {
    hide Told, Possible, Next;
    if steps != [] {
      StepIsTold(fold, w, steps[0]);
      RunIsTold(fold, Next(fold, w, steps[0]), steps[1..]);
    }
  }

  /** In every run each write was by someone allowed to make it, and made of what the last write
      to its plan had left; each plan is what its last write left. */
  lemma EveryWriteWasAllowed(fold: Fold, steps: seq<Step>, j: nat, id: Id)
    requires RunPossible(fold, START, steps)
    ensures var w := After(fold, START, steps);
            && (j < |w.log| ==>
                && Allowed(fold, w.log[j])
                && (if w.log[j].what.Creation? then forall i :: 0 <= i < j ==> w.log[i].id != w.log[j].id
                    else exists i :: 0 <= i < j && LastWrite(w.log, i, j, w.log[j].id) && MadeOf(w.log[i].after, w.log[j])))
            && (id in w.plans ==> exists i :: 0 <= i < |w.log| && LastWrite(w.log, i, |w.log|, id) && w.log[i].after == w.plans[id])
  {
    hide After, RunPossible, Allowed, MadeOf, LastWrite;
    RunIsTold(fold, START, steps);
  }

  /** Every plan that was cancelled or marked done was so by someone who saw it, and was its
      requester with changes.request or someone who may decide on it. */
  lemma ClosedByEntitled(fold: Fold, steps: seq<Step>, j: nat)
    requires RunPossible(fold, START, steps) && j < |After(fold, START, steps).log|
    requires After(fold, START, steps).log[j].what in {Move(Cancel), Move(Finish)}
    ensures var e := After(fold, START, steps).log[j];
            && e.caller.visible
            && ((e.caller.mayRequest && e.read.requester != "" && fold(e.read.requester) == fold(e.caller.name))
                || (e.caller.mayApprove && e.caller.reachesCluster
                    && (e.caller.admin || (e.read.scope.kind == "guests" && e.caller.ownGuests))))
  {
    hide After, RunPossible;
    EveryWriteWasAllowed(fold, steps, j, "");
  }
}
