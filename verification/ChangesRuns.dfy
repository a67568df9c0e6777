/**
 Whole runs of the change plan: any number of handlers between the read of their plan and
 their write, in any order.
 */
module ChangesRuns {
  import opened Wrappers
  import opened Changes

  type Id = string

  /** scope: the one the edit names. */
  datatype What = Creation | Edit(scope: Option<Scope>) | Move(action: Action)

  /** A write that went through: by whom, with the plan read and the plan written. */
  datatype Event = Event(id: Id, what: What, caller: Caller, read: Plan, after: Plan, now: real)

  /** A handler that has read its plan. */
  datatype Handler = Handler(id: Id, read: Plan)

  datatype World = World(plans: map<Id, Plan>, handlers: map<nat, Handler>, log: seq<Event>)

  datatype Step =
    | Create(id: Id, caller: Caller, cluster: string, known: bool, body: Body)
    | Load(n: nat, id: Id)
    | Write(n: nat, caller: Caller, body: Body)
    | Act(n: nat, caller: Caller, action: Action, reason: string, now: real)

  /** New plans and handlers have ids of their own. */
  predicate Possible(w: World, step: Step) {
    match step
    case Create(id, _, _, _, _) => id !in w.plans
    case Load(n, id) => n !in w.handlers && id in w.plans
    case Write(n, _, _) => n in w.handlers
    case Act(n, _, _, _, _) => n in w.handlers
  }

  function Wrote(w: World, id: Id, what: What, caller: Caller, read: Plan, after: Plan, now: real): World {
    w.(plans := w.plans[id := after], log := w.log + [Event(id, what, caller, read, after, now)])
  }

  function Row(w: World, id: Id): Option<Plan> {
    if id in w.plans then Some(w.plans[id]) else None
  }

  function Next(fold: Fold, w: World, step: Step): World
    requires Possible(w, step)
  {
    match step
    case Create(id, caller, cluster, known, body) =>
      var p := Created(caller, cluster, known, body);
      if p.None? then w else Wrote(w, id, Creation, caller, p.value, p.value, 0.0)
    case Load(n, id) => w.(handlers := w.handlers[n := Handler(id, w.plans[id])])
    case Write(n, caller, body) =>
      var h := w.handlers[n];
      var over := w.(handlers := w.handlers - {n});
      var p := if h.id in w.plans then Edited(fold, w.plans[h.id], h.read, caller, body) else None;
      if p.None? then over else Wrote(over, h.id, Edit(body.scope), caller, h.read, p.value, 0.0)
    case Act(n, caller, action, reason, now) =>
      var h := w.handlers[n];
      var over := w.(handlers := w.handlers - {n});
      var p := if h.id in w.plans then Acted(fold, w.plans[h.id], h.read, caller, action, reason, now) else None;
      if p.None? then over else Wrote(over, h.id, Move(action), caller, h.read, p.value, now)
  }

  const START: World := World(map[], map[], [])

  predicate RunPossible(fold: Fold, w: World, steps: seq<Step>)
    decreases |steps|
  {
    steps != [] ==> Possible(w, steps[0]) && RunPossible(fold, Next(fold, w, steps[0]), steps[1..])
  }

  function After(fold: Fold, w: World, steps: seq<Step>): World
    requires RunPossible(fold, w, steps)
    decreases |steps|
  {
    if steps == [] then w else After(fold, Next(fold, w, steps[0]), steps[1..])
  }

  // ----- the invariant -----

  /** later is what became of a plan that was earlier. */
  predicate Became(earlier: Plan, later: Plan) {
    && later.requester == earlier.requester && later.cluster == earlier.cluster
    && (earlier.status != Draft ==> later.status != Draft && ContentOf(later) == ContentOf(earlier))
    && (earlier.status in {Rejected, Cancelled, Done} ==> later == earlier)
    && (earlier.status == Approved ==> later.status in {Approved, Cancelled, Done})
    && (earlier.approvedBy.Some? ==> later.approvedBy == earlier.approvedBy)
    && (earlier.rejectedBy.Some? ==> later.rejectedBy == earlier.rejectedBy)
  }

  /** A plan on its own. */
  predicate PlanOk(fold: Fold, p: Plan) {
    && Ordered(p.window)
    && (p.status in {Submitted, Approved, Rejected, Done} ==> p.window.start.Some? && p.window.end.Some?)
    && (p.status in {Approved, Done} ==> p.approvedBy.Some?)
    && (p.approvedBy.Some? ==> p.status in {Approved, Done, Cancelled} && !SamePerson(fold, p.requester, p.approvedBy.value))
    && (p.rejectedBy.Some? <==> p.status == Rejected)
    && (p.rejectedBy.Some? ==> !SamePerson(fold, p.requester, p.rejectedBy.value))
  }

  /** A write on its own. */
  predicate EventOk(fold: Fold, e: Event) {
    && Became(e.read, e.after)
    && match e.what
       case Creation => e.after.status == Draft && e.caller.name == e.after.requester && e.caller.reachesScope
       case Edit(_) => e.after.status == Draft && Owns(fold, e.read, e.caller)
       case Move(action) =>
         && Transition(e.read.status, action) == Some(e.after.status)
         && (action == Submit ==> Owns(fold, e.read, e.caller) && e.caller.reachesScope
                                  && e.after.window == e.read.window && WindowFine(e.after.window, e.now))
         && (action == Approve ==> e.after.approvedBy == Some(e.caller.name) && ContentOf(e.after) == ContentOf(e.read)
                                   && Reviews(fold, e.read, e.caller) && !WindowOver(e.read.window, e.now))
         && (action == Reject ==> e.after.rejectedBy == Some(e.caller.name) && ContentOf(e.after) == ContentOf(e.read)
                                  && Reviews(fold, e.read, e.caller))
  }

  predicate IsMove(e: Event, id: Id, action: Action) {
    e.id == id && e.what == Move(action)
  }

  predicate Happened(log: seq<Event>, id: Id, action: Action) {
    exists j :: 0 <= j < |log| && IsMove(log[j], id, action)
  }

  /** A plan is what it is because of writes in the log. */
  predicate HasHistory(log: seq<Event>, id: Id, p: Plan) {
    && (p.status in {Submitted, Approved, Rejected, Done} ==> Happened(log, id, Submit))
    && (p.approvedBy.Some? ==> Happened(log, id, Approve))
    && (p.rejectedBy.Some? ==> Happened(log, id, Reject))
  }

  predicate PlansOk(fold: Fold, w: World) {
    forall id :: id in w.plans ==> PlanOk(fold, w.plans[id]) && HasHistory(w.log, id, w.plans[id])
  }

  predicate HandlersOk(w: World) {
    forall n :: n in w.handlers ==> w.handlers[n].id in w.plans && Became(w.handlers[n].read, w.plans[w.handlers[n].id])
  }

  predicate LogOk(fold: Fold, w: World) {
    forall j :: 0 <= j < |w.log| ==>
      w.log[j].id in w.plans && EventOk(fold, w.log[j]) && Became(w.log[j].after, w.plans[w.log[j].id])
  }

  /** An action goes through once in the life of a plan. */
  predicate EachOnce(log: seq<Event>) {
    forall i, j :: 0 <= i < j < |log| && log[i].id == log[j].id && log[i].what.Move? ==> log[i].what != log[j].what
  }

  ghost predicate Inv(fold: Fold, w: World) {
    PlansOk(fold, w) && HandlersOk(w) && LogOk(fold, w) && EachOnce(w.log)
  }

  // ----- one write -----

  lemma BecameTwice(a: Plan, b: Plan, c: Plan)
    requires Became(a, b) && Became(b, c)
    ensures Became(a, c)
  {
  }

  lemma EditedOk(fold: Fold, row: Plan, read: Plan, caller: Caller, body: Body)
    requires PlanOk(fold, row) && Became(read, row) && Edited(fold, row, read, caller, body).Some?
    ensures var after := Edited(fold, row, read, caller, body).value;
            PlanOk(fold, after) && Became(row, after) && EventOk(fold, Event("", Edit(body.scope), caller, read, after, 0.0))
  {
  }

  lemma ActedOk(fold: Fold, row: Plan, read: Plan, caller: Caller, action: Action, reason: string, now: real)
    requires PlanOk(fold, row) && Became(read, row) && Acted(fold, row, read, caller, action, reason, now).Some?
    ensures var after := Acted(fold, row, read, caller, action, reason, now).value;
            && PlanOk(fold, after) && Became(row, after) && EventOk(fold, Event("", Move(action), caller, read, after, now))
            && (after.approvedBy != row.approvedBy ==> action == Approve)
            && (after.rejectedBy != row.rejectedBy ==> action == Reject)
            && (row.status == Draft ==> action in {Submit, Cancel})
            && Transition(row.status, action) == Some(after.status)
  {
    hide WindowOver;
  }

  lemma HappenedStays(log: seq<Event>, e: Event, id: Id, action: Action)
    ensures Happened(log + [e], id, action) <==> Happened(log, id, action) || IsMove(e, id, action)
  {
    var more := log + [e];
    assert more[|log|] == e;
    if Happened(log, id, action) {
      var j :| 0 <= j < |log| && IsMove(log[j], id, action);
      assert more[j] == log[j];
    }
  }

  lemma HistoryStays(log: seq<Event>, e: Event, id: Id, p: Plan)
    requires HasHistory(log, id, p)
    ensures HasHistory(log + [e], id, p)
  {
    hide Happened;
    HappenedStays(log, e, id, Submit);
    HappenedStays(log, e, id, Approve);
    HappenedStays(log, e, id, Reject);
  }

  /** A write that makes of the row something it may become keeps the rest. */
  lemma WriteKeeps(fold: Fold, w: World, id: Id, what: What, caller: Caller, read: Plan, after: Plan, now: real)
    requires Inv(fold, w) && id in w.plans
    requires PlanOk(fold, after) && Became(w.plans[id], after) && EventOk(fold, Event(id, what, caller, read, after, now))
    requires HasHistory(w.log + [Event(id, what, caller, read, after, now)], id, after)
    requires forall j :: 0 <= j < |w.log| && w.log[j].id == id && w.log[j].what.Move? ==> w.log[j].what != what
    ensures Inv(fold, Wrote(w, id, what, caller, read, after, now))
  {
    hide PlanOk, Became, HasHistory, EventOk;
    var e := Event(id, what, caller, read, after, now);
    var done := Wrote(w, id, what, caller, read, after, now);
    forall i | i in done.plans ensures PlanOk(fold, done.plans[i]) && HasHistory(done.log, i, done.plans[i]) {
      if i != id {
        HistoryStays(w.log, e, i, w.plans[i]);
      }
    }
    forall n | n in done.handlers ensures Became(done.handlers[n].read, done.plans[done.handlers[n].id]) {
      if done.handlers[n].id == id {
        BecameTwice(done.handlers[n].read, w.plans[id], after);
      }
    }
    SelfBecomes(after);
    forall j | 0 <= j < |done.log| ensures Became(done.log[j].after, done.plans[done.log[j].id]) {
      if j < |w.log| && done.log[j].id == id {
        BecameTwice(done.log[j].after, w.plans[id], after);
      }
    }
  }

  lemma SelfBecomes(p: Plan)
    ensures Became(p, p)
  {
  }

  lemma CreationKeeps(fold: Fold, w: World, id: Id, caller: Caller, p: Plan)
    requires Inv(fold, w) && id !in w.plans
    requires PlanOk(fold, p) && p.status == Draft && p.approvedBy == None && p.requester == caller.name && caller.reachesScope
    ensures Inv(fold, Wrote(w, id, Creation, caller, p, p, 0.0))
  {
    hide PlanOk, Became, HasHistory, EventOk;
    var e := Event(id, Creation, caller, p, p, 0.0);
    var done := Wrote(w, id, Creation, caller, p, p, 0.0);
    SelfBecomes(p);
    assert EventOk(fold, e) by { CreationIsOk(fold, e); }
    DraftHasHistory(fold, done.log, id, p);
    forall i | i in done.plans ensures PlanOk(fold, done.plans[i]) && HasHistory(done.log, i, done.plans[i]) {
      if i != id {
        HistoryStays(w.log, e, i, w.plans[i]);
      }
    }
  }

  lemma CreationIsOk(fold: Fold, e: Event)
    requires e.what == Creation && e.read == e.after && e.after.status == Draft
    requires e.caller.name == e.after.requester && e.caller.reachesScope
    ensures EventOk(fold, e)
  {
  }

  lemma DraftHasHistory(fold: Fold, log: seq<Event>, id: Id, p: Plan)
    requires PlanOk(fold, p) && p.status == Draft
    ensures HasHistory(log, id, p)
  {
  }

  /** An action whose plan has been through it has nothing to act on. */
  lemma NotTwice(fold: Fold, e: Event, row: Plan, action: Action)
    requires EventOk(fold, e) && e.what == Move(action) && Became(e.after, row)
    ensures Transition(row.status, action) == None
  {
  }

  lemma ActKeeps(fold: Fold, w: World, h: Handler, caller: Caller, action: Action, reason: string, now: real)
    requires Inv(fold, w) && h.id in w.plans && Became(h.read, w.plans[h.id])
    requires Acted(fold, w.plans[h.id], h.read, caller, action, reason, now).Some?
    ensures Inv(fold, Wrote(w, h.id, Move(action), caller, h.read, Acted(fold, w.plans[h.id], h.read, caller, action, reason, now).value, now))
  {
    hide Inv, Judged, Acted, Became;
    var row := w.plans[h.id];
    var after := Acted(fold, row, h.read, caller, action, reason, now).value;
    var e := Event(h.id, Move(action), caller, h.read, after, now);
    assert PlansOk(fold, w) && LogOk(fold, w) by { InvParts(fold, w); }
    ActedOk(fold, row, h.read, caller, action, reason, now);
    ActHistory(fold, w.log, e, row);
    forall j | 0 <= j < |w.log| && w.log[j].id == h.id && w.log[j].what.Move? ensures w.log[j].what != Move(action) {
      if w.log[j].what == Move(action) {
        NotTwice(fold, w.log[j], row, action);
      }
    }
    hide PlanOk, EventOk, HasHistory, PlansOk, LogOk;
    WriteKeeps(fold, w, h.id, Move(action), caller, h.read, after, now);
  }

  lemma InvParts(fold: Fold, w: World)
    requires Inv(fold, w)
    ensures PlansOk(fold, w) && LogOk(fold, w) && HandlersOk(w) && EachOnce(w.log)
  {
  }

  lemma ActHistory(fold: Fold, log: seq<Event>, e: Event, row: Plan)
    requires HasHistory(log, e.id, row) && PlanOk(fold, row) && e.what.Move?
    requires Transition(row.status, e.what.action) == Some(e.after.status)
    requires e.after.approvedBy != row.approvedBy ==> e.what.action == Approve
    requires e.after.rejectedBy != row.rejectedBy ==> e.what.action == Reject
    ensures HasHistory(log + [e], e.id, e.after)
  {
    hide Happened;
    HappenedStays(log, e, e.id, Submit);
    HappenedStays(log, e, e.id, Approve);
    HappenedStays(log, e, e.id, Reject);
  }

  lemma EditKeeps(fold: Fold, w: World, h: Handler, caller: Caller, body: Body)
    requires Inv(fold, w) && h.id in w.plans && Became(h.read, w.plans[h.id])
    requires Edited(fold, w.plans[h.id], h.read, caller, body).Some?
    ensures Inv(fold, Wrote(w, h.id, Edit(body.scope), caller, h.read, Edited(fold, w.plans[h.id], h.read, caller, body).value, 0.0))
  {
    hide Inv, Edited, Became, EventOk;
    var row := w.plans[h.id];
    var after := Edited(fold, row, h.read, caller, body).value;
    assert PlansOk(fold, w) by { InvParts(fold, w); }
    EditedOk(fold, row, h.read, caller, body);
    EventIgnoresId(fold, Event("", Edit(body.scope), caller, h.read, after, 0.0), h.id);
    EditedIsDraft(fold, row, h.read, caller, body);
    DraftHasHistory(fold, w.log + [Event(h.id, Edit(body.scope), caller, h.read, after, 0.0)], h.id, after);
    WriteKeeps(fold, w, h.id, Edit(body.scope), caller, h.read, after, 0.0);
  }

  lemma EventIgnoresId(fold: Fold, e: Event, id: Id)
    requires EventOk(fold, e)
    ensures EventOk(fold, e.(id := id))
  {
  }

  lemma EditedIsDraft(fold: Fold, row: Plan, read: Plan, caller: Caller, body: Body)
    requires Edited(fold, row, read, caller, body).Some?
    ensures Edited(fold, row, read, caller, body).value.status == Draft
  {
  }

  lemma FewerHandlers(fold: Fold, w: World, n: nat)
    requires Inv(fold, w)
    ensures Inv(fold, w.(handlers := w.handlers - {n}))
  {
    hide PlanOk, HasHistory, Became, EventOk;
  }

  lemma StepKeeps(fold: Fold, w: World, step: Step)
    requires Inv(fold, w) && Possible(w, step)
    ensures Inv(fold, Next(fold, w, step))
  {
    hide Inv, Created, Edited, Acted;
    match step {
      case Create(id, caller, cluster, known, body) =>
        var p := Created(caller, cluster, known, body);
        CreatedIs(fold, caller, cluster, known, body);
        if p.Some? {
          CreationKeeps(fold, w, id, caller, p.value);
        }
      case Load(n, id) => LoadKeeps(fold, w, n, id);
      case Write(n, caller, body) =>
        FewerHandlers(fold, w, n);
        InvParts(fold, w);
        var h := w.handlers[n];
        if Edited(fold, w.plans[h.id], h.read, caller, body).Some? {
          EditKeeps(fold, w.(handlers := w.handlers - {n}), h, caller, body);
        }
      case Act(n, caller, action, reason, now) =>
        FewerHandlers(fold, w, n);
        InvParts(fold, w);
        var h := w.handlers[n];
        if Acted(fold, w.plans[h.id], h.read, caller, action, reason, now).Some? {
          ActKeeps(fold, w.(handlers := w.handlers - {n}), h, caller, action, reason, now);
        }
    }
  }

  lemma CreatedIs(fold: Fold, caller: Caller, cluster: string, known: bool, body: Body)
    ensures var p := Created(caller, cluster, known, body);
            p.Some? ==> PlanOk(fold, p.value) && p.value.status == Draft && p.value.approvedBy == None
                        && p.value.requester == caller.name && caller.reachesScope
  {
  }

  lemma LoadKeeps(fold: Fold, w: World, n: nat, id: Id)
    requires Inv(fold, w) && n !in w.handlers && id in w.plans
    ensures Inv(fold, w.(handlers := w.handlers[n := Handler(id, w.plans[id])]))
  {
    hide PlanOk, HasHistory, EventOk, Became;
    SelfBecomes(w.plans[id]);
  }

  lemma {:induction false} InvHolds(fold: Fold, w: World, steps: seq<Step>)
    requires Inv(fold, w) && RunPossible(fold, w, steps)
    ensures Inv(fold, After(fold, w, steps))
    decreases |steps|
  {
    hide Inv, Possible, Next;
    if steps != [] {
      StepKeeps(fold, w, steps[0]);
      InvHolds(fold, Next(fold, w, steps[0]), steps[1..]);
    }
  }

  lemma StartHolds(fold: Fold)
    ensures Inv(fold, START)
  {
  }

  // ----- what holds of every run -----

  /** A stored window with both ends ends after it starts. */
  lemma WindowsAreOrdered(fold: Fold, steps: seq<Step>, id: Id)
    requires RunPossible(fold, START, steps) && id in After(fold, START, steps).plans
    ensures Ordered(After(fold, START, steps).plans[id].window)
  {
    hide HasHistory, LogOk, After, RunPossible;
    StartHolds(fold);
    InvHolds(fold, START, steps);
    InvParts(fold, After(fold, START, steps));
  }

  /** Title, description, scope and window are frozen from the submit on, and the window is the
      one that submit checked. */
  lemma FrozenFromSubmit(fold: Fold, steps: seq<Step>, j: nat)
    requires RunPossible(fold, START, steps)
    requires j < |After(fold, START, steps).log| && After(fold, START, steps).log[j].what == Move(Submit)
    ensures var w := After(fold, START, steps);
            var e := w.log[j];
            && e.id in w.plans && ContentOf(w.plans[e.id]) == ContentOf(e.after)
            && w.plans[e.id].window == e.read.window && WindowFine(e.read.window, e.now)
            && w.plans[e.id].status != Draft
  {
    hide PlansOk, HandlersOk, EachOnce, After, RunPossible;
    StartHolds(fold);
    InvHolds(fold, START, steps);
    InvParts(fold, After(fold, START, steps));
  }

  /** What an approved plan asks for is what its approver read; the approver is not its
      requester, and an approver who is no administrator approved a plan for guests of their own. */
  lemma ApprovedAsRead(fold: Fold, steps: seq<Step>, id: Id)
    requires RunPossible(fold, START, steps)
    requires id in After(fold, START, steps).plans && After(fold, START, steps).plans[id].status == Approved
    ensures var w := After(fold, START, steps);
            var p := w.plans[id];
            p.approvedBy.Some?
            && (p.requester != "" ==> fold(p.approvedBy.value) != fold(p.requester))
            && exists j :: 0 <= j < |w.log| && IsMove(w.log[j], id, Approve)
                           && w.log[j].caller.name == p.approvedBy.value
                           && ContentOf(w.log[j].read) == ContentOf(p) && w.log[j].read.status == Submitted
                           && (w.log[j].caller.admin || (p.scope.kind == "guests" && w.log[j].caller.ownGuests))
  {
    hide HandlersOk, EachOnce, After, RunPossible, WindowOver, Judged;
    StartHolds(fold);
    InvHolds(fold, START, steps);
    var w := After(fold, START, steps);
    InvParts(fold, w);
    var p := w.plans[id];
    assert Happened(w.log, id, Approve);
    var j :| 0 <= j < |w.log| && IsMove(w.log[j], id, Approve);
    assert EventOk(fold, w.log[j]) && Became(w.log[j].after, p);
  }

  /** Every plan that is submitted, decided on or done went through a submit that checked its
      window. */
  lemma NothingUnsubmitted(fold: Fold, steps: seq<Step>, id: Id)
    requires RunPossible(fold, START, steps)
    requires id in After(fold, START, steps).plans
    requires After(fold, START, steps).plans[id].status in {Submitted, Approved, Rejected, Done}
    ensures var w := After(fold, START, steps);
            exists j :: 0 <= j < |w.log| && IsMove(w.log[j], id, Submit)
                        && WindowFine(w.plans[id].window, w.log[j].now) && Owns(fold, w.log[j].read, w.log[j].caller)
  {
    hide HandlersOk, EachOnce, After, RunPossible, WindowFine, Judged, PlanOk;
    StartHolds(fold);
    InvHolds(fold, START, steps);
    var w := After(fold, START, steps);
    InvParts(fold, w);
    assert HasHistory(w.log, id, w.plans[id]);
    var j :| 0 <= j < |w.log| && IsMove(w.log[j], id, Submit);
    assert EventOk(fold, w.log[j]) && Became(w.log[j].after, w.plans[id]);
  }

  /** No plan is both approved and rejected, and each decision is taken once, whoever races. */
  lemma DecidedOnce(fold: Fold, steps: seq<Step>, i: nat, j: nat)
    requires RunPossible(fold, START, steps)
    requires i < j < |After(fold, START, steps).log|
    ensures var log := After(fold, START, steps).log;
            log[i].id == log[j].id && log[i].what.Move? && log[i].what.action in {Approve, Reject} ==>
              log[j].what !in {Move(Approve), Move(Reject)}
  {
    hide HandlersOk, After, RunPossible, Judged, HasHistory;
    StartHolds(fold);
    InvHolds(fold, START, steps);
    var w := After(fold, START, steps);
    InvParts(fold, w);
    assert EventOk(fold, w.log[i]) && EventOk(fold, w.log[j]);
  }

  // ----- two edits in flight -----

  /** Two handlers read the plan, and the edits of both go through. */
  function BothEdits(id: Id, m: nat, n: nat, first: Caller, b1: Body, second: Caller, b2: Body): seq<Step> {
    [Load(m, id), Load(n, id), Write(m, first, b1), Write(n, second, b2)]
  }

  lemma FirstStep(fold: Fold, w: World, step: Step, rest: seq<Step>)
    requires Possible(w, step) && RunPossible(fold, Next(fold, w, step), rest)
    ensures RunPossible(fold, w, [step] + rest)
    ensures After(fold, w, [step] + rest) == After(fold, Next(fold, w, step), rest)
  {
    hide Possible, Next;
    assert ([step] + rest)[1..] == rest;
  }

  lemma NoStep(fold: Fold, w: World)
    ensures RunPossible(fold, w, []) && After(fold, w, []) == w
  {
  }

  /** Of two edits in flight that each name one end of the window the second restores the end it
      read: what the first wrote there is gone, and the plan goes back to the end it had. */
  lemma SecondEditRestores(fold: Fold, w: World, id: Id, m: nat, n: nat, first: Caller, b1: Body, second: Caller, b2: Body)
    requires id in w.plans && m !in w.handlers && n !in w.handlers && m != n
    requires Edited(fold, w.plans[id], w.plans[id], first, b1).Some? && Edited(fold, w.plans[id], w.plans[id], second, b2).Some?
    requires b1.start.Absent? != b1.end.Absent? && b2.start.Absent? != b2.end.Absent?
    ensures var steps := BothEdits(id, m, n, first, b1, second, b2);
            RunPossible(fold, w, steps)
            && var was, after := w.plans[id].window, After(fold, w, steps);
               && |after.log| == |w.log| + 2 && id in after.plans
               && after.plans[id].window == (if b2.end.Absent? then Window(EndOf(b2.start, was.start), was.end)
                                             else Window(was.start, EndOf(b2.end, was.end)))
  {
    var p := w.plans[id];
    var w1 := Next(fold, w, Load(m, id));
    var w2 := Next(fold, w1, Load(n, id));
    var w3 := Next(fold, w2, Write(m, first, b1));
    assert w2.handlers[m] == Handler(id, p) && w2.handlers[n] == Handler(id, p);
    assert w3.handlers[n] == Handler(id, p);
    var w4 := Next(fold, w3, Write(n, second, b2));
    hide Possible, Next;
    NoStep(fold, w4);
    FirstStep(fold, w3, Write(n, second, b2), []);
    FirstStep(fold, w2, Write(m, first, b1), [Write(n, second, b2)] + []);
    FirstStep(fold, w1, Load(n, id), [Write(m, first, b1)] + ([Write(n, second, b2)] + []));
    FirstStep(fold, w, Load(m, id), [Load(n, id)] + ([Write(m, first, b1)] + ([Write(n, second, b2)] + [])));
    assert [Load(m, id)] + ([Load(n, id)] + ([Write(m, first, b1)] + ([Write(n, second, b2)] + [])))
        == BothEdits(id, m, n, first, b1, second, b2);
  }

  // ----- the scope -----

  /** The event gives the plan this scope, and its caller could reach it. */
  predicate Grants(e: Event, id: Id, scope: Scope) {
    && e.id == id && e.caller.reachesScope
    && ((e.what.Creation? && e.after.scope == scope) || e.what == Edit(Some(scope)))
  }

  /** The caller is the requester: by name, or as the same person. */
  predicate ByRequester(fold: Fold, e: Event, p: Plan) {
    e.caller.name == p.requester || SamePerson(fold, p.requester, e.caller.name)
  }

  predicate Granted(fold: Fold, log: seq<Event>, id: Id, p: Plan) {
    exists j :: 0 <= j < |log| && Grants(log[j], id, p.scope) && ByRequester(fold, log[j], p)
  }

  predicate ScopesOk(fold: Fold, w: World) {
    forall id :: id in w.plans ==> Granted(fold, w.log, id, w.plans[id])
  }

  lemma GrantedStays(fold: Fold, log: seq<Event>, e: Event, id: Id, p: Plan)
    ensures Granted(fold, log, id, p) || (Grants(e, id, p.scope) && ByRequester(fold, e, p)) ==> Granted(fold, log + [e], id, p)
  {
    var more := log + [e];
    assert more[|log|] == e;
    if Granted(fold, log, id, p) {
      var j :| 0 <= j < |log| && Grants(log[j], id, p.scope) && ByRequester(fold, log[j], p);
      assert more[j] == log[j];
    }
  }

  lemma WroteKeepsScopes(fold: Fold, w: World, id: Id, what: What, caller: Caller, read: Plan, after: Plan, now: real)
    requires ScopesOk(fold, w)
    requires var e := Event(id, what, caller, read, after, now);
             (Grants(e, id, after.scope) && ByRequester(fold, e, after))
             || (id in w.plans && w.plans[id].scope == after.scope && w.plans[id].requester == after.requester)
    ensures ScopesOk(fold, Wrote(w, id, what, caller, read, after, now))
  {
    hide Granted, Grants;
    var e := Event(id, what, caller, read, after, now);
    forall i | i in w.plans || i == id ensures Granted(fold, w.log + [e], i, if i == id then after else w.plans[i]) {
      GrantedStays(fold, w.log, e, i, if i == id then after else w.plans[i]);
      if i == id && i in w.plans && w.plans[id].scope == after.scope && w.plans[id].requester == after.requester {
        GrantedAlike(fold, w.log, id, w.plans[id], after);
      }
    }
  }

  lemma GrantedAlike(fold: Fold, log: seq<Event>, id: Id, p: Plan, q: Plan)
    requires p.scope == q.scope && p.requester == q.requester
    ensures Granted(fold, log, id, p) <==> Granted(fold, log, id, q)
  {
  }

  lemma StepKeepsScopes(fold: Fold, w: World, step: Step)
    requires Inv(fold, w) && ScopesOk(fold, w) && Possible(w, step)
    ensures ScopesOk(fold, Next(fold, w, step))
  {
    hide Inv, ScopesOk;
    InvParts(fold, w);
    match step {
      case Create(id, caller, cluster, known, body) =>
        var p := Created(caller, cluster, known, body);
        if p.Some? {
          WroteKeepsScopes(fold, w, id, Creation, caller, p.value, p.value, 0.0);
        }
      case Load(n, id) => SameScopes(fold, w, Next(fold, w, step));
      case Write(n, caller, body) =>
        var h := w.handlers[n];
        var over := w.(handlers := w.handlers - {n});
        SameScopes(fold, w, over);
        var p := Edited(fold, w.plans[h.id], h.read, caller, body);
        if p.Some? {
          EditGrants(fold, w.plans[h.id], h.read, caller, body, h.id);
          WroteKeepsScopes(fold, over, h.id, Edit(body.scope), caller, h.read, p.value, 0.0);
        }
      case Act(n, caller, action, reason, now) =>
        var h := w.handlers[n];
        var over := w.(handlers := w.handlers - {n});
        SameScopes(fold, w, over);
        var p := Acted(fold, w.plans[h.id], h.read, caller, action, reason, now);
        if p.Some? {
          ActKeepsScope(fold, w.plans[h.id], h.read, caller, action, reason, now);
          WroteKeepsScopes(fold, over, h.id, Move(action), caller, h.read, p.value, now);
        }
    }
  }

  lemma SameScopes(fold: Fold, w: World, w': World)
    requires w'.plans == w.plans && w'.log == w.log
    ensures ScopesOk(fold, w) <==> ScopesOk(fold, w')
  {
  }

  lemma EditGrants(fold: Fold, row: Plan, read: Plan, caller: Caller, body: Body, id: Id)
    requires Edited(fold, row, read, caller, body).Some? && read.requester == row.requester
    ensures var after := Edited(fold, row, read, caller, body).value;
            var e := Event(id, Edit(body.scope), caller, read, after, 0.0);
            && after.requester == row.requester
            && (body.scope.Some? ==> Grants(e, id, after.scope) && ByRequester(fold, e, after))
            && (body.scope.None? ==> after.scope == row.scope)
  {
  }

  lemma ActKeepsScope(fold: Fold, row: Plan, read: Plan, caller: Caller, action: Action, reason: string, now: real)
    requires Acted(fold, row, read, caller, action, reason, now).Some?
    ensures var after := Acted(fold, row, read, caller, action, reason, now).value;
            after.scope == row.scope && after.requester == row.requester
  {
    hide Judged;
  }

  lemma {:induction false} ScopesHold(fold: Fold, w: World, steps: seq<Step>)
    requires Inv(fold, w) && ScopesOk(fold, w) && RunPossible(fold, w, steps)
    ensures ScopesOk(fold, After(fold, w, steps))
    decreases |steps|
  {
    hide Inv, Possible, Next, ScopesOk;
    if steps != [] {
      StepKeeps(fold, w, steps[0]);
      StepKeepsScopes(fold, w, steps[0]);
      ScopesHold(fold, Next(fold, w, steps[0]), steps[1..]);
    }
  }

  /** The scope of every plan, submitted or not, was given to it by its requester in an event
      whose caller could reach that scope then: the creation, or an edit that names it. */
  lemma ScopeWasReached(fold: Fold, steps: seq<Step>, id: Id)
    requires RunPossible(fold, START, steps) && id in After(fold, START, steps).plans
    ensures var w := After(fold, START, steps);
            exists j :: 0 <= j < |w.log| && Grants(w.log[j], id, w.plans[id].scope) && ByRequester(fold, w.log[j], w.plans[id])
  {
    hide Grants, ByRequester, After, RunPossible;
    StartHolds(fold);
    ScopesHold(fold, START, steps);
  }

  /** What a submit itself judged may be another scope: one that an edit replaced between its read
      and its move. */
  lemma SubmitMissesTheScope(fold: Fold, w: World, id: Id, m: nat, n: nat, editor: Caller, body: Body,
                             requester: Caller, reason: string, now: real)
    requires id in w.plans && m !in w.handlers && n !in w.handlers && m != n
    requires body.scope.Some? && body.start.Absent? && body.end.Absent?
    requires Edited(fold, w.plans[id], w.plans[id], editor, body).Some?
    requires Judged(fold, w.plans[id], requester, Submit, reason, now)
    ensures var steps := [Load(m, id), Load(n, id), Write(m, editor, body), Act(n, requester, Submit, reason, now)];
            RunPossible(fold, w, steps)
            && var after := After(fold, w, steps);
               && id in after.plans && after.plans[id].status == Submitted && after.plans[id].scope == body.scope.value
               && |after.log| == |w.log| + 2 && after.log[|w.log| + 1].read.scope == w.plans[id].scope
  {
    hide Judged, WindowFields;
    var p := w.plans[id];
    var load, again, write, act := Load(m, id), Load(n, id), Write(m, editor, body), Act(n, requester, Submit, reason, now);
    var w1 := Next(fold, w, load);
    var w2 := Next(fold, w1, again);
    var w3 := Next(fold, w2, write);
    assert w2.handlers[m] == Handler(id, p) && w2.handlers[n] == Handler(id, p);
    assert w3.handlers[n] == Handler(id, p);
    JudgedIsDraft(fold, p, requester, reason, now);
    var w4 := Next(fold, w3, act);
    hide Possible, Next;
    NoStep(fold, w4);
    FirstStep(fold, w3, act, []);
    FirstStep(fold, w2, write, [act] + []);
    FirstStep(fold, w1, again, [write] + ([act] + []));
    FirstStep(fold, w, load, [again] + ([write] + ([act] + [])));
    assert [load] + ([again] + ([write] + ([act] + []))) == [load, again, write, act];
  }

  lemma JudgedIsDraft(fold: Fold, p: Plan, caller: Caller, reason: string, now: real)
    requires Judged(fold, p, caller, Submit, reason, now)
    ensures p.status == Draft && Transition(p.status, Submit) == Some(Submitted)
  {
  }
}
