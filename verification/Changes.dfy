/**
 The plans of the four-eyes change plan (pegaprox/api/changes.py, pegaprox/core/changes.py)
 and what each handler writes: from the plan it read, the caller, and the row it finds when
 it writes.  What the permission lookups answer about the caller are booleans here.
 */
module Changes {
  import opened Wrappers

  datatype Status = Draft | Submitted | Approved | Rejected | Cancelled | Done

  datatype Action = Submit | Approve | Reject | Cancel | Finish

  /** TRANSITIONS: the status after an action, None when there is no such step. */
  function Transition(st: Status, action: Action): Option<Status> {
    match (st, action)
    case (Draft, Submit) => Some(Submitted)
    case (Draft, Cancel) => Some(Cancelled)
    case (Submitted, Approve) => Some(Approved)
    case (Submitted, Reject) => Some(Rejected)
    case (Submitted, Cancel) => Some(Cancelled)
    case (Approved, Finish) => Some(Done)
    case (Approved, Cancel) => Some(Cancelled)
    case _ => None
  }

  /** Times are whole seconds, as they are stored. */
  datatype Window = Window(start: Option<int>, end: Option<int>)

  datatype Scope = Scope(kind: string, targets: seq<string>)

  datatype Plan = Plan(cluster: string, title: string, description: string, scope: Scope, window: Window,
                       status: Status, requester: string, approvedBy: Option<string>, rejectedBy: Option<string>)

  /** What is asked for, and decided on. */
  datatype Content = Content(title: string, description: string, scope: Scope, window: Window)

  function ContentOf(p: Plan): Content {
    Content(p.title, p.description, p.scope, p.window)
  }

  /** The caller, and what the lookups answer about them and the plan at hand: that they may
      see it; hold changes.request and changes.approve; reach the cluster; act as an
      administrator; may request the scope; have its guests in their own tenant. */
  datatype Caller = Caller(name: string, visible: bool, mayRequest: bool, mayApprove: bool,
                           reachesCluster: bool, admin: bool, reachesScope: bool, ownGuests: bool)

  /** How a name is compared: without the blanks around it and in lower case. */
  type Fold = string -> string

  predicate SamePerson(fold: Fold, a: string, b: string) {
    a != "" && fold(a) == fold(b)
  }

  // ----- the window -----

  const DAY: int := 86400
  const WINDOW_MAX: int := 30 * DAY
  const START_SLACK: int := 300
  const TITLE_MAX: nat := 200
  const TEXT_MAX: nat := 4000
  const REASON_MAX: nat := 500

  /** One end of the window in a request. */
  datatype Field = Absent | Cleared | At(time: int) | NotATime

  function EndOf(f: Field, current: Option<int>): Option<int> {
    match f case Absent => current case At(t) => Some(t) case _ => None
  }

  /** _window_fields: the window to store, None for one that is refused. */
  function WindowFields(start: Field, end: Field, current: Window): (r: Option<Window>)
    ensures r.Some? ==> Ordered(r.value)
  {
    var w := Window(EndOf(start, current.start), EndOf(end, current.end));
    if start.NotATime? || end.NotATime? || !Ordered(w) then None else Some(w)
  }

  predicate Ordered(w: Window) {
    w.start.Some? && w.end.Some? ==> w.start.value < w.end.value
  }

  /** window_problem: none.  now has a fraction of a second, the window does not. */
  predicate WindowFine(w: Window, now: real) {
    && w.start.Some? && w.end.Some?
    && w.start.value < w.end.value <= w.start.value + WINDOW_MAX
    && w.start.value as real >= now - START_SLACK as real
  }

  predicate WindowOver(w: Window, now: real) {
    w.end.Some? && (w.end.value as real) < now
  }

  // ----- create -----

  predicate TextOk(s: string, limit: nat, required: bool) {
    |s| <= limit && (required ==> s != "")
  }

  datatype Body = Body(title: Option<string>, description: Option<string>, scope: Option<Scope>, start: Field, end: Field)

  function Created(caller: Caller, cluster: string, known: bool, body: Body): Option<Plan> {
    var title := if body.title.Some? then body.title.value else "";
    var description := if body.description.Some? then body.description.value else "";
    var window := WindowFields(body.start, body.end, Window(None, None));
    if cluster == "" || !caller.reachesCluster || !known || !caller.mayRequest then None
    else if !TextOk(title, TITLE_MAX, true) || !TextOk(description, TEXT_MAX, false) || body.scope.None? || window.None? then None
    else if !caller.reachesScope then None
    else Some(Plan(cluster, title, description, body.scope.value, window.value, Draft, caller.name, None, None))
  }

  // ----- edit -----

  /** The columns an edit writes. */
  datatype Sets = Sets(title: Option<string>, description: Option<string>, scope: Option<Scope>, window: Option<Window>)

  predicate Owns(fold: Fold, read: Plan, caller: Caller) {
    caller.mayRequest && caller.visible && SamePerson(fold, read.requester, caller.name)
  }

  function EditSets(fold: Fold, read: Plan, caller: Caller, body: Body): Option<Sets> {
    var window := WindowFields(body.start, body.end, read.window);
    var windowed := !body.start.Absent? || !body.end.Absent?;
    if !Owns(fold, read, caller) || read.status != Draft then None
    else if body.title.Some? && !TextOk(body.title.value, TITLE_MAX, true) then None
    else if body.description.Some? && !TextOk(body.description.value, TEXT_MAX, false) then None
    else if body.scope.Some? && !caller.reachesScope then None
    else if windowed && window.None? then None
    else if body.title.None? && body.description.None? && body.scope.None? && !windowed then None
    else Some(Sets(body.title, body.description, body.scope, if windowed then window else None))
  }

  function Or<T>(new': Option<T>, old': T): T {
    if new'.Some? then new'.value else old'
  }

  function WithSets(p: Plan, s: Sets): Plan {
    p.(title := Or(s.title, p.title), description := Or(s.description, p.description),
       scope := Or(s.scope, p.scope), window := Or(s.window, p.window))
  }

  /** What an edit makes of the row it finds. */
  function Edited(fold: Fold, row: Plan, read: Plan, caller: Caller, body: Body): Option<Plan> {
    var sets := EditSets(fold, read, caller, body);
    if sets.None? || row.status != Draft then None else Some(WithSets(row, sets.value))
  }

  // ----- the transitions -----

  /** _approval_scope_refusal: none. */
  predicate MayDecide(read: Plan, caller: Caller) {
    && caller.mayApprove && caller.reachesCluster
    && (caller.admin || (read.scope.kind == "guests" && caller.ownGuests))
  }

  predicate Reviews(fold: Fold, read: Plan, caller: Caller) {
    caller.visible && !SamePerson(fold, read.requester, caller.name) && MayDecide(read, caller)
  }

  /** What an action asks of the plan it read. */
  predicate Judged(fold: Fold, read: Plan, caller: Caller, action: Action, reason: string, now: real) {
    && Transition(read.status, action).Some?
    && match action
       case Submit => Owns(fold, read, caller) && WindowFine(read.window, now) && caller.reachesScope
       case Approve => caller.mayApprove && Reviews(fold, read, caller) && !WindowOver(read.window, now)
       case Reject => caller.mayApprove && Reviews(fold, read, caller) && TextOk(reason, REASON_MAX, true)
       case _ => caller.visible && ((SamePerson(fold, read.requester, caller.name) && caller.mayRequest) || MayDecide(read, caller))
  }

  /** _move: the row still has the status the caller read, and for a submit the window. */
  function Moved(row: Plan, read: Plan, caller: Caller, action: Action): Option<Plan>
    requires Transition(read.status, action).Some?
  {
    if row.status != read.status || (action == Submit && row.window != read.window) then None
    else
      var after := row.(status := Transition(read.status, action).value);
      Some(match action
           case Approve => after.(approvedBy := Some(caller.name))
           case Reject => after.(rejectedBy := Some(caller.name))
           case _ => after)
  }

  /** What an action makes of the row it finds. */
  function Acted(fold: Fold, row: Plan, read: Plan, caller: Caller, action: Action, reason: string, now: real): Option<Plan> {
    if !Judged(fold, read, caller, action, reason, now) then None else Moved(row, read, caller, action)
  }

  // ----- what a step cannot do -----

  /** A draft is no target of any move, and a plan that is over no source of one. */
  lemma NoWayBack(st: Status, action: Action)
    ensures Transition(st, action) != Some(Draft)
    ensures st in {Rejected, Cancelled, Done} ==> Transition(st, action) == None
    ensures Transition(st, action) == Some(Submitted) ==> st == Draft
    ensures Transition(st, action) == Some(Approved) ==> st == Submitted
    ensures Transition(st, action) == Some(Rejected) ==> st == Submitted
  {
  }
}
