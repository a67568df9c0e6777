/** The handlers of the change plan as they write the rows of the table. */
module ChangesInPlace {
  import opened Wrappers
  import opened Changes

  type Id = string

  class PlanTable {
    var plans: map<Id, Plan>

    constructor ()
      ensures plans == map[]
    {
      plans := map[];
    }

    method CreateChange(id: Id, caller: Caller, cluster: string, known: bool, body: Body) returns (stored: bool)
      requires id !in plans
      modifies this
      ensures stored == Created(caller, cluster, known, body).Some?
      ensures plans == if stored then old(plans)[id := Created(caller, cluster, known, body).value] else old(plans)
    {
      stored := false;
      if cluster == "" || !caller.reachesCluster || !known || !caller.mayRequest {
        return;
      }
      var title := Or(body.title, "");
      var description := Or(body.description, "");
      var window := WindowFields(body.start, body.end, Window(None, None));
      if !TextOk(title, TITLE_MAX, true) || !TextOk(description, TEXT_MAX, false) || body.scope.None? || window.None? {
        return;
      }
      if !caller.reachesScope {
        return;
      }
      plans := plans[id := Plan(cluster, title, description, body.scope.value, window.value, Draft, caller.name, None, None)];
      stored := true;
    }

    /** The first half of a handler; the plan may have changed by the time of the second. */
    method Load(id: Id) returns (read: Option<Plan>)
      ensures read == if id in plans then Some(plans[id]) else None
    {
      read := if id in plans then Some(plans[id]) else None;
    }

    /** UPDATE ... WHERE id = ? AND status = 'draft'. */
    method EditChange(fold: Fold, id: Id, read: Plan, caller: Caller, body: Body) returns (stored: bool)
      modifies this
      ensures stored == (id in old(plans) && Edited(fold, old(plans)[id], read, caller, body).Some?)
      ensures plans == if stored then old(plans)[id := Edited(fold, old(plans)[id], read, caller, body).value] else old(plans)
    {
      var sets := EditSets(fold, read, caller, body);
      stored := sets.Some? && id in plans && plans[id].status == Draft;
      if stored {
        var row := plans[id];
        if sets.value.title.Some? {
          row := row.(title := sets.value.title.value);
        }
        if sets.value.description.Some? {
          row := row.(description := sets.value.description.value);
        }
        if sets.value.scope.Some? {
          row := row.(scope := sets.value.scope.value);
        }
        if sets.value.window.Some? {
          row := row.(window := sets.value.window.value);
        }
        plans := plans[id := row];
      }
    }

    /** UPDATE ... WHERE id = ? AND status = ? and, for a submit, the window IS what was read. */
    method Move(id: Id, read: Plan, caller: Caller, action: Action) returns (moved: bool)
      requires Transition(read.status, action).Some?
      modifies this
      ensures moved == (id in old(plans) && Moved(old(plans)[id], read, caller, action).Some?)
      ensures plans == if moved then old(plans)[id := Moved(old(plans)[id], read, caller, action).value] else old(plans)
    {
      moved := id in plans && plans[id].status == read.status && (action == Submit ==> plans[id].window == read.window);
      if !moved {
        return;
      }
      var row := plans[id].(status := Transition(read.status, action).value);
      if action == Approve {
        row := row.(approvedBy := Some(caller.name));
      } else if action == Reject {
        row := row.(rejectedBy := Some(caller.name));
      }
      plans := plans[id := row];
    }

    /** The second half of submit, approve, reject, cancel and done. */
    method Act(fold: Fold, id: Id, read: Plan, caller: Caller, action: Action, reason: string, now: real) returns (moved: bool)
      modifies this
      ensures moved == (id in old(plans) && Acted(fold, old(plans)[id], read, caller, action, reason, now).Some?)
      ensures plans == if moved then old(plans)[id := Acted(fold, old(plans)[id], read, caller, action, reason, now).value]
                       else old(plans)
    {
      moved := false;
      if Judged(fold, read, caller, action, reason, now) {
        moved := Move(id, read, caller, action);
      }
    }
  }
}
