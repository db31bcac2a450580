/** A site's rebalance plan and the atomic transactions on its store. */
module PlanStore {
  import opened Options

  datatype MoveStatus = Queued | Migrating | Done | Failed | Skipped

  datatype Move = Move(vmid: int, status: MoveStatus, upid: Option<string>, error: Option<string>)

  datatype PlanStatus = Draft | Active | Completed | Cancelled

  datatype Plan = Plan(id: string, status: PlanStatus, moves: seq<Move>)

  type Store = Option<Plan>

  // ---- The updates, on values ----

  function Applied(p: Plan): Plan {
    if p.status == Draft then p.(status := Active) else p
  }

  /** Cancelling drops every move that has not started. */
  function Dropped(moves: seq<Move>): (r: seq<Move>)
    ensures |r| == |moves|
    ensures forall i :: 0 <= i < |r| ==>
              r[i] == if moves[i].status == Queued then moves[i].(status := Skipped, error := Some("plan cancelled")) else moves[i]
  {
    seq(|moves|, i requires 0 <= i < |moves| =>
      if moves[i].status == Queued then moves[i].(status := Skipped, error := Some("plan cancelled")) else moves[i])
  }

  function CancelledPlan(p: Plan): Plan {
    p.(status := Cancelled, moves := Dropped(p.moves))
  }

  /** The first move of a guest, or -1. */
  function FindMove(moves: seq<Move>, vmid: int): (r: int)
    ensures -1 <= r < |moves|
    ensures r >= 0 ==> moves[r].vmid == vmid
    ensures forall i :: 0 <= i < |moves| && (r < 0 || i < r) ==> moves[i].vmid != vmid
  {
    if moves == [] then -1
    else if moves[0].vmid == vmid then 0
    else
      var rest := FindMove(moves[1..], vmid);
      assert forall i :: 1 <= i < |moves| ==> moves[i] == moves[1..][i - 1];
      if rest < 0 then -1 else rest + 1
  }

  /** What the executor writes about one guest. */
  datatype Outcome = Outcome(status: MoveStatus, upid: Option<string>, error: Option<string>)

  /** A written upid replaces the stored one, an absent one keeps it. */
  function WithOutcome(m: Move, o: Outcome): Move {
    Move(m.vmid, o.status, if o.upid.Some? then o.upid else m.upid, if o.status == Migrating then m.error else o.error)
  }

  function Recorded(p: Plan, vmid: int, o: Outcome): Plan {
    var i := FindMove(p.moves, vmid);
    if i < 0 then p else p.(moves := p.moves[i := WithOutcome(p.moves[i], o)])
  }

  /** updateRebalancePlan: nothing happens when another plan, or none, is stored. */
  function Update(store: Store, id: string, update: Plan -> Plan): Store {
    if store.Some? && store.value.id == id then Some(update(store.value)) else store
  }

  function QueuedMoves(vmids: seq<int>): (r: seq<Move>)
    ensures |r| == |vmids| && forall i :: 0 <= i < |r| ==> r[i] == Move(vmids[i], Queued, None, None)
  {
    seq(|vmids|, i requires 0 <= i < |vmids| => Move(vmids[i], Queued, None, None))
  }

  function DraftPlan(id: string, vmids: seq<int>): Plan {
    Plan(id, Draft, QueuedMoves(vmids))
  }

  /** Computing without being overtaken: refused while a plan is active. */
  function Computed(store: Store, freshId: string, vmids: seq<int>): Store {
    if store.Some? && store.value.status == Active then store
    else if vmids == [] then None
    else Some(DraftPlan(freshId, vmids))
  }

  /** Cancelling without being overtaken: an active plan is cancelled, any other stored plan is cleared. */
  function CancelledOrCleared(store: Store, id: string): Store {
    if store.None? || store.value.id != id then store
    else if store.value.status == Active then Some(CancelledPlan(store.value))
    else None
  }

  // ---- The store object ----

  datatype ActionResult = Refused | Balanced | Ready | Started | Removed

  class RebalanceStore {
    var plan: Store

    /** The plan becomes active if it is the stored draft. */
    method ApplyPlan(id: string) returns (r: ActionResult)
      modifies this
      ensures plan == Update(old(plan), id, Applied)
      ensures r == Started <==> plan.Some? && plan.value.id == id && plan.value.status == Active
      ensures r == Started || r == Refused
    {
      if plan.None? || plan.value.id != id {
        return Refused;
      }
      if plan.value.status == Draft {
        plan := Some(plan.value.(status := Active));
      }
      r := if plan.value.status == Active then Started else Refused;
    }

    /** The transaction of a cancel: one pass over the moves. */
    method MarkCancelled(id: string)
      modifies this
      ensures plan == Update(old(plan), id, CancelledPlan)
    {
      if plan.None? || plan.value.id != id {
        return;
      }
      var p := plan.value;
      var moves := p.moves;
      var i := 0;
      while i < |p.moves|
        invariant 0 <= i <= |p.moves| && |moves| == |p.moves|
        invariant forall k :: 0 <= k < i ==> moves[k] == Dropped(p.moves)[k]
        invariant forall k :: i <= k < |moves| ==> moves[k] == p.moves[k]
      {
        if moves[i].status == Queued {
          moves := moves[i := moves[i].(status := Skipped, error := Some("plan cancelled"))];
        }
        i := i + 1;
      }
      assert moves == Dropped(p.moves);
      plan := Some(Plan(p.id, Cancelled, moves));
    }

    /** Cancelling an active plan drops its queued moves; any other stored plan is removed. */
    method CancelPlan(id: string) returns (r: ActionResult)
      modifies this
      ensures plan == CancelledOrCleared(old(plan), id)
      ensures r == if old(plan).Some? && old(plan).value.id == id then Removed else Refused
    {
      if plan.None? || plan.value.id != id {
        return Refused;
      }
      if plan.value.status == Active {
        MarkCancelled(id);
      } else {
        plan := None;
      }
      r := Removed;
    }

    /** Computing refuses while a plan is active, clears when nothing would move, and saves a draft otherwise. */
    method ComputePlan(freshId: string, vmids: seq<int>) returns (r: ActionResult)
      modifies this
      ensures plan == Computed(old(plan), freshId, vmids)
      ensures r == if old(plan).Some? && old(plan).value.status == Active then Refused
                   else if vmids == [] then Balanced else Ready
    {
      if plan.Some? && plan.value.status == Active {
        return Refused;
      }
      if |vmids| == 0 {
        plan := None;
        return Balanced;
      }
      plan := Some(Plan(freshId, Draft, QueuedMoves(vmids)));
      r := Ready;
    }

    /** The executor's write about one guest. */
    method RecordOutcome(id: string, vmid: int, o: Outcome)
      modifies this
      ensures plan == Update(old(plan), id, (p: Plan) => Recorded(p, vmid, o))
    {
      if plan.None? || plan.value.id != id {
        return;
      }
      var i := FindMove(plan.value.moves, vmid);
      if i >= 0 {
        var moves := plan.value.moves;
        plan := Some(plan.value.(moves := moves[i := WithOutcome(moves[i], o)]));
      }
    }
  }
}
