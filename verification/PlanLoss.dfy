/** When a stored active plan can be lost. */
module PlanLoss {
  import opened Options
  import opened PlanStore
  import opened PlanProtocol
  import opened PlanRuns
  import opened PlanTheorems

  ghost predicate Loses(s: State, s': State) {
    && s.store.Some? && s.store.value.status == Active
    && (s'.store.None? || s'.store.value.id != s.store.value.id)
  }

  /** A compute that writes: it found no moves, or a plan it can store. */
  predicate ComputeStores(s: State, e: Event) {
    && e.ComputeWrite? && e.p < |s.pending| && s.pending[e.p].ComputePending?
    && (e.vmids == [] || (e.freshId !in s.used && DistinctVmids(QueuedMoves(e.vmids))))
  }

  predicate CancelClears(s: State, e: Event) {
    e.CancelWrite? && e.p < |s.pending| && s.pending[e.p].ClearPending?
  }

  /**
   An active plan disappears from the store exactly at the write of a compute, or of a cancel that
   clears; and the plan was then applied after that action's read.
   */
  lemma LostExactlyWhenOvertaken(s: State, cap: nat, e: Event)
    requires Inv(s) && s.store.Some? && s.store.value.status == Active
    ensures Loses(s, Next(s, cap, e)) <==> ComputeStores(s, e) || CancelClears(s, e)
    ensures Loses(s, Next(s, cap, e)) ==> s.store.value.id in s.pending[e.p].appliedSince
  {
    if ComputeStores(s, e) || CancelClears(s, e) { assert PendingOk(s, s.pending[e.p]); }
    match e {
      case TickPoll(i, result) => TickWrites(s, cap, e, i);
      case TickChoose(i, others, choice) => TickWrites(s, cap, e, i);
      case TickRecord(i) => TickWrites(s, cap, e, i);
      case TickRecordFails(i, message) => TickWrites(s, cap, e, i);
      case TickFinish(i) => FinishStatus(s, cap, i);
      case _ =>
    }
  }

  /** Actions that run read and write without being overtaken. */
  datatype Atomic = ComputeAction(freshId: string, vmids: seq<int>) | CancelAction(id: string) | Other(event: Event)

  predicate IsAtomic(a: Atomic) {
    a.Other? ==> !(a.event.ComputeRead? || a.event.ComputeWrite? || a.event.CancelRead? || a.event.CancelWrite?)
  }

  function Perform(s: State, cap: nat, a: Atomic): State {
    match a
    case ComputeAction(freshId, vmids) => Next(Next(s, cap, ComputeRead), cap, ComputeWrite(|s.pending|, freshId, vmids))
    case CancelAction(id) => Next(Next(s, cap, CancelRead(id)), cap, CancelWrite(|s.pending|))
    case Other(event) => Next(s, cap, event)
  }

  /** The two actions of the store object are the actions that are not overtaken. */
  lemma PerformIsTheObject(s: State, cap: nat, freshId: string, vmids: seq<int>, id: string)
    requires freshId !in s.used && DistinctVmids(QueuedMoves(vmids))
    ensures Perform(s, cap, ComputeAction(freshId, vmids)).store == Computed(s.store, freshId, vmids)
    ensures Perform(s, cap, CancelAction(id)).store == CancelledOrCleared(s.store, id)
    ensures Next(s, cap, ApplyEvent(id)).store == Update(s.store, id, Applied)
  {
    var read := Next(s, cap, ComputeRead);
    assert read != s ==> read.pending[|s.pending|] == ComputePending({});
    var cancelRead := Next(s, cap, CancelRead(id));
    assert cancelRead != s ==> |cancelRead.pending| == |s.pending| + 1;
  }

  lemma PerformKeepsActive(s: State, cap: nat, a: Atomic)
    requires Inv(s) && s.pending == [] && IsAtomic(a)
    ensures Inv(Perform(s, cap, a)) && Perform(s, cap, a).pending == []
    ensures !Loses(s, Perform(s, cap, a))
  {
    match a {
      case ComputeAction(freshId, vmids) =>
        StepKeepsInv(s, cap, ComputeRead);
        StepKeepsInv(Next(s, cap, ComputeRead), cap, ComputeWrite(0, freshId, vmids));
      case CancelAction(id) =>
        StepKeepsInv(s, cap, CancelRead(id));
        StepKeepsInv(Next(s, cap, CancelRead(id)), cap, CancelWrite(0));
      case Other(event) =>
        StepKeepsInv(s, cap, event);
        assert |Next(s, cap, event).pending| == 0;
        if s.store.Some? && s.store.value.status == Active { LostExactlyWhenOvertaken(s, cap, event); }
    }
  }

  /** No step of the sequence loses an active plan. */
  ghost predicate NeverLoses(s: State, cap: nat, actions: seq<Atomic>)
    decreases |actions|
  {
    actions == [] ||
    (!Loses(s, Perform(s, cap, actions[0])) && NeverLoses(Perform(s, cap, actions[0]), cap, actions[1..]))
  }

  /** When actions are not overtaken, no compute ever replaces an active plan and no cancel removes one. */
  lemma {:induction false} AtomicRunKeepsActive(s: State, cap: nat, actions: seq<Atomic>)
    requires Inv(s) && s.pending == []
    requires forall i :: 0 <= i < |actions| ==> IsAtomic(actions[i])
    ensures NeverLoses(s, cap, actions)
    decreases |actions|
  {
    if actions != [] {
      PerformKeepsActive(s, cap, actions[0]);
      AtomicRunKeepsActive(Perform(s, cap, actions[0]), cap, actions[1..]);
    }
  }

  /** A plan stored as a draft, read by an action and then applied: the state both failing runs share. */
  lemma {:induction false} ReadThenApplied(cap: nat, read: Event, q: Pending)
    requires q == ComputePending({}) || q == ClearPending({})
    requires read == if q.ComputePending? then ComputeRead else CancelRead("a")
    ensures var s := Run(START, cap, [ComputeRead, ComputeWrite(0, "a", [1])] + [read, ApplyEvent("a")]);
            && s.store == Some(Plan("a", Active, QueuedMoves([1]))) && s.used == {"a"}
            && s.pending == [q.(appliedSince := {"a"})]
  {
    ActivationSteps(START, cap, "a", [1]);
    RunTwo(START, cap, ComputeRead, ComputeWrite(0, "a", [1]));
    var s2 := START.(store := Some(DraftPlan("a", [1])), used := {"a"});
    assert START.used + {"a"} == {"a"};
    RunAppend(START, cap, [ComputeRead, ComputeWrite(0, "a", [1])], [read, ApplyEvent("a")]);
    RunTwo(s2, cap, read, ApplyEvent("a"));
    assert s2.pending + [q] == [q];
    assert NoteApplied([q], "a")[0].appliedSince == {} + {"a"};
  }

  /** A plan applied between a compute's read and write is replaced by the new draft, or cleared when there are no moves. */
  lemma {:induction false} OvertakenComputeReplacesActive(cap: nat)
    ensures var s := Run(START, cap, [ComputeRead, ComputeWrite(0, "a", [1])] + [ComputeRead, ApplyEvent("a")]);
            && s.store == Some(Plan("a", Active, QueuedMoves([1])))
            && Next(s, cap, ComputeWrite(0, "b", [2])).store == Some(DraftPlan("b", [2]))
            && Next(s, cap, ComputeWrite(0, "b", [])).store == None
  {
    ReadThenApplied(cap, ComputeRead, ComputePending({}));
    assert "b" != "a" by { assert "b"[0] != "a"[0]; }
  }

  /** A plan applied between the read and the write of a cancel that saw the draft is cleared. */
  lemma {:induction false} OvertakenCancelClearsActive(cap: nat)
    ensures var s := Run(START, cap, [ComputeRead, ComputeWrite(0, "a", [1])] + [CancelRead("a"), ApplyEvent("a")]);
            && s.store == Some(Plan("a", Active, QueuedMoves([1])))
            && Next(s, cap, CancelWrite(0)).store == None
  {
    ReadThenApplied(cap, CancelRead("a"), ClearPending({}));
  }
}
