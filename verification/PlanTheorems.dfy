/** The life of a rebalance plan in every interleaving of actions and executor ticks. */
module PlanTheorems {
  import opened Options
  import opened PlanStore
  import opened PlanProtocol
  import opened PlanRuns
  import Optimizer

  // ---- What is stored is what was planned ----

  function Vmids(moves: seq<Optimizer.PlannedMove>): (r: seq<int>)
    ensures |r| == |moves| && forall i :: 0 <= i < |r| ==> r[i] == moves[i].guest.vmid
  {
    seq(|moves|, i requires 0 <= i < |moves| => moves[i].guest.vmid)
  }

  /** Under a fresh id, any non-empty plan with the optimizer's guarantees is stored as a draft of its guests. */
  lemma PlannedMovesAreStored(guests: seq<Optimizer.Guest>, nodes: seq<Optimizer.Node>, moves: seq<Optimizer.PlannedMove>,
                              s: State, cap: nat, p: nat, freshId: string)
    requires Optimizer.GoodMoves(guests, nodes, moves) && moves != []
    requires p < |s.pending| && s.pending[p].ComputePending? && freshId !in s.used
    ensures Next(s, cap, ComputeWrite(p, freshId, Vmids(moves))).store == Some(DraftPlan(freshId, Vmids(moves)))
  {
    assert forall i :: 0 <= i < |moves| ==> QueuedMoves(Vmids(moves))[i].vmid == moves[i].guest.vmid;
  }

  // ---- Lifecycle ----

  /** The status of a stored plan only moves on. */
  predicate MovesOn(before: PlanStatus, after: PlanStatus) {
    before == after || (before == Draft && after == Active) || (before != Draft && IsEnded(after))
  }

  ghost predicate NeverRequeued(before: seq<Move>, after: seq<Move>) {
    |before| == |after| && forall i :: 0 <= i < |before| && before[i].status != Queued ==> after[i].status != Queued
  }

  /** One event moves the stored plan's status on and sends no move back to the queue. */
  lemma StepMovesOn(s: State, cap: nat, e: Event)
    requires Inv(s)
    requires s.store.Some? && Next(s, cap, e).store.Some? && Next(s, cap, e).store.value.id == s.store.value.id
    ensures MovesOn(s.store.value.status, Next(s, cap, e).store.value.status)
    ensures NeverRequeued(s.store.value.moves, Next(s, cap, e).store.value.moves)
  {
    match e {
      case TickPoll(i, result) => TickWrites(s, cap, e, i);
      case TickChoose(i, others, choice) => TickWrites(s, cap, e, i);
      case TickRecord(i) => TickWrites(s, cap, e, i);
      case TickRecordFails(i, message) => TickWrites(s, cap, e, i);
      case TickFinish(i) => FinishStatus(s, cap, i);
      case CancelWrite(p) => assert p < |s.pending| ==> PendingOk(s, s.pending[p]);
      case _ =>
    }
  }

  /** What a tick's write leaves: the plan, its status, and every move that left the queue; another plan is not touched at all. */
  ghost predicate Touches(s: State, i: nat, after: Store)
    requires s.store.Some?
  {
    && after.Some? && after.value.id == s.store.value.id && after.value.status == s.store.value.status
    && NeverRequeued(s.store.value.moves, after.value.moves)
    && (i >= |s.ticks| || s.ticks[i].Over? || s.ticks[i].copy.id != s.store.value.id ==> after == s.store)
  }

  lemma TickWrites(s: State, cap: nat, e: Event, i: nat)
    requires Inv(s) && s.store.Some? && (e.TickPoll? || e.TickChoose? || e.TickRecord? || e.TickRecordFails?) && e.i == i
    ensures Touches(s, i, Next(s, cap, e).store)
  {
    if i < |s.ticks| && !s.ticks[i].Over? {
      assert TickOk(s, s.ticks[i]);
      match e {
        case TickPoll(_, result) => PollWrites(s, cap, i, result);
        case TickChoose(_, others, choice) => ChooseWrites(s, cap, i, others, choice);
        case TickRecord(_) => if s.ticks[i].Launched? { OneWrite(s, i, s.ticks[i].k, Outcome(Migrating, Some(s.ticks[i].upid), None)); }
        case TickRecordFails(_, message) => if s.ticks[i].Launched? { OneWrite(s, i, s.ticks[i].k, Outcome(Failed, None, Some(message))); }
      }
    }
  }

  lemma PollWrites(s: State, cap: nat, i: nat, result: PollResult)
    requires Inv(s) && s.store.Some? && i < |s.ticks| && !s.ticks[i].Over?
    ensures Touches(s, i, Next(s, cap, TickPoll(i, result)).store)
  {
    var t := s.ticks[i];
    if t.Polling? && t.next < |t.copy.moves| && result.Finished? {
      OneWrite(s, i, t.next, PollOutcome(result.ok, result.message));
    }
  }

  lemma ChooseWrites(s: State, cap: nat, i: nat, others: nat, choice: Choice)
    requires Inv(s) && s.store.Some? && i < |s.ticks| && !s.ticks[i].Over?
    ensures Touches(s, i, Next(s, cap, TickChoose(i, others, choice)).store)
  {
    var k := FirstQueued(s.ticks[i].copy.moves);
    if k >= 0 && !choice.Launch? {
      OneWrite(s, i, k, if choice.Skip? then Outcome(Skipped, None, Some(choice.reason))
                        else Outcome(Failed, None, Some(choice.message)));
    }
  }

  lemma OneWrite(s: State, i: nat, k: nat, o: Outcome)
    requires Inv(s) && s.store.Some? && i < |s.ticks| && !s.ticks[i].Over? && k < |s.ticks[i].copy.moves| && o.status != Queued
    ensures Touches(s, i, Record(s.store, s.ticks[i].copy.id, s.ticks[i].copy.moves[k].vmid, o))
  {
    if s.store.value.id == s.ticks[i].copy.id { RecordIsAt(s, i, k, o); }
  }

  lemma FinishStatus(s: State, cap: nat, i: nat)
    requires Inv(s) && s.store.Some?
    ensures var after := Next(s, cap, TickFinish(i)).store;
            && after.Some? && after.value.id == s.store.value.id && after.value.moves == s.store.value.moves
            && after.value.status == if Completes(s, TickFinish(i)) then Completed else s.store.value.status
    ensures Completes(s, TickFinish(i)) ==> s.store.value.status != Draft
  {
    if i < |s.ticks| && s.ticks[i].Finishing? { assert TickOk(s, s.ticks[i]); }
  }

  lemma StepRemembers(s: State, cap: nat, e: Event)
    ensures s.ended <= Next(s, cap, e).ended && s.used <= Next(s, cap, e).used
  {
  }

  lemma {:induction false} RunRemembers(s: State, cap: nat, events: seq<Event>)
    ensures s.ended <= Run(s, cap, events).ended && s.used <= Run(s, cap, events).used
    decreases |events|
  {
    if events != [] {
      StepRemembers(s, cap, events[0]);
      RunRemembers(Next(s, cap, events[0]), cap, events[1..]);
    }
  }

  /**
   A plan that was ever cancelled or completed is never again stored as a draft or active, and
   is never again stored with a queued move, in any interleaving.
   */
  lemma {:induction false} EndedForGood(s: State, cap: nat, events: seq<Event>, id: string)
    requires Inv(s) && id in s.ended
    ensures var store := Run(s, cap, events).store;
            store.Some? && store.value.id == id ==> IsEnded(store.value.status) && NoneQueued(store.value.moves)
  {
    RunKeepsInv(s, cap, events);
    RunRemembers(s, cap, events);
  }

  // ---- A cancellation that is overwritten ----

  /** A finishing tick finds nothing unresolved in its copy of the stored plan. */
  predicate Completes(s: State, e: Event) {
    && e.TickFinish? && e.i < |s.ticks| && s.ticks[e.i].Finishing? && !Unresolved(s.ticks[e.i].copy.moves)
    && s.store.Some? && s.store.value.id == s.ticks[e.i].copy.id
  }

  /**
   A stored plan that is cancelled turns into a completed one exactly when a tick finishes that
   holds an older copy of it with nothing left unresolved.
   */
  lemma CancelledTurnsCompletedExactly(s: State, cap: nat, e: Event)
    requires Inv(s) && s.store.Some? && s.store.value.status == Cancelled
    requires Next(s, cap, e).store.Some? && Next(s, cap, e).store.value.id == s.store.value.id
    ensures Next(s, cap, e).store.value.status == Completed <==> Completes(s, e)
  {
    match e {
      case TickPoll(i, result) => TickWrites(s, cap, e, i);
      case TickChoose(i, others, choice) => TickWrites(s, cap, e, i);
      case TickRecord(i) => TickWrites(s, cap, e, i);
      case TickRecordFails(i, message) => TickWrites(s, cap, e, i);
      case TickFinish(i) => FinishStatus(s, cap, i);
      case _ =>
    }
  }

  /** The one move is skipped by a tick that the cancel overtakes, and the tick finishes. */
  lemma SkippedThenCancelled(cap: nat)
    requires cap >= 1
    ensures var skipped := SetLocal(ONE_MOVE, 0, Outcome(Skipped, None, Some("full")));
            var s1 := HALF_CANCELLED.(store := Some(skipped), ticks := [Finishing(skipped)]);
            var s2 := Next(s1, cap, CancelWrite(0));
            && Next(HALF_CANCELLED, cap, TickChoose(0, 0, Skip("full"))) == s1
            && s2.store == Some(skipped.(status := Cancelled)) && s2.ticks == s1.ticks
            && NoneQueued(skipped.moves) && !Unresolved(skipped.moves)
  {
    SingleMove(ONE_MOVE.moves);
    RecordedAt(ONE_MOVE, 0, Outcome(Skipped, None, Some("full")));
    var skipped := SetLocal(ONE_MOVE, 0, Outcome(Skipped, None, Some("full")));
    assert Dropped(skipped.moves) == skipped.moves;
    assert HALF_CANCELLED.ticks[0 := Finishing(skipped)] == [Finishing(skipped)];
  }

  /** The run in which it happens: the last queued move is skipped by a tick that the cancel overtakes. */
  lemma {:induction false} CancelledCanEndCompleted(cap: nat) returns (before: seq<Event>)
    requires cap >= 1
    ensures Run(START, cap, before).store.Some? && Run(START, cap, before).store.value.status == Cancelled
    ensures Run(START, cap, before + [TickFinish(0)]).store ==
            Some(Run(START, cap, before).store.value.(status := Completed))
  {
    var tail := [TickChoose(0, 0, Skip("full")), CancelWrite(0)];
    before := HalfCancelled() + tail;
    HalfCancelledRuns(cap);
    SkippedThenCancelled(cap);
    RunAppend(START, cap, HalfCancelled(), tail);
    RunTwo(HALF_CANCELLED, cap, tail[0], tail[1]);
    RunAppend(START, cap, before, [TickFinish(0)]);
    FinishAfter(Run(START, cap, before), cap);
  }

  lemma {:induction false} FinishAfter(s: State, cap: nat)
    requires |s.ticks| == 1 && s.ticks[0].Finishing? && !Unresolved(s.ticks[0].copy.moves)
    requires s.store.Some? && s.store.value.id == s.ticks[0].copy.id
    ensures Run(s, cap, [TickFinish(0)]).store == Some(s.store.value.(status := Completed))
  {
    RunOne(s, cap, TickFinish(0));
  }

  // ---- A cancelled plan that no tick holds ----

  ghost predicate HeldByNoTick(s: State, id: string) {
    forall i :: 0 <= i < |s.ticks| ==> s.ticks[i].Over? || s.ticks[i].copy.id != id
  }

  lemma NoTickTakesIt(s: State, cap: nat, e: Event, id: string)
    requires Inv(s) && id in s.ended && HeldByNoTick(s, id)
    ensures HeldByNoTick(Next(s, cap, e), id)
  {
    var s' := Next(s, cap, e);
    forall i | 0 <= i < |s'.ticks| ensures s'.ticks[i].Over? || s'.ticks[i].copy.id != id {
      if i < |s.ticks| { assert s.ticks[i].Over? || s.ticks[i].copy.id != id; }
    }
  }

  lemma FrozenStep(s: State, cap: nat, e: Event, p: Plan)
    requires Inv(s) && p.id in s.ended && HeldByNoTick(s, p.id) && p.status == Cancelled
    requires s.store.Some? && s.store.value.id == p.id ==> s.store.value == p
    ensures var store := Next(s, cap, e).store; store.Some? && store.value.id == p.id ==> store.value == p
  {
    if s.store.Some? {
      match e {
        case TickPoll(i, result) => TickWrites(s, cap, e, i);
        case TickChoose(i, others, choice) => TickWrites(s, cap, e, i);
        case TickRecord(i) => TickWrites(s, cap, e, i);
        case TickRecordFails(i, message) => TickWrites(s, cap, e, i);
        case TickFinish(i) => FinishStatus(s, cap, i);
        case CancelWrite(k) => if s.store.value.id == p.id { assert Dropped(p.moves) == p.moves; }
        case _ =>
      }
    }
  }

  /**
   Once a plan is cancelled and no tick holds it, it never changes while it is stored, in any run:
   a migration it has in flight is shown as migrating for ever.
   */
  lemma {:induction false} CancelledPlanIsFrozen(s: State, cap: nat, events: seq<Event>, p: Plan)
    requires Inv(s) && p.id in s.ended && HeldByNoTick(s, p.id) && p.status == Cancelled
    requires s.store.Some? && s.store.value.id == p.id ==> s.store.value == p
    ensures var store := Run(s, cap, events).store; store.Some? && store.value.id == p.id ==> store.value == p
    decreases |events|
  {
    if events != [] {
      FrozenStep(s, cap, events[0], p);
      NoTickTakesIt(s, cap, events[0], p.id);
      StepKeepsInv(s, cap, events[0]);
      StepRemembers(s, cap, events[0]);
      CancelledPlanIsFrozen(Next(s, cap, events[0]), cap, events[1..], p);
    }
  }
}
