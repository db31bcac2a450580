/**
 What becomes of each move of a plan: what every event writes about it, and, over whole runs, that
 whatever the store says of a move was written by an event that had the reason to.
 */
module PlanOutcomes {
  import opened Options
  import opened PlanStore
  import opened PlanProtocol

  // ---- What one event writes ----

  /** The tick holds a copy of the stored plan. */
  predicate HoldsStored(s: State, i: nat) {
    i < |s.ticks| && !s.ticks[i].Over? && s.store.Some? && s.store.value.id == s.ticks[i].copy.id
  }

  /** The tick is about to poll a migration whose task has ended. */
  predicate SeesEnd(s: State, i: nat) {
    && i < |s.ticks| && s.ticks[i].Polling? && s.ticks[i].next < |s.ticks[i].copy.moves|
    && var m := s.ticks[i].copy.moves[s.ticks[i].next];
       m.status == Migrating && m.upid.Some? && m.upid.value !in s.running
  }

  /** A polled migration that has ended is stored as done, or as failed with the task's message; nothing else changes. */
  lemma PollRecords(s: State, cap: nat, i: nat, ok: bool, message: string)
    requires Inv(s) && SeesEnd(s, i) && HoldsStored(s, i)
    ensures var n, p := s.ticks[i].next, s.store.value;
            n < |p.moves| &&
            Next(s, cap, TickPoll(i, Finished(ok, message))).store ==
            Some(p.(moves := p.moves[n := p.moves[n].(status := if ok then Done else Failed,
                                                      error := if ok then None else Some(message))]))
  {
    RecordIsAt(s, i, s.ticks[i].next, PollOutcome(ok, message));
  }

  /** The tick's own copy says the same, whether or not the store could be written, and the tick goes on. */
  lemma PollGoesOn(s: State, cap: nat, i: nat, ok: bool, message: string, stored: bool)
    requires SeesEnd(s, i)
    ensures var t := s.ticks[i];
            var s' := Next(s, cap, TickPoll(i, if stored then Finished(ok, message) else Unstored(ok, message)));
            && s'.ticks == s.ticks[i := Polling(t.copy.(moves := t.copy.moves[t.next :=
                 t.copy.moves[t.next].(status := if ok then Done else Failed, error := if ok then None else Some(message))]), t.next + 1)]
            && (!stored ==> s'.store == s.store)
  {
  }

  /** A move that is not migrating, or whose task still runs, is passed over. */
  lemma PollPasses(s: State, cap: nat, i: nat, result: PollResult)
    requires i < |s.ticks| && s.ticks[i].Polling? && s.ticks[i].next < |s.ticks[i].copy.moves|
    requires result.StillRunning? || s.ticks[i].copy.moves[s.ticks[i].next].status != Migrating
    ensures Next(s, cap, TickPoll(i, result)) == s.(ticks := s.ticks[i := Polling(s.ticks[i].copy, s.ticks[i].next + 1)])
  {
  }

  /** A tick has polled every move, counts fewer migrations than the cap, and k is the first move in its queue. */
  predicate AboutToChoose(s: State, cap: nat, i: nat, others: nat, k: nat) {
    && i < |s.ticks| && s.ticks[i].Polling? && s.ticks[i].next >= |s.ticks[i].copy.moves|
    && k < |s.ticks[i].copy.moves| && s.ticks[i].copy.moves[k].status == Queued
    && (forall j :: 0 <= j < k ==> s.ticks[i].copy.moves[j].status != Queued)
    && others + |set j | 0 <= j < |s.ticks[i].copy.moves| && s.ticks[i].copy.moves[j].status == Migrating| < cap
  }

  lemma {:induction false} InFlightIs(moves: seq<Move>)
    ensures InFlight(moves) == |set j | 0 <= j < |moves| && moves[j].status == Migrating|
  {
    if moves != [] {
      var init, last := moves[..|moves| - 1], |moves| - 1;
      InFlightIs(init);
      var a, b := set j | 0 <= j < |init| && init[j].status == Migrating, set j | 0 <= j < |moves| && moves[j].status == Migrating;
      assert b == a + if moves[last].status == Migrating then {last} else {};
      assert last !in a;
    }
  }

  lemma {:induction false} FirstQueuedIs(moves: seq<Move>, k: nat)
    requires k < |moves| && moves[k].status == Queued && forall j :: 0 <= j < k ==> moves[j].status != Queued
    ensures FirstQueued(moves) == k
  {
    if k > 0 { FirstQueuedIs(moves[1..], k - 1); }
  }

  lemma ChoiceIs(s: State, cap: nat, i: nat, others: nat, k: nat)
    requires AboutToChoose(s, cap, i, others, k)
    ensures FirstQueued(s.ticks[i].copy.moves) == k && others + InFlight(s.ticks[i].copy.moves) < cap
  {
    FirstQueuedIs(s.ticks[i].copy.moves, k);
    InFlightIs(s.ticks[i].copy.moves);
  }

  /** A move that cannot go is stored as skipped with its reason, one whose start fails as failed with the message. */
  lemma ChooseRecords(s: State, cap: nat, i: nat, others: nat, k: nat, text: string)
    requires Inv(s) && AboutToChoose(s, cap, i, others, k) && HoldsStored(s, i)
    ensures var p := s.store.value;
            && k < |p.moves|
            && Next(s, cap, TickChoose(i, others, Skip(text))).store ==
               Some(p.(moves := p.moves[k := p.moves[k].(status := Skipped, error := Some(text))]))
            && Next(s, cap, TickChoose(i, others, LaunchFails(text))).store ==
               Some(p.(moves := p.moves[k := p.moves[k].(status := Failed, error := Some(text))]))
  {
    ChoiceIs(s, cap, i, others, k);
    RecordIsAt(s, i, k, Outcome(Skipped, None, Some(text)));
    RecordIsAt(s, i, k, Outcome(Failed, None, Some(text)));
  }

  /** A start runs the task and notes the launch; the store learns of it only at the record. */
  lemma LaunchRuns(s: State, cap: nat, i: nat, others: nat, k: nat, upid: string)
    requires Inv(s) && AboutToChoose(s, cap, i, others, k) && upid !in s.upids
    ensures var s' := Next(s, cap, TickChoose(i, others, Launch(upid)));
            && s'.store == s.store && s'.running == s.running + {upid} && s'.upids == s.upids + {upid}
            && s'.launches == s.launches + [(s.ticks[i].copy.id, s.ticks[i].copy.moves[k].vmid)]
            && |s'.ticks| == |s.ticks| && s'.ticks[i].Launched? && s'.ticks[i].k == k && s'.ticks[i].upid == upid
            && s'.ticks[i].copy == s.ticks[i].copy.(moves := s.ticks[i].copy.moves[k :=
                 s.ticks[i].copy.moves[k].(status := Migrating, upid := Some(upid))])
  {
    ChoiceIs(s, cap, i, others, k);
  }

  /** A migration starts exactly when a tick that is about to choose starts one under a new task id. */
  lemma StartsExactly(s: State, cap: nat, e: Event)
    ensures Next(s, cap, e).launches != s.launches <==>
            && e.TickChoose? && e.choice.Launch? && e.choice.upid !in s.upids
            && exists k :: AboutToChoose(s, cap, e.i, e.others, k)
  {
    if e.TickChoose? && e.i < |s.ticks| && s.ticks[e.i].Polling? {
      var moves := s.ticks[e.i].copy.moves;
      InFlightIs(moves);
      var k := FirstQueued(moves);
      if k >= 0 { FirstQueuedIsFirst(moves); }
      if k >= 0 && s.ticks[e.i].next >= |moves| && e.others + InFlight(moves) < cap {
        assert AboutToChoose(s, cap, e.i, e.others, k);
      }
      if j :| AboutToChoose(s, cap, e.i, e.others, j) { ChoiceIs(s, cap, e.i, e.others, j); }
    }
  }

  lemma {:induction false} FirstQueuedIsFirst(moves: seq<Move>)
    requires FirstQueued(moves) >= 0
    ensures forall j :: 0 <= j < FirstQueued(moves) ==> moves[j].status != Queued
  {
    if moves[0].status != Queued {
      FirstQueuedIsFirst(moves[1..]);
      assert forall j :: 1 <= j < |moves| ==> moves[j] == moves[1..][j - 1];
    }
  }

  /** The record of a start stores the move as migrating under its task; a failed one stores it as failed. */
  lemma RecordStores(s: State, cap: nat, i: nat, message: string)
    requires Inv(s) && HoldsStored(s, i) && s.ticks[i].Launched?
    ensures var k, p := s.ticks[i].k, s.store.value;
            && k < |p.moves|
            && Next(s, cap, TickRecord(i)).store ==
               Some(p.(moves := p.moves[k := p.moves[k].(status := Migrating, upid := Some(s.ticks[i].upid))]))
            && Next(s, cap, TickRecordFails(i, message)).store ==
               Some(p.(moves := p.moves[k := p.moves[k].(status := Failed, error := Some(message))]))
  {
    assert TickOk(s, s.ticks[i]);
    RecordIsAt(s, i, s.ticks[i].k, Outcome(Migrating, Some(s.ticks[i].upid), None));
    RecordIsAt(s, i, s.ticks[i].k, Outcome(Failed, None, Some(message)));
  }

  /** A finishing tick completes the stored plan exactly when no move of its copy is queued or migrating. */
  lemma FinishCompletes(s: State, cap: nat, i: nat)
    requires HoldsStored(s, i) && s.ticks[i].Finishing?
    ensures Next(s, cap, TickFinish(i)).store ==
            if forall j :: 0 <= j < |s.ticks[i].copy.moves| ==>
                 s.ticks[i].copy.moves[j].status != Queued && s.ticks[i].copy.moves[j].status != Migrating
            then Some(s.store.value.(status := Completed)) else s.store
  {
  }

  /** A cancel that is carried out marks the plan and skips what is queued. */
  lemma CancelStores(s: State, cap: nat, p: nat)
    requires p < |s.pending| && s.pending[p].CancelPending? && s.store.Some? && s.store.value.id == s.pending[p].id
    ensures var before, after := s.store.value, Next(s, cap, CancelWrite(p)).store;
            && after.Some? && after.value.id == before.id && after.value.status == Cancelled
            && |after.value.moves| == |before.moves|
            && (forall j :: 0 <= j < |before.moves| && before.moves[j].status == Queued ==>
                  after.value.moves[j] == before.moves[j].(status := Skipped, error := Some("plan cancelled")))
            && (forall j :: 0 <= j < |before.moves| && before.moves[j].status != Queued ==> after.value.moves[j] == before.moves[j])
  {
  }

  // ---- Where every stored outcome comes from ----

  /** The event, at this state, writes the move's status and error, or its task, about move j of the plan. */
  predicate Writes(s: State, e: Event, id: string, j: nat, m: Move) {
    match e
    case TickPoll(i, Finished(ok, message)) =>
      && SeesEnd(s, i) && s.ticks[i].copy.id == id && s.ticks[i].next == j
      && (if ok then m.status == Done && m.error == None else m.status == Failed && m.error == Some(message))
    case TickChoose(i, _, Skip(reason)) => ChoosesMove(s, i, id, j) && m.status == Skipped && m.error == Some(reason)
    case TickChoose(i, _, LaunchFails(message)) => ChoosesMove(s, i, id, j) && m.status == Failed && m.error == Some(message)
    case TickRecord(i) => LaunchedMove(s, i, id, j) && m.status == Migrating && m.upid == Some(s.ticks[i].upid)
    case TickRecordFails(i, message) => LaunchedMove(s, i, id, j) && m.status == Failed && m.error == Some(message)
    case CancelWrite(p) =>
      p < |s.pending| && s.pending[p] == CancelPending(id) && m.status == Skipped && m.error == Some("plan cancelled")
    case _ => false
  }

  predicate ChoosesMove(s: State, i: nat, id: string, j: nat) {
    && i < |s.ticks| && s.ticks[i].Polling? && s.ticks[i].copy.id == id
    && j < |s.ticks[i].copy.moves| && s.ticks[i].copy.moves[j].status == Queued
  }

  predicate LaunchedMove(s: State, i: nat, id: string, j: nat) {
    i < |s.ticks| && s.ticks[i].Launched? && s.ticks[i].copy.id == id && s.ticks[i].k == j
  }

  function StoredMove(store: Store, id: string, j: nat): Option<Move> {
    if store.Some? && store.value.id == id && j < |store.value.moves| then Some(store.value.moves[j]) else None
  }

  lemma PollIsKnown(s: State, cap: nat, i: nat, result: PollResult, id: string, j: nat)
    requires Inv(s) && HoldsStored(s, i) && s.store.value.id == id
    ensures var e := TickPoll(i, result); var m := StoredMove(Next(s, cap, e).store, id, j);
            m == StoredMove(s.store, id, j) || (m.Some? && Writes(s, e, id, j, m.value))
  {
    if SeesEnd(s, i) && result.Finished? { PollRecords(s, cap, i, result.ok, result.message); }
  }

  lemma ChooseIsKnown(s: State, cap: nat, i: nat, others: nat, choice: Choice, id: string, j: nat)
    requires Inv(s) && HoldsStored(s, i) && s.store.value.id == id
    ensures var e := TickChoose(i, others, choice); var m := StoredMove(Next(s, cap, e).store, id, j);
            m == StoredMove(s.store, id, j) || (m.Some? && Writes(s, e, id, j, m.value))
  {
    var k := FirstQueued(s.ticks[i].copy.moves);
    if k >= 0 {
      assert s.ticks[i].copy.moves[k].status == Queued;
      if choice.Skip? { RecordIsAt(s, i, k, Outcome(Skipped, None, Some(choice.reason))); }
      if choice.LaunchFails? { RecordIsAt(s, i, k, Outcome(Failed, None, Some(choice.message))); }
    }
  }

  /** Another plan's tick writes nothing. */
  lemma OtherTickWritesNothing(s: State, cap: nat, e: Event)
    requires e.TickPoll? || e.TickChoose? || e.TickRecord? || e.TickRecordFails?
    requires !HoldsStored(s, e.i)
    ensures Next(s, cap, e).store == s.store
  {
  }

  /** Whatever one event changes about a stored move, it writes; a plan that was not stored before is all queued. */
  lemma EveryWriteIsKnown(s: State, cap: nat, e: Event, id: string, j: nat)
    requires Inv(s)
    ensures var m := StoredMove(Next(s, cap, e).store, id, j);
            m.Some? ==> (m == StoredMove(s.store, id, j) || Writes(s, e, id, j, m.value)
                        || (StoredMove(s.store, id, j).None? && m.value.status == Queued))
  {
    if e.TickPoll? || e.TickChoose? || e.TickRecord? || e.TickRecordFails? {
      if !HoldsStored(s, e.i) {
        OtherTickWritesNothing(s, cap, e);
      } else if s.store.value.id == id {
        match e {
          case TickPoll(i, result) => PollIsKnown(s, cap, i, result, id, j);
          case TickChoose(i, others, choice) => ChooseIsKnown(s, cap, i, others, choice, id, j);
          case TickRecord(i) => if s.ticks[i].Launched? { RecordStores(s, cap, i, ""); }
          case TickRecordFails(i, message) => if s.ticks[i].Launched? { RecordStores(s, cap, i, message); }
        }
      }
    }
  }

  /**
   Over whole runs: what the store says of a move at the end it said at the start, or an event of
   the run wrote it, or the plan is a new one and the move still queued. So a move is done only when
   a poll found its task ended well, failed only with the message of a poll or of a start, and skipped
   only with a tick's reason or by a cancel.
   */
  lemma {:induction false} EveryOutcomeWasWritten(s: State, cap: nat, events: seq<Event>, id: string, j: nat)
    requires Inv(s) && StoredMove(Run(s, cap, events).store, id, j).Some?
    ensures var m := StoredMove(Run(s, cap, events).store, id, j);
            || m == StoredMove(s.store, id, j)
            || (exists k :: 0 <= k < |events| && Writes(Run(s, cap, events[..k]), events[k], id, j, m.value))
            || m.value.status == Queued
    decreases |events|
  {
    if events != [] {
      var s1, rest := Next(s, cap, events[0]), events[1..];
      var m := StoredMove(Run(s, cap, events).store, id, j);
      StepKeepsInv(s, cap, events[0]);
      EveryOutcomeWasWritten(s1, cap, rest, id, j);
      if k :| 0 <= k < |rest| && Writes(Run(s1, cap, rest[..k]), rest[k], id, j, m.value) {
        assert events[..k + 1][0] == events[0] && events[..k + 1][1..] == rest[..k];
        assert Writes(Run(s, cap, events[..k + 1]), events[k + 1], id, j, m.value);
      } else if m == StoredMove(s1.store, id, j) {
        EveryWriteIsKnown(s, cap, events[0], id, j);
        assert events[..0] == [];
        assert Run(s, cap, events[..0]) == s;
      }
    }
  }

  /** In particular, from the start, a move is shown as done only if a poll found its task ended with success. */
  lemma {:induction false} DoneWasReported(cap: nat, events: seq<Event>, id: string, j: nat)
    requires var m := StoredMove(Run(START, cap, events).store, id, j); m.Some? && m.value.status == Done
    ensures exists k :: 0 <= k < |events| && events[k].TickPoll? && events[k].result.Finished? && events[k].result.ok
                        && SeesEnd(Run(START, cap, events[..k]), events[k].i)
                        && Run(START, cap, events[..k]).ticks[events[k].i].copy.id == id
                        && Run(START, cap, events[..k]).ticks[events[k].i].next == j
  {
    EveryOutcomeWasWritten(START, cap, events, id, j);
    var m := StoredMove(Run(START, cap, events).store, id, j);
    var k :| 0 <= k < |events| && Writes(Run(START, cap, events[..k]), events[k], id, j, m.value);
  }
}
