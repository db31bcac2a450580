/**
 The rebalance plan under full interleaving: store transactions are atomic, but an action that
 reads first and writes later, and an executor tick that works through a copy, can be overtaken
 between their steps. A tick that times out is not stopped, so any number of ticks may be under
 way at once.
 */
module PlanProtocol {
  import opened Options
  import opened PlanStore

  // ---- State ----

  /** An action between its read and its write, with the plans applied since the read. */
  datatype Pending =
    | ComputePending(appliedSince: set<string>)
    | ClearPending(appliedSince: set<string>)
    | CancelPending(id: string)

  /** An executor tick: it holds a copy of the plan it read. */
  datatype Tick =
    | Over
    | Polling(copy: Plan, next: nat)
    | Launched(copy: Plan, k: nat, upid: string)
    | Finishing(copy: Plan)

  /**
   The stored plan, all ticks ever started, the actions under way; the plan ids ever saved and
   ever ended; the migrations started, their task ids, and the tasks still running.
   */
  datatype State = State(
    store: Store,
    ticks: seq<Tick>,
    pending: seq<Pending>,
    used: set<string>,
    ended: set<string>,
    launches: seq<(string, int)>,
    upids: set<string>,
    running: set<string>)

  /** The end of a task may be learned while the store cannot be written; the tick goes on. */
  datatype PollResult = StillRunning | Finished(ok: bool, message: string) | Unstored(ok: bool, message: string)

  datatype Choice = Skip(reason: string) | Launch(upid: string) | LaunchFails(message: string)

  datatype Event =
    | ComputeRead
    | ComputeWrite(p: nat, freshId: string, vmids: seq<int>)
    | ApplyEvent(id: string)
    | CancelRead(id: string)
    | CancelWrite(p: nat)
    | TickRead
    | TickPoll(i: nat, result: PollResult)
    | TickChoose(i: nat, others: nat, choice: Choice)
    | TickRecord(i: nat)
    | TickRecordFails(i: nat, message: string)
    | TickFinish(i: nat)
    | TickAbort(i: nat)
    | TaskEnds(upid: string)

  predicate IsEnded(status: PlanStatus) {
    status == Completed || status == Cancelled
  }

  predicate DistinctVmids(moves: seq<Move>) {
    forall i, j :: 0 <= i < j < |moves| ==> moves[i].vmid != moves[j].vmid
  }

  predicate NoneQueued(moves: seq<Move>) {
    forall i :: 0 <= i < |moves| ==> moves[i].status != Queued
  }

  predicate Unresolved(moves: seq<Move>) {
    exists i :: 0 <= i < |moves| && (moves[i].status == Queued || moves[i].status == Migrating)
  }

  function InFlight(moves: seq<Move>): nat {
    if moves == [] then 0
    else InFlight(moves[..|moves| - 1]) + if moves[|moves| - 1].status == Migrating then 1 else 0
  }

  /** The first queued move, or -1. */
  function FirstQueued(moves: seq<Move>): (r: int)
    ensures -1 <= r < |moves|
    ensures r >= 0 ==> moves[r].status == Queued
    ensures r < 0 <==> NoneQueued(moves)
  {
    if moves == [] then -1
    else if moves[0].status == Queued then 0
    else
      var rest := FirstQueued(moves[1..]);
      assert forall i :: 1 <= i < |moves| ==> moves[i] == moves[1..][i - 1];
      if rest < 0 then -1 else rest + 1
  }

  function WithoutPending(pending: seq<Pending>, p: nat): seq<Pending>
    requires p < |pending|
  {
    pending[..p] + pending[p + 1..]
  }

  function NoteApplied(pending: seq<Pending>, id: string): (r: seq<Pending>)
    ensures |r| == |pending|
    ensures forall i :: 0 <= i < |r| ==>
              r[i] == if pending[i].CancelPending? then pending[i] else pending[i].(appliedSince := pending[i].appliedSince + {id})
  {
    seq(|pending|, i requires 0 <= i < |pending| =>
      if pending[i].CancelPending? then pending[i] else pending[i].(appliedSince := pending[i].appliedSince + {id}))
  }

  /** The ids that have ended, after a store transaction. */
  function NoteEnded(ended: set<string>, store: Store): set<string> {
    if store.Some? && IsEnded(store.value.status) then ended + {store.value.id} else ended
  }

  function Written(s: State, store: Store): State {
    s.(store := store, ended := NoteEnded(s.ended, store))
  }

  function WithTick(s: State, i: nat, t: Tick): State
    requires i < |s.ticks|
  {
    s.(ticks := s.ticks[i := t])
  }

  function Record(store: Store, id: string, vmid: int, o: Outcome): Store {
    Update(store, id, (p: Plan) => Recorded(p, vmid, o))
  }

  function SetLocal(p: Plan, k: nat, o: Outcome): Plan
    requires k < |p.moves|
  {
    p.(moves := p.moves[k := WithOutcome(p.moves[k], o)])
  }

  function Complete(p: Plan): Plan {
    p.(status := Completed)
  }

  function PollOutcome(ok: bool, message: string): Outcome {
    if ok then Outcome(Done, None, None) else Outcome(Failed, None, Some(message))
  }

  // ---- Steps ----

  /** A task is reported finished only when it no longer runs. */
  function PollStep(s: State, i: nat, result: PollResult): State
    requires i < |s.ticks| && s.ticks[i].Polling? && s.ticks[i].next < |s.ticks[i].copy.moves|
  {
    var copy, n := s.ticks[i].copy, s.ticks[i].next;
    if copy.moves[n].status != Migrating || copy.moves[n].upid.None? || result.StillRunning? then
      WithTick(s, i, Polling(copy, n + 1))
    else if copy.moves[n].upid.value in s.running then s
    else
      var o := PollOutcome(result.ok, result.message);
      var s' := if result.Unstored? then s else Written(s, Record(s.store, copy.id, copy.moves[n].vmid, o));
      WithTick(s', i, Polling(SetLocal(copy, n, o), n + 1))
  }

  /** The tick starts a migration: its own count leaves room, and the task id is a new one. */
  predicate Starts(s: State, cap: nat, e: Event) {
    && e.TickChoose? && e.choice.Launch? && e.choice.upid !in s.upids
    && e.i < |s.ticks| && s.ticks[e.i].Polling? && s.ticks[e.i].next >= |s.ticks[e.i].copy.moves|
    && e.others + InFlight(s.ticks[e.i].copy.moves) < cap && FirstQueued(s.ticks[e.i].copy.moves) >= 0
  }

  function ChooseStep(s: State, cap: nat, i: nat, others: nat, choice: Choice): State
    requires i < |s.ticks| && s.ticks[i].Polling?
  {
    var copy, k := s.ticks[i].copy, FirstQueued(s.ticks[i].copy.moves);
    if others + InFlight(copy.moves) >= cap || k < 0 then WithTick(s, i, Finishing(copy))
    else
      var vmid := copy.moves[k].vmid;
      match choice
      case Launch(upid) =>
        if upid in s.upids then s
        else WithTick(s, i, Launched(SetLocal(copy, k, Outcome(Migrating, Some(upid), None)), k, upid))
             .(launches := s.launches + [(copy.id, vmid)], upids := s.upids + {upid}, running := s.running + {upid})
      case Skip(reason) =>
        var o := Outcome(Skipped, None, Some(reason));
        WithTick(Written(s, Record(s.store, copy.id, vmid, o)), i, Finishing(SetLocal(copy, k, o)))
      case LaunchFails(message) =>
        var o := Outcome(Failed, None, Some(message));
        WithTick(Written(s, Record(s.store, copy.id, vmid, o)), i, Finishing(SetLocal(copy, k, o)))
  }

  /**
   One event; an event that is not possible changes nothing. cap is the configured maximum of
   migrations. A computed plan has a fresh id and names no guest twice; otherwise nothing is written.
   A migration that was started is recorded as failed when the answer to its start, or the write of
   its record, is lost.
   */
  function Next(s: State, cap: nat, e: Event): State {
    match e
    case ComputeRead =>
      if s.store.Some? && s.store.value.status == Active then s
      else s.(pending := s.pending + [ComputePending({})])
    case ComputeWrite(p, freshId, vmids) =>
      if p >= |s.pending| || !s.pending[p].ComputePending? then s
      else
        var rest := s.(pending := WithoutPending(s.pending, p));
        if vmids == [] then rest.(store := None)
        else if freshId in s.used || !DistinctVmids(QueuedMoves(vmids)) then rest
        else rest.(store := Some(DraftPlan(freshId, vmids)), used := s.used + {freshId})
    case ApplyEvent(id) =>
      s.(store := Update(s.store, id, Applied), pending := NoteApplied(s.pending, id))
    case CancelRead(id) =>
      if s.store.None? || s.store.value.id != id then s
      else if s.store.value.status == Active then s.(pending := s.pending + [CancelPending(id)])
      else s.(pending := s.pending + [ClearPending({})])
    case CancelWrite(p) =>
      if p >= |s.pending| || s.pending[p].ComputePending? then s
      else
        var rest := s.(pending := WithoutPending(s.pending, p));
        if s.pending[p].ClearPending? then rest.(store := None)
        else Written(rest, Update(s.store, s.pending[p].id, CancelledPlan))
    case TickRead =>
      if s.store.None? || s.store.value.status != Active then s
      else s.(ticks := s.ticks + [Polling(s.store.value, 0)])
    case TickPoll(i, result) =>
      if i >= |s.ticks| || !s.ticks[i].Polling? || s.ticks[i].next >= |s.ticks[i].copy.moves| then s
      else PollStep(s, i, result)
    case TickChoose(i, others, choice) =>
      if i >= |s.ticks| || !s.ticks[i].Polling? || s.ticks[i].next < |s.ticks[i].copy.moves| then s
      else ChooseStep(s, cap, i, others, choice)
    case TickRecord(i) =>
      if i >= |s.ticks| || !s.ticks[i].Launched? || s.ticks[i].k >= |s.ticks[i].copy.moves| then s
      else
        var t := s.ticks[i];
        WithTick(Written(s, Record(s.store, t.copy.id, t.copy.moves[t.k].vmid, Outcome(Migrating, Some(t.upid), None))),
                 i, Finishing(t.copy))
    case TickRecordFails(i, message) =>
      if i >= |s.ticks| || !s.ticks[i].Launched? || s.ticks[i].k >= |s.ticks[i].copy.moves| then s
      else
        var t, o := s.ticks[i], Outcome(Failed, None, Some(message));
        WithTick(Written(s, Record(s.store, t.copy.id, t.copy.moves[t.k].vmid, o)), i, Finishing(SetLocal(t.copy, t.k, o)))
    case TickFinish(i) =>
      if i >= |s.ticks| || !s.ticks[i].Finishing? then s
      else if Unresolved(s.ticks[i].copy.moves) then WithTick(s, i, Over)
      else WithTick(Written(s, Update(s.store, s.ticks[i].copy.id, Complete)), i, Over)
    case TickAbort(i) =>
      if i >= |s.ticks| then s else WithTick(s, i, Over)
    case TaskEnds(upid) => s.(running := s.running - {upid})
  }

  function Run(s: State, cap: nat, events: seq<Event>): State
    decreases |events|
  {
    if events == [] then s else Run(Next(s, cap, events[0]), cap, events[1..])
  }

  const START := State(None, [], [], {}, {}, [], {}, {})

  // ---- The invariant ----

  ghost predicate HaveUpids(moves: seq<Move>) {
    forall i :: 0 <= i < |moves| && moves[i].status == Migrating ==> moves[i].upid.Some?
  }

  /** What left the queue in a tick's copy has left it in the stored plan, the migration being recorded aside. */
  ghost predicate Follows(copy: Plan, stored: Plan, except: int) {
    && stored.status != Draft
    && |copy.moves| == |stored.moves|
    && forall i :: 0 <= i < |copy.moves| ==>
         && copy.moves[i].vmid == stored.moves[i].vmid
         && (i != except && copy.moves[i].status != Queued ==> stored.moves[i].status != Queued)
  }

  function Exception(t: Tick): int {
    if t.Launched? then t.k else -1
  }

  ghost predicate TickOk(s: State, t: Tick) {
    t.Over? ||
    (&& t.copy.id in s.used && DistinctVmids(t.copy.moves) && HaveUpids(t.copy.moves)
     && (t.Polling? ==> t.next <= |t.copy.moves|)
     && (t.Launched? ==> t.k < |t.copy.moves| && t.copy.moves[t.k].status == Migrating && t.copy.moves[t.k].upid == Some(t.upid))
     && (s.store.Some? && s.store.value.id == t.copy.id ==> Follows(t.copy, s.store.value, Exception(t))))
  }

  ghost predicate StoreOk(s: State) {
    s.store.None? ||
    (var p := s.store.value;
     && p.id in s.used && DistinctVmids(p.moves) && HaveUpids(p.moves)
     && (p.id in s.ended <==> IsEnded(p.status))
     && (IsEnded(p.status) ==> NoneQueued(p.moves)))
  }

  ghost predicate PendingOk(s: State, q: Pending) {
    match q
    case CancelPending(id) => id in s.used && (s.store.Some? && s.store.value.id == id ==> s.store.value.status != Draft)
    case _ => s.store.Some? && s.store.value.status == Active ==> s.store.value.id in q.appliedSince
  }

  ghost predicate Inv(s: State) {
    && s.ended <= s.used && s.running <= s.upids
    && StoreOk(s)
    && (forall i :: 0 <= i < |s.ticks| ==> TickOk(s, s.ticks[i]))
    && (forall i :: 0 <= i < |s.pending| ==> PendingOk(s, s.pending[i]))
  }

  // ---- Small facts about moves ----

  lemma {:induction false} FindIsIndex(moves: seq<Move>, k: nat)
    requires k < |moves| && DistinctVmids(moves)
    ensures FindMove(moves, moves[k].vmid) == k
  {
    assert moves[k].vmid == moves[k].vmid;
  }

  lemma {:induction false} InFlightMonotone(a: seq<Move>, b: seq<Move>)
    requires |a| == |b| && forall i :: 0 <= i < |a| && a[i].status == Migrating ==> b[i].status == Migrating
    ensures InFlight(a) <= InFlight(b)
  {
    if a != [] { InFlightMonotone(a[..|a| - 1], b[..|b| - 1]); }
  }

  lemma {:induction false} InFlightUpdate(moves: seq<Move>, k: nat, m: Move)
    requires k < |moves|
    ensures InFlight(moves[k := m]) ==
            InFlight(moves) + (if m.status == Migrating then 1 else 0) - (if moves[k].status == Migrating then 1 else 0)
  {
    var init, updated := moves[..|moves| - 1], moves[k := m];
    if k < |moves| - 1 {
      assert updated[..|moves| - 1] == init[k := m];
      InFlightUpdate(init, k, m);
    } else {
      assert updated[..|moves| - 1] == init;
    }
  }

  lemma {:induction false} NoneInFlight(moves: seq<Move>)
    requires forall i :: 0 <= i < |moves| ==> moves[i].status != Migrating
    ensures InFlight(moves) == 0
  {
    if moves != [] { NoneInFlight(moves[..|moves| - 1]); }
  }

  /** Writing one guest's outcome into distinct moves changes that guest's move only. */
  lemma RecordedAt(p: Plan, k: nat, o: Outcome)
    requires k < |p.moves| && DistinctVmids(p.moves)
    ensures Recorded(p, p.moves[k].vmid, o) == SetLocal(p, k, o)
    ensures DistinctVmids(SetLocal(p, k, o).moves)
  {
    FindIsIndex(p.moves, k);
  }

  // ---- Every step keeps the invariant ----

  /** p continues the stored plan: no move returns to the queue, and an ended plan stays ended. */
  ghost predicate Continues(before: Plan, p: Plan) {
    && p.id == before.id && |p.moves| == |before.moves|
    && (forall i :: 0 <= i < |p.moves| ==>
          && p.moves[i].vmid == before.moves[i].vmid
          && (before.moves[i].status != Queued ==> p.moves[i].status != Queued))
    && HaveUpids(p.moves)
    && (IsEnded(before.status) ==> IsEnded(p.status)) && (IsEnded(p.status) ==> NoneQueued(p.moves))
    && (p.status == before.status || IsEnded(p.status))
  }

  /** A transaction that continues the stored plan keeps every tick and every action in order. */
  lemma ContinuingKeepsInv(s: State, p: Plan)
    requires Inv(s) && s.store.Some? && Continues(s.store.value, p)
    ensures Inv(Written(s, Some(p)))
  {
    var s' := Written(s, Some(p));
    assert forall i, j :: 0 <= i < j < |p.moves| ==> p.moves[i].vmid == s.store.value.moves[i].vmid && p.moves[j].vmid == s.store.value.moves[j].vmid;
    forall i | 0 <= i < |s.ticks| ensures TickOk(s', s'.ticks[i]) {
      assert TickOk(s, s.ticks[i]);
    }
    forall i | 0 <= i < |s.pending| ensures PendingOk(s', s'.pending[i]) {
      assert PendingOk(s, s.pending[i]);
    }
  }

  lemma TickKeepsInv(s: State, i: nat, t: Tick)
    requires Inv(s) && i < |s.ticks| && TickOk(s, t)
    ensures Inv(WithTick(s, i, t))
  {
    var s' := WithTick(s, i, t);
    forall j | 0 <= j < |s'.ticks| ensures TickOk(s', s'.ticks[j]) {
      assert j != i ==> TickOk(s, s.ticks[j]);
    }
    assert forall j :: 0 <= j < |s.pending| ==> PendingOk(s, s.pending[j]);
  }

  lemma DroppingPendingKeepsInv(s: State, p: nat)
    requires Inv(s) && p < |s.pending|
    ensures Inv(s.(pending := WithoutPending(s.pending, p)))
  {
    var rest := s.(pending := WithoutPending(s.pending, p));
    assert forall i :: 0 <= i < |rest.pending| ==> rest.pending[i] == s.pending[if i < p then i else i + 1];
    assert forall i :: 0 <= i < |s.ticks| ==> TickOk(s, s.ticks[i]);
  }

  /** Replacing the stored plan by none or by a new draft: nothing under way concerns the new one. */
  lemma ReplacingKeepsInv(s: State, store: Store, used: set<string>)
    requires Inv(s) && s.used <= used
    requires store.Some? ==> exists vmids :: store == Some(DraftPlan(store.value.id, vmids)) && DistinctVmids(QueuedMoves(vmids))
    requires store.Some? ==> store.value.id !in s.used && store.value.id in used
    ensures Inv(s.(store := store, used := used))
  {
    var s' := s.(store := store, used := used);
    forall i | 0 <= i < |s.ticks| ensures TickOk(s', s'.ticks[i]) {
      assert TickOk(s, s.ticks[i]);
    }
    forall i | 0 <= i < |s.pending| ensures PendingOk(s', s'.pending[i]) {
      assert PendingOk(s, s.pending[i]);
    }
  }

  lemma ComputeKeepsInv(s: State, cap: nat, p: nat, freshId: string, vmids: seq<int>)
    requires Inv(s)
    ensures Inv(Next(s, cap, ComputeWrite(p, freshId, vmids)))
  {
    if p < |s.pending| && s.pending[p].ComputePending? {
      var rest := s.(pending := WithoutPending(s.pending, p));
      DroppingPendingKeepsInv(s, p);
      if vmids == [] {
        ReplacingKeepsInv(rest, None, s.used);
      } else if freshId !in s.used && DistinctVmids(QueuedMoves(vmids)) {
        ReplacingKeepsInv(rest, Some(DraftPlan(freshId, vmids)), s.used + {freshId});
      }
    }
  }

  lemma ReadKeepsInv(s: State, cap: nat, e: Event)
    requires Inv(s) && (e.ComputeRead? || e.CancelRead? || e.TickRead? || e.TaskEnds?)
    ensures Inv(Next(s, cap, e))
  {
    var s' := Next(s, cap, e);
    forall i | 0 <= i < |s'.ticks| ensures TickOk(s', s'.ticks[i]) {
      assert i < |s.ticks| ==> TickOk(s, s.ticks[i]);
    }
    forall i | 0 <= i < |s'.pending| ensures PendingOk(s', s'.pending[i]) {
      assert i < |s.pending| ==> PendingOk(s, s.pending[i]);
    }
  }

  lemma ApplyKeepsInv(s: State, cap: nat, id: string)
    requires Inv(s)
    ensures Inv(Next(s, cap, ApplyEvent(id)))
  {
    var s' := Next(s, cap, ApplyEvent(id));
    forall i | 0 <= i < |s'.ticks| ensures TickOk(s', s'.ticks[i]) {
      assert TickOk(s, s.ticks[i]);
    }
    forall i | 0 <= i < |s'.pending| ensures PendingOk(s', s'.pending[i]) {
      assert PendingOk(s, s.pending[i]);
    }
  }

  lemma CancelKeepsInv(s: State, cap: nat, p: nat)
    requires Inv(s)
    ensures Inv(Next(s, cap, CancelWrite(p)))
  {
    if p < |s.pending| && !s.pending[p].ComputePending? {
      var rest := s.(pending := WithoutPending(s.pending, p));
      DroppingPendingKeepsInv(s, p);
      if s.pending[p].ClearPending? {
        ReplacingKeepsInv(rest, None, s.used);
      } else {
        WritingKeepsInv(rest);
        if s.store.Some? && s.store.value.id == s.pending[p].id {
          ContinuingKeepsInv(rest, CancelledPlan(s.store.value));
        }
      }
    }
  }

  lemma WritingKeepsInv(s: State)
    requires Inv(s)
    ensures Written(s, s.store) == s
  {
    if s.store.Some? && IsEnded(s.store.value.status) { assert s.ended + {s.store.value.id} == s.ended; }
  }

  /** The stored plan after a write about move k of a live tick's copy, when it is that plan. */
  lemma RecordIsAt(s: State, i: nat, k: nat, o: Outcome)
    requires Inv(s) && i < |s.ticks| && !s.ticks[i].Over? && k < |s.ticks[i].copy.moves|
    requires s.store.Some? && s.store.value.id == s.ticks[i].copy.id
    ensures k < |s.store.value.moves|
    ensures Record(s.store, s.ticks[i].copy.id, s.ticks[i].copy.moves[k].vmid, o) == Some(SetLocal(s.store.value, k, o))
  {
    assert TickOk(s, s.ticks[i]);
    RecordedAt(s.store.value, k, o);
  }

  /** A tick writes an outcome about move k of its copy and goes on as t. */
  lemma RecordKeepsInv(s: State, i: nat, k: nat, o: Outcome, t: Tick)
    requires Inv(s) && i < |s.ticks| && !s.ticks[i].Over? && k < |s.ticks[i].copy.moves|
    requires o.status != Queued && (o.status == Migrating ==> o.upid.Some?)
    requires (t.Polling? && t.next <= |t.copy.moves|) || t.Finishing?
    requires s.ticks[i].Launched? ==> k == s.ticks[i].k
    requires t.copy == SetLocal(s.ticks[i].copy, k, o) || (s.ticks[i].Launched? && t.copy == s.ticks[i].copy)
    ensures Inv(WithTick(Written(s, Record(s.store, s.ticks[i].copy.id, s.ticks[i].copy.moves[k].vmid, o)), i, t))
  {
    var copy := s.ticks[i].copy;
    assert TickOk(s, s.ticks[i]);
    RecordedAt(copy, k, o);
    if s.store.Some? && s.store.value.id == copy.id {
      RecordIsAt(s, i, k, o);
      var p := SetLocal(s.store.value, k, o);
      ContinuingKeepsInv(s, p);
      RecordFollows(copy, s.store.value, k, o, Exception(s.ticks[i]));
      TickKeepsInv(Written(s, Some(p)), i, t);
    } else {
      WritingKeepsInv(s);
      TickKeepsInv(s, i, t);
    }
  }

  lemma RecordFollows(copy: Plan, stored: Plan, k: nat, o: Outcome, except: int)
    requires Follows(copy, stored, except) && k < |copy.moves| && o.status != Queued
    requires except < 0 || except == k
    ensures Follows(copy, SetLocal(stored, k, o), -1) && Follows(SetLocal(copy, k, o), SetLocal(stored, k, o), -1)
  {
  }

  lemma PollKeepsInv(s: State, cap: nat, i: nat, result: PollResult)
    requires Inv(s)
    ensures Inv(Next(s, cap, TickPoll(i, result)))
  {
    if i < |s.ticks| && s.ticks[i].Polling? && s.ticks[i].next < |s.ticks[i].copy.moves| {
      var copy, n := s.ticks[i].copy, s.ticks[i].next;
      assert TickOk(s, s.ticks[i]);
      if copy.moves[n].status != Migrating || copy.moves[n].upid.None? || result.StillRunning? {
        TickKeepsInv(s, i, Polling(copy, n + 1));
      } else if copy.moves[n].upid.value !in s.running {
        var o := PollOutcome(result.ok, result.message);
        if result.Unstored? {
          RecordedAt(copy, n, o);
          TickKeepsInv(s, i, Polling(SetLocal(copy, n, o), n + 1));
        } else {
          RecordKeepsInv(s, i, n, o, Polling(SetLocal(copy, n, o), n + 1));
        }
      }
    }
  }

  lemma LaunchKeepsInv(s: State, i: nat, k: nat, upid: string)
    requires Inv(s) && i < |s.ticks| && s.ticks[i].Polling? && k < |s.ticks[i].copy.moves|
    requires s.ticks[i].copy.moves[k].status == Queued
    ensures var copy := s.ticks[i].copy;
            Inv(WithTick(s, i, Launched(SetLocal(copy, k, Outcome(Migrating, Some(upid), None)), k, upid)))
  {
    assert TickOk(s, s.ticks[i]);
    var o := Outcome(Migrating, Some(upid), None);
    RecordedAt(s.ticks[i].copy, k, o);
    TickKeepsInv(s, i, Launched(SetLocal(s.ticks[i].copy, k, o), k, upid));
  }

  lemma StartingKeepsInv(s: State, launches: seq<(string, int)>, upid: string)
    requires Inv(s)
    ensures Inv(s.(launches := launches, upids := s.upids + {upid}, running := s.running + {upid}))
  {
    assert forall i :: 0 <= i < |s.ticks| ==> TickOk(s, s.ticks[i]);
    assert forall i :: 0 <= i < |s.pending| ==> PendingOk(s, s.pending[i]);
  }

  lemma ChooseKeepsInv(s: State, cap: nat, i: nat, others: nat, choice: Choice)
    requires Inv(s)
    ensures Inv(Next(s, cap, TickChoose(i, others, choice)))
  {
    if i < |s.ticks| && s.ticks[i].Polling? && s.ticks[i].next >= |s.ticks[i].copy.moves| {
      var copy, k := s.ticks[i].copy, FirstQueued(s.ticks[i].copy.moves);
      assert TickOk(s, s.ticks[i]);
      if others + InFlight(copy.moves) >= cap || k < 0 {
        TickKeepsInv(s, i, Finishing(copy));
      } else if choice.Launch? {
        if choice.upid !in s.upids {
          LaunchKeepsInv(s, i, k, choice.upid);
          var o := Outcome(Migrating, Some(choice.upid), None);
          StartingKeepsInv(WithTick(s, i, Launched(SetLocal(copy, k, o), k, choice.upid)),
                           s.launches + [(copy.id, copy.moves[k].vmid)], choice.upid);
        }
      } else {
        var o := if choice.Skip? then Outcome(Skipped, None, Some(choice.reason)) else Outcome(Failed, None, Some(choice.message));
        RecordKeepsInv(s, i, k, o, Finishing(SetLocal(copy, k, o)));
      }
    }
  }

  /** A tick that completes the plan leaves no queued move behind: every move left the queue in its copy. */
  lemma FinishKeepsInv(s: State, cap: nat, i: nat)
    requires Inv(s)
    ensures Inv(Next(s, cap, TickFinish(i)))
  {
    if i < |s.ticks| && s.ticks[i].Finishing? {
      var copy := s.ticks[i].copy;
      assert TickOk(s, s.ticks[i]);
      if Unresolved(copy.moves) {
        TickKeepsInv(s, i, Over);
      } else {
        if s.store.Some? && s.store.value.id == copy.id {
          ContinuingKeepsInv(s, Complete(s.store.value));
        }
        WritingKeepsInv(s);
        TickKeepsInv(Written(s, Update(s.store, copy.id, Complete)), i, Over);
      }
    }
  }

  /** The invariant holds after every event, whatever overtakes what. */
  lemma StepKeepsInv(s: State, cap: nat, e: Event)
    requires Inv(s)
    ensures Inv(Next(s, cap, e))
  {
    match e {
      case ComputeWrite(p, freshId, vmids) => ComputeKeepsInv(s, cap, p, freshId, vmids);
      case ApplyEvent(id) => ApplyKeepsInv(s, cap, id);
      case CancelWrite(p) => CancelKeepsInv(s, cap, p);
      case TickPoll(i, result) => PollKeepsInv(s, cap, i, result);
      case TickChoose(i, others, choice) => ChooseKeepsInv(s, cap, i, others, choice);
      case TickRecord(i) =>
        if i < |s.ticks| && s.ticks[i].Launched? {
          assert TickOk(s, s.ticks[i]);
          RecordKeepsInv(s, i, s.ticks[i].k, Outcome(Migrating, Some(s.ticks[i].upid), None), Finishing(s.ticks[i].copy));
        }
      case TickRecordFails(i, message) =>
        if i < |s.ticks| && s.ticks[i].Launched? {
          var t, o := s.ticks[i], Outcome(Failed, None, Some(message));
          assert TickOk(s, t);
          RecordKeepsInv(s, i, t.k, o, Finishing(SetLocal(t.copy, t.k, o)));
        }
      case TickFinish(i) => FinishKeepsInv(s, cap, i);
      case TickAbort(i) => if i < |s.ticks| { TickKeepsInv(s, i, Over); }
      case _ => ReadKeepsInv(s, cap, e);
    }
  }

  lemma {:induction false} RunKeepsInv(s: State, cap: nat, events: seq<Event>)
    requires Inv(s)
    ensures Inv(Run(s, cap, events))
    decreases |events|
  {
    if events != [] {
      StepKeepsInv(s, cap, events[0]);
      RunKeepsInv(Next(s, cap, events[0]), cap, events[1..]);
    }
  }
}
