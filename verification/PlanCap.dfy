/**
 The cap on migrations, as far as the plan goes: what the stored plan shows, and what really runs
 beside a given number of other migrations. Each keeps to the cap in every run that obeys certain
 rules, which the code does not enforce.
 */
module PlanCap {
  import opened Options
  import opened PlanStore
  import opened PlanProtocol

  // ---- Exceeding the cap ----

  /** Starting this migration puts more of them in flight than the cap allows. */
  predicate Overruns(s: State, cap: nat, e: Event) {
    Starts(s, cap, e) && e.others + |Next(s, cap, e).running| > cap
  }

  ghost predicate NeverOverruns(s: State, cap: nat, events: seq<Event>)
    decreases |events|
  {
    events == [] || (!Overruns(s, cap, events[0]) && NeverOverruns(Next(s, cap, events[0]), cap, events[1..]))
  }

  /**
   A tick starts a migration too many exactly when its own count leaves room while the migrations
   that really run already fill the cap.
   */
  lemma OverrunsExactly(s: State, cap: nat, e: Event)
    requires Inv(s) && e.TickChoose? && e.i < |s.ticks| && !s.ticks[e.i].Over?
    ensures Overruns(s, cap, e) <==>
            Starts(s, cap, e) && e.others + InFlight(s.ticks[e.i].copy.moves) < cap <= e.others + |s.running|
  {
    if Starts(s, cap, e) {
      assert e.choice.upid !in s.running;
      assert Next(s, cap, e).running == s.running + {e.choice.upid};
    }
  }

  // ---- The rules ----

  /**
   No tick is read while another is under way; no plan is dropped from the store while work on it
   goes on; no start goes unrecorded; no end that a tick learns of goes unstored.
   */
  datatype Rule = OneTick | KeepPlan | RecordStart | StoreEnd

  predicate AllOver(s: State) {
    forall i :: 0 <= i < |s.ticks| ==> s.ticks[i].Over?
  }

  predicate Drops(s: State, s': State) {
    s.store.Some? && (s'.store.None? || s'.store.value.id != s.store.value.id)
  }

  predicate Obeys(s: State, cap: nat, e: Event, rule: Rule) {
    match rule
    case OneTick => e.TickRead? ==> AllOver(s)
    case KeepPlan => Drops(s, Next(s, cap, e)) ==> AllOver(s) && s.running == {}
    case RecordStart => (e.TickAbort? || e.TickRecordFails?) && e.i < |s.ticks| ==> !s.ticks[e.i].Launched?
    case StoreEnd => !(e.TickPoll? && e.result.Unstored?)
  }

  ghost predicate Obey(s: State, cap: nat, events: seq<Event>, rules: set<Rule>)
    decreases |events|
  {
    events == [] ||
    ((forall r :: r in rules ==> Obeys(s, cap, events[0], r)) && Obey(Next(s, cap, events[0]), cap, events[1..], rules))
  }

  const STORED_RULES := {OneTick, StoreEnd}
  const RUNNING_RULES := {OneTick, KeepPlan, RecordStart}

  // ---- The stored plan, when ticks do not overlap ----

  ghost predicate AtMostOneTick(s: State) {
    forall i, j :: 0 <= i < |s.ticks| && 0 <= j < |s.ticks| && !s.ticks[i].Over? && !s.ticks[j].Over? ==> i == j
  }

  /** Every move stored as migrating is migrating in the copy. */
  ghost predicate Covers(copy: Plan, stored: Plan) {
    && |copy.moves| == |stored.moves|
    && forall k :: 0 <= k < |copy.moves| && stored.moves[k].status == Migrating ==> copy.moves[k].status == Migrating
  }

  ghost predicate CopyCounts(s: State, cap: nat, t: Tick) {
    t.Over? ||
    (InFlight(t.copy.moves) <= cap
     && (s.store.Some? && s.store.value.id == t.copy.id ==> Covers(t.copy, s.store.value)))
  }

  ghost predicate StoredInv(s: State, cap: nat) {
    && Inv(s) && AtMostOneTick(s)
    && (s.store.Some? ==> InFlight(s.store.value.moves) <= cap)
    && forall i :: 0 <= i < |s.ticks| ==> CopyCounts(s, cap, s.ticks[i])
  }

  /** One tick goes on as t with a new stored plan; there is no other tick. */
  lemma TickMoves(s: State, s': State, cap: nat, i: nat, t: Tick)
    requires StoredInv(s, cap) && i < |s.ticks| && !s.ticks[i].Over? && Inv(s')
    requires s'.ticks == s.ticks[i := t] && CopyCounts(s', cap, t)
    requires s'.store.Some? ==> InFlight(s'.store.value.moves) <= cap
    ensures StoredInv(s', cap)
  {
    forall j | 0 <= j < |s'.ticks| ensures CopyCounts(s', cap, s'.ticks[j]) {
      assert j != i ==> s'.ticks[j] == s.ticks[j] && s.ticks[j].Over?;
    }
  }

  /** The same write to copy and stored plan keeps the copy covering it. */
  lemma WriteKeepsCover(copy: Plan, stored: Plan, k: nat, o: Outcome)
    requires Covers(copy, stored) && k < |copy.moves|
    ensures Covers(SetLocal(copy, k, o), SetLocal(stored, k, o))
    ensures copy.moves[k].status == Migrating ==> Covers(copy, SetLocal(stored, k, o))
  {
  }

  lemma OutcomeKeepsStored(s: State, cap: nat, i: nat, k: nat, o: Outcome, t: Tick)
    requires StoredInv(s, cap) && i < |s.ticks| && !s.ticks[i].Over? && k < |s.ticks[i].copy.moves|
    requires !t.Over? && InFlight(t.copy.moves) <= cap && t.copy.id == s.ticks[i].copy.id
    requires t.copy == SetLocal(s.ticks[i].copy, k, o) || (t.copy == s.ticks[i].copy && t.copy.moves[k].status == Migrating)
    requires Inv(WithTick(Written(s, Record(s.store, s.ticks[i].copy.id, s.ticks[i].copy.moves[k].vmid, o)), i, t))
    ensures StoredInv(WithTick(Written(s, Record(s.store, s.ticks[i].copy.id, s.ticks[i].copy.moves[k].vmid, o)), i, t), cap)
  {
    var copy := s.ticks[i].copy;
    var s' := WithTick(Written(s, Record(s.store, copy.id, copy.moves[k].vmid, o)), i, t);
    assert CopyCounts(s, cap, s.ticks[i]);
    if s.store.Some? && s.store.value.id == copy.id {
      RecordIsAt(s, i, k, o);
      WriteKeepsCover(copy, s.store.value, k, o);
      InFlightMonotone(s'.store.value.moves, t.copy.moves);
    }
    TickMoves(s, s', cap, i, t);
  }

  lemma PollKeepsStored(s: State, cap: nat, i: nat, result: PollResult)
    requires StoredInv(s, cap) && !result.Unstored?
    ensures StoredInv(Next(s, cap, TickPoll(i, result)), cap)
  {
    PollKeepsInv(s, cap, i, result);
    if i < |s.ticks| && s.ticks[i].Polling? && s.ticks[i].next < |s.ticks[i].copy.moves| {
      var copy, n := s.ticks[i].copy, s.ticks[i].next;
      assert TickOk(s, s.ticks[i]) && CopyCounts(s, cap, s.ticks[i]);
      if copy.moves[n].status != Migrating || result.StillRunning? {
        TickMoves(s, Next(s, cap, TickPoll(i, result)), cap, i, Polling(copy, n + 1));
      } else if copy.moves[n].upid.value !in s.running {
        var o := PollOutcome(result.ok, result.message);
        InFlightUpdate(copy.moves, n, WithOutcome(copy.moves[n], o));
        OutcomeKeepsStored(s, cap, i, n, o, Polling(SetLocal(copy, n, o), n + 1));
      }
    }
  }

  lemma ChooseKeepsStored(s: State, cap: nat, i: nat, others: nat, choice: Choice)
    requires StoredInv(s, cap)
    ensures StoredInv(Next(s, cap, TickChoose(i, others, choice)), cap)
  {
    ChooseKeepsInv(s, cap, i, others, choice);
    if i < |s.ticks| && s.ticks[i].Polling? && s.ticks[i].next >= |s.ticks[i].copy.moves| {
      var s' := Next(s, cap, TickChoose(i, others, choice));
      var copy, k := s.ticks[i].copy, FirstQueued(s.ticks[i].copy.moves);
      assert CopyCounts(s, cap, s.ticks[i]);
      if others + InFlight(copy.moves) >= cap || k < 0 {
        TickMoves(s, s', cap, i, Finishing(copy));
      } else if choice.Launch? {
        var o := Outcome(Migrating, Some(choice.upid), None);
        InFlightUpdate(copy.moves, k, WithOutcome(copy.moves[k], o));
        if choice.upid !in s.upids { TickMoves(s, s', cap, i, Launched(SetLocal(copy, k, o), k, choice.upid)); }
      } else {
        var o := if choice.Skip? then Outcome(Skipped, None, Some(choice.reason)) else Outcome(Failed, None, Some(choice.message));
        InFlightUpdate(copy.moves, k, WithOutcome(copy.moves[k], o));
        OutcomeKeepsStored(s, cap, i, k, o, Finishing(SetLocal(copy, k, o)));
      }
    }
  }

  lemma TickEndKeepsStored(s: State, cap: nat, e: Event)
    requires StoredInv(s, cap) && (e.TickRecord? || e.TickRecordFails? || e.TickFinish? || e.TickAbort?)
    ensures StoredInv(Next(s, cap, e), cap)
  {
    StepKeepsInv(s, cap, e);
    if e.i < |s.ticks| && !s.ticks[e.i].Over? {
      var t, s' := s.ticks[e.i], Next(s, cap, e);
      assert TickOk(s, t) && CopyCounts(s, cap, t);
      if e.TickRecord? && t.Launched? {
        OutcomeKeepsStored(s, cap, e.i, t.k, Outcome(Migrating, Some(t.upid), None), Finishing(t.copy));
      } else if e.TickRecordFails? && t.Launched? {
        var o := Outcome(Failed, None, Some(e.message));
        InFlightUpdate(t.copy.moves, t.k, WithOutcome(t.copy.moves[t.k], o));
        OutcomeKeepsStored(s, cap, e.i, t.k, o, Finishing(SetLocal(t.copy, t.k, o)));
      } else if s'.ticks != s.ticks {
        TickMoves(s, s', cap, e.i, Over);
      }
    }
  }

  /** The store changes under the ticks, which keep covering it. */
  lemma StoreMoves(s: State, s': State, cap: nat)
    requires StoredInv(s, cap) && Inv(s') && s'.ticks == s.ticks
    requires s'.store.Some? ==> InFlight(s'.store.value.moves) <= cap
    requires s'.store.Some? && s'.store.value.id in s.used ==>
               && s.store.Some? && s.store.value.id == s'.store.value.id && |s.store.value.moves| == |s'.store.value.moves|
               && forall k :: 0 <= k < |s'.store.value.moves| && s'.store.value.moves[k].status == Migrating ==>
                    s.store.value.moves[k].status == Migrating
    ensures StoredInv(s', cap)
  {
    forall i | 0 <= i < |s'.ticks| ensures CopyCounts(s', cap, s'.ticks[i]) {
      assert CopyCounts(s, cap, s.ticks[i]) && TickOk(s, s.ticks[i]);
    }
  }

  lemma ActionKeepsStored(s: State, cap: nat, e: Event)
    requires StoredInv(s, cap) && (e.ComputeWrite? || e.CancelWrite? || e.ApplyEvent?)
    ensures StoredInv(Next(s, cap, e), cap)
  {
    StepKeepsInv(s, cap, e);
    if e.ComputeWrite? { NoneInFlight(QueuedMoves(e.vmids)); }
    if s.store.Some? { InFlightMonotone(Dropped(s.store.value.moves), s.store.value.moves); }
    StoreMoves(s, Next(s, cap, e), cap);
  }

  lemma ReadKeepsStored(s: State, cap: nat, e: Event)
    requires StoredInv(s, cap) && (e.ComputeRead? || e.CancelRead? || e.TickRead? || e.TaskEnds?) && Obeys(s, cap, e, OneTick)
    ensures StoredInv(Next(s, cap, e), cap)
  {
    ReadKeepsInv(s, cap, e);
    assert forall i :: 0 <= i < |s.ticks| ==> Next(s, cap, e).ticks[i] == s.ticks[i] && CopyCounts(s, cap, s.ticks[i]);
  }

  lemma StepKeepsStored(s: State, cap: nat, e: Event)
    requires StoredInv(s, cap) && Obeys(s, cap, e, OneTick) && Obeys(s, cap, e, StoreEnd)
    ensures StoredInv(Next(s, cap, e), cap)
  {
    match e {
      case TickPoll(i, result) => PollKeepsStored(s, cap, i, result);
      case TickChoose(i, others, choice) => ChooseKeepsStored(s, cap, i, others, choice);
      case TickRecord(i) => TickEndKeepsStored(s, cap, e);
      case TickRecordFails(i, _) => TickEndKeepsStored(s, cap, e);
      case TickFinish(i) => TickEndKeepsStored(s, cap, e);
      case TickAbort(i) => TickEndKeepsStored(s, cap, e);
      case ComputeWrite(_, _, _) => ActionKeepsStored(s, cap, e);
      case CancelWrite(_) => ActionKeepsStored(s, cap, e);
      case ApplyEvent(_) => ActionKeepsStored(s, cap, e);
      case _ => ReadKeepsStored(s, cap, e);
    }
  }

  /** As long as ticks do not overlap and store the ends they learn of, the stored plan never shows more migrations than the cap. */
  lemma {:induction false} StoredCapIsKept(s: State, cap: nat, events: seq<Event>)
    requires StoredInv(s, cap) && Obey(s, cap, events, STORED_RULES)
    ensures StoredInv(Run(s, cap, events), cap)
    decreases |events|
  {
    if events != [] {
      assert Obeys(s, cap, events[0], OneTick) && Obeys(s, cap, events[0], StoreEnd);
      StepKeepsStored(s, cap, events[0]);
      StoredCapIsKept(Next(s, cap, events[0]), cap, events[1..]);
    }
  }

  lemma {:induction false} CapIsKept(cap: nat, events: seq<Event>)
    requires Obey(START, cap, events, STORED_RULES)
    ensures var store := Run(START, cap, events).store; store.Some? ==> InFlight(store.value.moves) <= cap
  {
    StoredCapIsKept(START, cap, events);
  }

  // ---- The migrations that really run, when all rules are obeyed ----

  function MigratingUpids(moves: seq<Move>): set<string> {
    set k | 0 <= k < |moves| && moves[k].status == Migrating && moves[k].upid.Some? :: moves[k].upid.value
  }

  lemma {:induction false} UpidsBounded(moves: seq<Move>)
    ensures |MigratingUpids(moves)| <= InFlight(moves)
  {
    if moves != [] {
      var init, last := moves[..|moves| - 1], moves[|moves| - 1];
      UpidsBounded(init);
      var one: set<string> := if last.status == Migrating && last.upid.Some? then {last.upid.value} else {};
      assert MigratingUpids(moves) == MigratingUpids(init) + one by {
        assert forall k :: 0 <= k < |init| ==> init[k] == moves[k];
        assert last == moves[|moves| - 1];
      }
    }
  }

  lemma {:induction false} SubsetSize(a: set<string>, b: set<string>)
    requires a <= b
    ensures |a| <= |b|
  {
    if a != {} {
      var x :| x in a;
      SubsetSize(a - {x}, b - {x});
    }
  }

  /** The running tasks are among those of the moves. */
  ghost predicate Accounts(moves: seq<Move>, running: set<string>) {
    forall u :: u in running ==> exists k :: 0 <= k < |moves| && moves[k].status == Migrating && moves[k].upid == Some(u)
  }

  lemma {:induction false} AccountsBound(moves: seq<Move>, running: set<string>)
    requires Accounts(moves, running)
    ensures |running| <= InFlight(moves)
  {
    forall u | u in running ensures u in MigratingUpids(moves) {
      var k :| 0 <= k < |moves| && moves[k].status == Migrating && moves[k].upid == Some(u);
    }
    SubsetSize(running, MigratingUpids(moves));
    UpidsBounded(moves);
  }

  /** Each move migrating in the copy is stored as migrating under the same task, the unrecorded start aside. */
  ghost predicate Carried(copy: Plan, stored: Plan, except: int) {
    && |copy.moves| == |stored.moves|
    && forall k :: 0 <= k < |copy.moves| && k != except && copy.moves[k].status == Migrating ==>
         stored.moves[k].status == Migrating && stored.moves[k].upid == copy.moves[k].upid
  }

  ghost predicate TickAccounts(s: State, t: Tick) {
    t.Over? ||
    (s.store.Some? && s.store.value.id == t.copy.id
     && Accounts(t.copy.moves, s.running) && Carried(t.copy, s.store.value, Exception(t)))
  }

  ghost predicate StoreAccounts(s: State) {
    Accounts(if s.store.Some? then s.store.value.moves else [], s.running)
  }

  ghost predicate RunningInv(s: State) {
    && Inv(s) && AtMostOneTick(s)
    && (forall i :: 0 <= i < |s.ticks| ==> TickAccounts(s, s.ticks[i]))
    && (AllOver(s) ==> StoreAccounts(s))
  }

  lemma OneTickMoves(s: State, s': State, i: nat, t: Tick)
    requires RunningInv(s) && i < |s.ticks| && !s.ticks[i].Over? && Inv(s')
    requires s'.ticks == s.ticks[i := t] && TickAccounts(s', t) && (t.Over? ==> StoreAccounts(s'))
    ensures RunningInv(s')
  {
    forall j | 0 <= j < |s'.ticks| ensures TickAccounts(s', s'.ticks[j]) {
      assert j != i ==> s'.ticks[j] == s.ticks[j] && s.ticks[j].Over?;
    }
    assert s'.ticks[i] == t;
  }

  /** What a copy accounts for and carries, the stored plan accounts for. */
  lemma CarriedAccounts(copy: Plan, stored: Plan, running: set<string>)
    requires Accounts(copy.moves, running) && Carried(copy, stored, -1)
    ensures Accounts(stored.moves, running)
  {
    forall u | u in running
      ensures exists k :: 0 <= k < |stored.moves| && stored.moves[k].status == Migrating && stored.moves[k].upid == Some(u)
    {
      var k :| 0 <= k < |copy.moves| && copy.moves[k].status == Migrating && copy.moves[k].upid == Some(u);
      assert stored.moves[k].status == Migrating && stored.moves[k].upid == Some(u);
    }
  }

  /** Writing over a move that stands for no running task loses none. */
  lemma WriteKeepsAccounts(p: Plan, k: nat, o: Outcome, running: set<string>)
    requires k < |p.moves| && Accounts(p.moves, running)
    requires p.moves[k].status == Migrating && p.moves[k].upid.Some? ==> p.moves[k].upid.value !in running
    ensures Accounts(SetLocal(p, k, o).moves, running)
    ensures o.status == Migrating && o.upid.Some? ==> Accounts(SetLocal(p, k, o).moves, running + {o.upid.value})
  {
    var moves := SetLocal(p, k, o).moves;
    forall u | u in running ensures exists j :: 0 <= j < |moves| && moves[j].status == Migrating && moves[j].upid == Some(u) {
      var j :| 0 <= j < |p.moves| && p.moves[j].status == Migrating && p.moves[j].upid == Some(u);
      assert moves[j] == p.moves[j];
    }
    assert moves[k] == WithOutcome(p.moves[k], o);
  }

  lemma OutcomeKeepsRunning(s: State, i: nat, k: nat, o: Outcome, t: Tick)
    requires RunningInv(s) && i < |s.ticks| && s.ticks[i].Polling? && k < |s.ticks[i].copy.moves|
    requires (t.Polling? || t.Finishing?) && t.copy == SetLocal(s.ticks[i].copy, k, o) && o.status != Migrating
    requires var m := s.ticks[i].copy.moves[k]; m.status == Migrating && m.upid.Some? ==> m.upid.value !in s.running
    requires Inv(WithTick(Written(s, Record(s.store, s.ticks[i].copy.id, s.ticks[i].copy.moves[k].vmid, o)), i, t))
    ensures RunningInv(WithTick(Written(s, Record(s.store, s.ticks[i].copy.id, s.ticks[i].copy.moves[k].vmid, o)), i, t))
  {
    var copy := s.ticks[i].copy;
    assert TickAccounts(s, s.ticks[i]);
    RecordIsAt(s, i, k, o);
    WriteKeepsAccounts(copy, k, o, s.running);
    OneTickMoves(s, WithTick(Written(s, Record(s.store, copy.id, copy.moves[k].vmid, o)), i, t), i, t);
  }

  lemma PollKeepsRunning(s: State, cap: nat, i: nat, result: PollResult)
    requires RunningInv(s)
    ensures RunningInv(Next(s, cap, TickPoll(i, result)))
  {
    PollKeepsInv(s, cap, i, result);
    if i < |s.ticks| && s.ticks[i].Polling? && s.ticks[i].next < |s.ticks[i].copy.moves| {
      var copy, n := s.ticks[i].copy, s.ticks[i].next;
      assert TickOk(s, s.ticks[i]) && TickAccounts(s, s.ticks[i]);
      if copy.moves[n].status != Migrating || result.StillRunning? {
        OneTickMoves(s, Next(s, cap, TickPoll(i, result)), i, Polling(copy, n + 1));
      } else if copy.moves[n].upid.value !in s.running {
        var o := PollOutcome(result.ok, result.message);
        if result.Unstored? {
          WriteKeepsAccounts(copy, n, o, s.running);
          OneTickMoves(s, Next(s, cap, TickPoll(i, result)), i, Polling(SetLocal(copy, n, o), n + 1));
        } else {
          OutcomeKeepsRunning(s, i, n, o, Polling(SetLocal(copy, n, o), n + 1));
        }
      }
    }
  }

  lemma ChooseKeepsRunning(s: State, cap: nat, i: nat, others: nat, choice: Choice)
    requires RunningInv(s)
    ensures RunningInv(Next(s, cap, TickChoose(i, others, choice)))
  {
    ChooseKeepsInv(s, cap, i, others, choice);
    if i < |s.ticks| && s.ticks[i].Polling? && s.ticks[i].next >= |s.ticks[i].copy.moves| {
      var s' := Next(s, cap, TickChoose(i, others, choice));
      var copy, k := s.ticks[i].copy, FirstQueued(s.ticks[i].copy.moves);
      assert TickAccounts(s, s.ticks[i]);
      if others + InFlight(copy.moves) >= cap || k < 0 {
        OneTickMoves(s, s', i, Finishing(copy));
      } else if choice.Launch? {
        var o := Outcome(Migrating, Some(choice.upid), None);
        WriteKeepsAccounts(copy, k, o, s.running);
        if choice.upid !in s.upids { OneTickMoves(s, s', i, Launched(SetLocal(copy, k, o), k, choice.upid)); }
      } else {
        var o := if choice.Skip? then Outcome(Skipped, None, Some(choice.reason)) else Outcome(Failed, None, Some(choice.message));
        OutcomeKeepsRunning(s, i, k, o, Finishing(SetLocal(copy, k, o)));
      }
    }
  }

  lemma RecordKeepsRunning(s: State, cap: nat, i: nat)
    requires RunningInv(s)
    ensures RunningInv(Next(s, cap, TickRecord(i)))
  {
    StepKeepsInv(s, cap, TickRecord(i));
    if i < |s.ticks| && s.ticks[i].Launched? {
      var t := s.ticks[i];
      assert TickOk(s, t) && TickAccounts(s, t);
      RecordIsAt(s, i, t.k, Outcome(Migrating, Some(t.upid), None));
      OneTickMoves(s, Next(s, cap, TickRecord(i)), i, Finishing(t.copy));
    }
  }

  lemma TickEndKeepsRunning(s: State, cap: nat, e: Event)
    requires RunningInv(s) && (e.TickFinish? || e.TickAbort?) && Obeys(s, cap, e, RecordStart)
    ensures RunningInv(Next(s, cap, e))
  {
    StepKeepsInv(s, cap, e);
    if e.i < |s.ticks| {
      var t, s' := s.ticks[e.i], Next(s, cap, e);
      assert TickOk(s, t) && TickAccounts(s, t);
      if t.Over? {
        assert s.ticks[e.i := Over] == s.ticks;
      } else if s' != s {
        CarriedAccounts(t.copy, s.store.value, s.running);
        OneTickMoves(s, s', e.i, Over);
      }
    }
  }

  /** The store changes under the ticks: what migrates stays. */
  lemma StoreKeepsRunning(s: State, s': State)
    requires RunningInv(s) && Inv(s') && s'.ticks == s.ticks && s'.running <= s.running
    requires s.store.Some? ==> s'.store.Some? && s'.store.value.id == s.store.value.id && Carried(s.store.value, s'.store.value, -1)
    ensures RunningInv(s')
  {
    if s.store.Some? && AllOver(s) { CarriedAccounts(s.store.value, s'.store.value, s.running); }
    forall i | 0 <= i < |s'.ticks| ensures TickAccounts(s', s'.ticks[i]) {
      assert TickAccounts(s, s.ticks[i]);
    }
  }

  lemma StepKeepsRunning(s: State, cap: nat, e: Event)
    requires RunningInv(s) && forall r :: r in RUNNING_RULES ==> Obeys(s, cap, e, r)
    ensures RunningInv(Next(s, cap, e))
  {
    StepKeepsInv(s, cap, e);
    var s' := Next(s, cap, e);
    assert Obeys(s, cap, e, OneTick) && Obeys(s, cap, e, KeepPlan) && Obeys(s, cap, e, RecordStart);
    match e {
      case TickPoll(i, result) => PollKeepsRunning(s, cap, i, result);
      case TickChoose(i, others, choice) => ChooseKeepsRunning(s, cap, i, others, choice);
      case TickRecord(i) => RecordKeepsRunning(s, cap, i);
      case TickRecordFails(i, _) => assert s' == s;
      case TickFinish(i) => TickEndKeepsRunning(s, cap, e);
      case TickAbort(i) => TickEndKeepsRunning(s, cap, e);
      case TickRead => ReadKeepsRunning(s, cap);
      case _ => if !Drops(s, s') { StoreKeepsRunning(s, s'); }
    }
  }

  lemma ReadKeepsRunning(s: State, cap: nat)
    requires RunningInv(s) && AllOver(s)
    ensures RunningInv(Next(s, cap, TickRead))
  {
    ReadKeepsInv(s, cap, TickRead);
    var s' := Next(s, cap, TickRead);
    if s' != s {
      var t := s'.ticks[|s.ticks|];
      assert t == Polling(s.store.value, 0) && TickAccounts(s', t);
      assert forall i :: 0 <= i < |s.ticks| ==> s'.ticks[i] == s.ticks[i];
    }
  }

  /** In a run that obeys the rules no start exceeds the cap. */
  lemma {:induction false} RunningCapIsKept(s: State, cap: nat, events: seq<Event>)
    requires RunningInv(s) && Obey(s, cap, events, RUNNING_RULES)
    ensures NeverOverruns(s, cap, events)
    decreases |events|
  {
    if events != [] {
      var e := events[0];
      if Starts(s, cap, e) {
        assert TickAccounts(s, s.ticks[e.i]);
        AccountsBound(s.ticks[e.i].copy.moves, s.running);
        OverrunsExactly(s, cap, e);
      }
      StepKeepsRunning(s, cap, e);
      RunningCapIsKept(Next(s, cap, e), cap, events[1..]);
    }
  }

  lemma {:induction false} RulesKeepTheCap(cap: nat, events: seq<Event>)
    requires Obey(START, cap, events, RUNNING_RULES)
    ensures NeverOverruns(START, cap, events)
  {
    RunningCapIsKept(START, cap, events);
  }
}
