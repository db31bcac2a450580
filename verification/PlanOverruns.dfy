/** For each rule that keeps the cap, a run that breaks only that rule and exceeds the cap, whatever the cap. */
module PlanOverruns {
  import opened Options
  import opened PlanStore
  import opened PlanProtocol
  import opened PlanRuns
  import opened PlanCap

  // ---- Obedience over appended runs ----

  lemma {:induction false} ObeyAppend(s: State, cap: nat, a: seq<Event>, b: seq<Event>, rules: set<Rule>)
    ensures Obey(s, cap, a + b, rules) <==> Obey(s, cap, a, rules) && Obey(Run(s, cap, a), cap, b, rules)
    decreases |a|
  {
    if a == [] {
      assert a + b == b;
    } else {
      assert (a + b)[1..] == a[1..] + b;
      ObeyAppend(Next(s, cap, a[0]), cap, a[1..], b, rules);
    }
  }

  lemma {:induction false} OverrunEnds(s: State, cap: nat, a: seq<Event>, e: Event)
    requires Overruns(Run(s, cap, a), cap, e)
    ensures !NeverOverruns(s, cap, a + [e])
    decreases |a|
  {
    if a != [] {
      assert (a + [e])[1..] == a[1..] + [e];
      OverrunEnds(Next(s, cap, a[0]), cap, a[1..], e);
    } else {
      assert a + [e] == [e];
    }
  }

  /** Events that can break none of the rules. */
  predicate Harmless(e: Event, rules: set<Rule>) {
    && (OneTick in rules ==> !e.TickRead?)
    && (KeepPlan in rules ==> !e.ComputeWrite? && !e.CancelWrite?)
    && (RecordStart in rules ==> !e.TickAbort? && !e.TickRecordFails?)
    && (StoreEnd in rules ==> !(e.TickPoll? && e.result.Unstored?))
  }

  lemma HarmlessObeys(s: State, cap: nat, e: Event, rules: set<Rule>, r: Rule)
    requires Harmless(e, rules) && r in rules
    ensures Obeys(s, cap, e, r)
  {
  }

  lemma {:induction false} HarmlessObey(s: State, cap: nat, events: seq<Event>, rules: set<Rule>)
    requires forall i :: 0 <= i < |events| ==> Harmless(events[i], rules)
    ensures Obey(s, cap, events, rules)
    decreases |events|
  {
    if events != [] {
      forall r | r in rules ensures Obeys(s, cap, events[0], r) { HarmlessObeys(s, cap, events[0], rules, r); }
      HarmlessObey(Next(s, cap, events[0]), cap, events[1..], rules);
    }
  }

  lemma {:induction false} ObeyOne(s: State, cap: nat, e: Event, rules: set<Rule>)
    requires forall r :: r in rules ==> Obeys(s, cap, e, r)
    ensures Obey(s, cap, [e], rules)
  {
    assert [e][1..] == [];
  }

  // ---- Stretches of a run ----

  /** Activating a plan obeys every rule when none is stored. */
  lemma {:induction false} ActivationObeys(s: State, cap: nat, id: string, vmids: seq<int>, rules: set<Rule>)
    requires CanActivate(s, id, vmids) && (s.store.None? || KeepPlan !in rules)
    ensures Obey(s, cap, Activation(id, vmids), rules)
  {
    var s1 := Next(s, cap, ComputeRead);
    var write := ComputeWrite(0, id, vmids);
    ActivationSteps(s, cap, id, vmids);
    assert Activation(id, vmids) == [ComputeRead] + ([write] + [ApplyEvent(id)]);
    ObeyAppend(s, cap, [ComputeRead], [write] + [ApplyEvent(id)], rules);
    ObeyAppend(s1, cap, [write], [ApplyEvent(id)], rules);
    RunOne(s, cap, ComputeRead);
    HarmlessObey(s, cap, [ComputeRead], rules);
    ObeyOne(s1, cap, write, rules);
    HarmlessObey(Run(s1, cap, [write]), cap, [ApplyEvent(id)], rules);
  }

  function ReadAndPoll(i: nat, n: nat): seq<Event> {
    [TickRead] + Polls(i, n)
  }

  function Poised(s: State, p: Plan): State {
    s.(ticks := s.ticks + [Polling(p, |p.moves|)])
  }

  /** A new tick reads the active plan and polls it without news. */
  lemma {:induction false} ReadyRuns(s: State, cap: nat, p: Plan, rules: set<Rule>)
    requires s.store == Some(p) && p.status == Active && (OneTick in rules ==> AllOver(s))
    ensures Run(s, cap, ReadAndPoll(|s.ticks|, |p.moves|)) == Poised(s, p)
    ensures Obey(s, cap, ReadAndPoll(|s.ticks|, |p.moves|), rules)
  {
    var i, n := |s.ticks|, |p.moves|;
    var s1 := s.(ticks := s.ticks + [Polling(p, 0)]);
    RunOne(s, cap, TickRead);
    RunAppend(s, cap, [TickRead], Polls(i, n));
    PollsPass(s1, cap, i, n);
    assert s1.ticks[i := Polling(p, n)] == Poised(s, p).ticks;
    ObeyAppend(s, cap, [TickRead], Polls(i, n), rules);
    ObeyOne(s, cap, TickRead, rules);
    HarmlessObey(s1, cap, Polls(i, n), rules);
  }

  ghost predicate HasRoom(s: State, cap: nat, i: nat, p: Plan, others: nat) {
    && i < |s.ticks| && s.ticks[i] == Polling(p, |p.moves|) && DistinctVmids(p.moves)
    && FirstQueued(p.moves) >= 0 && others + InFlight(p.moves) < cap
  }

  function Begun(p: Plan, upid: string): Plan
    requires FirstQueued(p.moves) >= 0
  {
    SetLocal(p, FirstQueued(p.moves), Outcome(Migrating, Some(upid), None))
  }

  /** A tick starts the first queued migration; nothing is recorded yet. */
  function StartedState(s: State, i: nat, p: Plan, upid: string): State
    requires i < |s.ticks| && FirstQueued(p.moves) >= 0
  {
    var k := FirstQueued(p.moves);
    WithTick(s, i, Launched(Begun(p, upid), k, upid))
    .(launches := s.launches + [(p.id, p.moves[k].vmid)], upids := s.upids + {upid}, running := s.running + {upid})
  }

  lemma StartStep(s: State, cap: nat, i: nat, p: Plan, others: nat, upid: string)
    requires HasRoom(s, cap, i, p, others) && upid !in s.upids
    ensures Starts(s, cap, TickChoose(i, others, Launch(upid)))
    ensures Next(s, cap, TickChoose(i, others, Launch(upid))) == StartedState(s, i, p, upid)
  {
  }

  function AfterStart(s: State, i: nat, p: Plan, upid: string): State
    requires i < |s.ticks| && FirstQueued(p.moves) >= 0
  {
    StartedState(s, i, p, upid).(store := Some(Begun(p, upid)), ticks := s.ticks[i := Over])
  }

  function StartAndRecord(i: nat, others: nat, upid: string): seq<Event> {
    [TickChoose(i, others, Launch(upid)), TickRecord(i), TickFinish(i)]
  }

  lemma RecordSteps(s: State, cap: nat, i: nat, p: Plan, upid: string)
    requires i < |s.ticks| && FirstQueued(p.moves) >= 0 && DistinctVmids(p.moves) && s.store == Some(p) && p.status == Active
    ensures Next(Next(StartedState(s, i, p, upid), cap, TickRecord(i)), cap, TickFinish(i)) == AfterStart(s, i, p, upid)
  {
    var k, s1 := FirstQueued(p.moves), StartedState(s, i, p, upid);
    RecordedAt(p, k, Outcome(Migrating, Some(upid), None));
    assert Begun(p, upid).moves[k].vmid == p.moves[k].vmid && Begun(p, upid).moves[k].status == Migrating;
    var s2 := Next(s1, cap, TickRecord(i));
    assert s2.store == Some(Begun(p, upid)) && s2.ticks[i] == Finishing(Begun(p, upid));
    assert Unresolved(Begun(p, upid).moves);
    assert s.ticks[i := s1.ticks[i]][i := s2.ticks[i]][i := Over] == s.ticks[i := Over];
  }

  /** A tick starts the first queued migration, records it and finishes. */
  lemma {:induction false} StartRuns(s: State, cap: nat, i: nat, p: Plan, others: nat, upid: string, rules: set<Rule>)
    requires HasRoom(s, cap, i, p, others) && upid !in s.upids && s.store == Some(p) && p.status == Active
    ensures Run(s, cap, StartAndRecord(i, others, upid)) == AfterStart(s, i, p, upid)
    ensures Obey(s, cap, StartAndRecord(i, others, upid), rules)
  {
    StartStep(s, cap, i, p, others, upid);
    RecordSteps(s, cap, i, p, upid);
    RunThree(s, cap, TickChoose(i, others, Launch(upid)), TickRecord(i), TickFinish(i));
    HarmlessObey(s, cap, StartAndRecord(i, others, upid), rules);
  }

  /** With one migration running already, and the others filling the rest of the cap, one more start exceeds it. */
  lemma OneTooMany(s: State, cap: nat, i: nat, p: Plan, upid: string)
    requires cap >= 1 && HasRoom(s, cap, i, p, cap - 1) && upid !in s.upids && |s.running| == 1 && s.running <= s.upids
    ensures Overruns(s, cap, TickChoose(i, cap - 1, Launch(upid)))
  {
    StartStep(s, cap, i, p, cap - 1, upid);
    assert |s.running + {upid}| == 2;
  }

  // ---- A plan dropped while its migration runs ----

  const A := Plan("a", Active, QueuedMoves([1]))
  const B := Plan("b", Active, QueuedMoves([2]))

  /** Plan a is applied, and a tick is about to choose. */
  function PoisedOnA(): State {
    State(Some(A), [Polling(A, 1)], [], {"a"}, {}, [], {}, {})
  }

  function PathToA(): seq<Event> {
    Activation("a", [1]) + ReadAndPoll(0, 1)
  }

  lemma {:induction false} PathToARuns(cap: nat, rules: set<Rule>)
    ensures Run(START, cap, PathToA()) == PoisedOnA() && Obey(START, cap, PathToA(), rules)
  {
    ActivationRuns(START, cap, "a", [1]);
    ActivationObeys(START, cap, "a", [1], rules);
    var s := State(Some(A), [], [], {"a"}, {}, [], {}, {});
    assert Activated(START, "a", [1]) == s;
    ReadyRuns(s, cap, A, rules);
    assert Poised(s, A) == PoisedOnA();
    RunAppend(START, cap, Activation("a", [1]), ReadAndPoll(0, 1));
    ObeyAppend(START, cap, Activation("a", [1]), ReadAndPoll(0, 1), rules);
  }

  /** Plan a has its one move in flight, recorded, and no tick is under way. */
  function RunningA(): State {
    State(Some(Begun(A, "u")), [Over], [], {"a"}, {}, [("a", 1)], {"u"}, {"u"})
  }

  lemma {:induction false} ToRunningA(cap: nat, rules: set<Rule>)
    requires cap >= 1
    ensures Run(PoisedOnA(), cap, StartAndRecord(0, cap - 1, "u")) == RunningA()
    ensures Obey(PoisedOnA(), cap, StartAndRecord(0, cap - 1, "u"), rules)
  {
    SingleMove(A.moves);
    StartRuns(PoisedOnA(), cap, 0, A, cap - 1, "u", rules);
    assert AfterStart(PoisedOnA(), 0, A, "u") == RunningA();
  }

  /** Plan a cancelled with its migration still in flight. */
  function CancelledA(): State {
    RunningA().(store := Some(CancelledPlan(Begun(A, "u"))), ended := {"a"})
  }

  lemma {:induction false} ToCancelledA(cap: nat)
    ensures Run(RunningA(), cap, [CancelRead("a"), CancelWrite(0)]) == CancelledA()
  {
    var s1 := RunningA().(pending := [CancelPending("a")]);
    assert Next(RunningA(), cap, CancelRead("a")) == s1;
    assert WithoutPending([CancelPending("a")], 0) == [];
    assert Next(s1, cap, CancelWrite(0)) == CancelledA();
    RunTwo(RunningA(), cap, CancelRead("a"), CancelWrite(0));
  }

  lemma {:induction false} ToPlanB(cap: nat)
    ensures var s := Poised(Activated(CancelledA(), "b", [2]), B);
            Run(CancelledA(), cap, Activation("b", [2]) + ReadAndPoll(1, 1)) == s
    ensures Obey(CancelledA(), cap, Activation("b", [2]) + ReadAndPoll(1, 1), {OneTick, RecordStart, StoreEnd})
  {
    assert "b" != "a" by { assert "b"[0] != "a"[0]; }
    var rules := {OneTick, RecordStart, StoreEnd};
    ActivationRuns(CancelledA(), cap, "b", [2]);
    ActivationObeys(CancelledA(), cap, "b", [2], rules);
    ReadyRuns(Activated(CancelledA(), "b", [2]), cap, B, rules);
    RunAppend(CancelledA(), cap, Activation("b", [2]), ReadAndPoll(1, 1));
    ObeyAppend(CancelledA(), cap, Activation("b", [2]), ReadAndPoll(1, 1), rules);
  }

  lemma {:induction false} JoinObey(s: State, cap: nat, a: seq<Event>, b: seq<Event>, rules: set<Rule>)
    requires Obey(s, cap, a, rules) && Obey(Run(s, cap, a), cap, b, rules)
    ensures Obey(s, cap, a + b, rules) && Run(s, cap, a + b) == Run(Run(s, cap, a), cap, b)
  {
    ObeyAppend(s, cap, a, b, rules);
    RunAppend(s, cap, a, b);
  }

  /** The last step of each failing run. */
  lemma {:induction false} LastStart(cap: nat, path: seq<Event>, i: nat, p: Plan, rules: set<Rule>)
    requires cap >= 1 && Obey(START, cap, path, rules)
    requires var s := Run(START, cap, path); HasRoom(s, cap, i, p, cap - 1) && s.running == {"u"} && {"u"} <= s.upids && "v" !in s.upids
    ensures var e := TickChoose(i, cap - 1, Launch("v"));
            Obey(START, cap, path + [e], rules) && !NeverOverruns(START, cap, path + [e])
  {
    var s, e := Run(START, cap, path), TickChoose(i, cap - 1, Launch("v"));
    OneTooMany(s, cap, i, p, "v");
    OverrunEnds(START, cap, path, e);
    HarmlessObey(s, cap, [e], rules);
    JoinObey(START, cap, path, [e], rules);
  }

  lemma {:induction false} ToCancelled(cap: nat, rules: set<Rule>) returns (path: seq<Event>)
    requires cap >= 1 && KeepPlan !in rules
    ensures Run(START, cap, path) == CancelledA() && Obey(START, cap, path, rules)
  {
    var start, cancel := StartAndRecord(0, cap - 1, "u"), [CancelRead("a"), CancelWrite(0)];
    PathToARuns(cap, rules);
    ToRunningA(cap, rules);
    ToCancelledA(cap);
    HarmlessObey(RunningA(), cap, cancel, rules);
    JoinObey(START, cap, PathToA(), start, rules);
    JoinObey(START, cap, PathToA() + start, cancel, rules);
    path := PathToA() + start + cancel;
  }

  /** A plan is cancelled with a migration in flight, and a new one applied: its tick does not count the old migration. */
  lemma {:induction false} DroppedPlanOverruns(cap: nat) returns (events: seq<Event>)
    requires cap >= 1
    ensures Obey(START, cap, events, {OneTick, RecordStart, StoreEnd}) && !NeverOverruns(START, cap, events)
  {
    var rules := {OneTick, RecordStart, StoreEnd};
    var planB := Activation("b", [2]) + ReadAndPoll(1, 1);
    var path := ToCancelled(cap, rules);
    ToPlanB(cap);
    JoinObey(START, cap, path, planB, rules);
    SingleMove(B.moves);
    assert "v" != "u" by { assert "v"[0] != "u"[0]; }
    LastStart(cap, path + planB, 1, B, rules);
    events := path + planB + [TickChoose(1, cap - 1, Launch("v"))];
  }

  // ---- A start that was never recorded ----

  /** Plan a is active, and its one migration runs unknown to the store. */
  function LostStart(): State {
    State(Some(A), [Over], [], {"a"}, {}, [("a", 1)], {"u"}, {"u"})
  }

  lemma {:induction false} ToLostStart(cap: nat, rules: set<Rule>)
    requires cap >= 1 && RecordStart !in rules
    ensures var lost := [TickChoose(0, cap - 1, Launch("u")), TickAbort(0)];
            Run(PoisedOnA(), cap, lost) == LostStart() && Obey(PoisedOnA(), cap, lost, rules)
  {
    var lost := [TickChoose(0, cap - 1, Launch("u")), TickAbort(0)];
    SingleMove(A.moves);
    StartStep(PoisedOnA(), cap, 0, A, cap - 1, "u");
    RunTwo(PoisedOnA(), cap, lost[0], lost[1]);
    HarmlessObey(PoisedOnA(), cap, lost, rules);
  }

  /** A tick ends between a start and its record: the next tick starts a migration as if nothing ran. */
  lemma {:induction false} UnrecordedStartOverruns(cap: nat) returns (events: seq<Event>)
    requires cap >= 1
    ensures Obey(START, cap, events, {OneTick, KeepPlan, StoreEnd}) && !NeverOverruns(START, cap, events)
  {
    var rules := {OneTick, KeepPlan, StoreEnd};
    var lost := [TickChoose(0, cap - 1, Launch("u")), TickAbort(0)];
    PathToARuns(cap, rules);
    ToLostStart(cap, rules);
    JoinObey(START, cap, PathToA(), lost, rules);
    ReadyRuns(LostStart(), cap, A, rules);
    JoinObey(START, cap, PathToA() + lost, ReadAndPoll(1, 1), rules);
    SingleMove(A.moves);
    assert "v" != "u" by { assert "v"[0] != "u"[0]; }
    LastStart(cap, PathToA() + lost + ReadAndPoll(1, 1), 1, A, rules);
    events := PathToA() + lost + ReadAndPoll(1, 1) + [TickChoose(1, cap - 1, Launch("v"))];
  }

  // ---- An end that was never stored ----

  const DONE := PollOutcome(true, "")

  /** A plan of two moves: queued, and with its first move in flight; and the copy of a tick that has learned of its end. */
  ghost predicate TwoMoves(p: Plan, q: Plan, r: Plan) {
    && p.status == Active && |p.moves| == 2 && DistinctVmids(p.moves) && FirstQueued(p.moves) == 0 && InFlight(p.moves) == 0
    && q == Begun(p, "u") && r == SetLocal(q, 0, DONE) && FirstQueued(r.moves) == 1 && InFlight(r.moves) == 0
    && InFlight(SetLocal(q, 1, Outcome(Migrating, Some("v"), None)).moves) == 2
  }

  lemma {:induction false} PairOfMoves(moves: seq<Move>)
    requires |moves| == 2
    ensures InFlight(moves) == (if moves[0].status == Migrating then 1 else 0) + (if moves[1].status == Migrating then 1 else 0)
    ensures moves[0].status == Queued ==> FirstQueued(moves) == 0
    ensures moves[0].status != Queued && moves[1].status == Queued ==> FirstQueued(moves) == 1
  {
    assert moves[..1][..0] == [] && moves[1..][0] == moves[1];
    assert InFlight(moves[..1]) == if moves[0].status == Migrating then 1 else 0;
  }

  lemma TheTwoMoves(p: Plan)
    requires p == Plan("p", Active, QueuedMoves([1, 2]))
    ensures FirstQueued(p.moves) == 0 && TwoMoves(p, Begun(p, "u"), SetLocal(Begun(p, "u"), 0, DONE))
  {
    PairOfMoves(p.moves);
    var q := Begun(p, "u");
    PairOfMoves(SetLocal(q, 0, DONE).moves);
    PairOfMoves(SetLocal(q, 1, Outcome(Migrating, Some("v"), None)).moves);
  }

  lemma UnstoredSteps(s: State, cap: nat, p: Plan, q: Plan, r: Plan)
    requires TwoMoves(p, q, r) && s.store == Some(q) && s.ticks == [Over] && s.running == {"u"}
    ensures var s' := Next(Next(Next(s, cap, TaskEnds("u")), cap, TickRead), cap, TickPoll(1, Unstored(true, "")));
            s' == s.(ticks := [Over, Polling(r, 1)], running := {})
  {
    var s2 := s.(ticks := [Over, Polling(q, 0)], running := {});
    assert Next(Next(s, cap, TaskEnds("u")), cap, TickRead) == s2;
    assert q.moves[0].status == Migrating && q.moves[0].upid == Some("u");
    assert s2.ticks[1 := Polling(r, 1)] == [Over, Polling(r, 1)];
  }

  lemma SecondStart(s: State, cap: nat, p: Plan, q: Plan, r: Plan)
    requires cap >= 1 && TwoMoves(p, q, r) && s.store == Some(q) && s.ticks == [Over, Polling(r, 2)] && "v" !in s.upids
    ensures Next(Next(s, cap, TickChoose(1, cap - 1, Launch("v"))), cap, TickRecord(1)).store ==
            Some(SetLocal(q, 1, Outcome(Migrating, Some("v"), None)))
  {
    StartStep(s, cap, 1, r, cap - 1, "v");
    RecordedAt(q, 1, Outcome(Migrating, Some("v"), None));
    assert Begun(r, "v").moves[1].vmid == q.moves[1].vmid;
  }

  function LearnUnstored(): seq<Event> {
    [TaskEnds("u"), TickRead, TickPoll(1, Unstored(true, ""))]
  }

  lemma {:induction false} LearnRuns(s: State, cap: nat, p: Plan, q: Plan, r: Plan, rules: set<Rule>)
    requires TwoMoves(p, q, r) && s.store == Some(q) && s.ticks == [Over] && s.running == {"u"} && StoreEnd !in rules
    ensures Run(s, cap, LearnUnstored() + Polls(1, 1)) == s.(ticks := [Over, Polling(r, 2)], running := {})
    ensures Obey(s, cap, LearnUnstored() + Polls(1, 1), rules)
  {
    var s1 := Next(s, cap, TaskEnds("u"));
    var s3 := s.(ticks := [Over, Polling(r, 1)], running := {});
    UnstoredSteps(s, cap, p, q, r);
    RunThree(s, cap, TaskEnds("u"), TickRead, TickPoll(1, Unstored(true, "")));
    PollsPass(s3, cap, 1, 1);
    HarmlessObey(s, cap, [TaskEnds("u")], rules);
    RunOne(s, cap, TaskEnds("u"));
    ObeyOne(s1, cap, TickRead, rules);
    RunOne(s1, cap, TickRead);
    HarmlessObey(Next(s1, cap, TickRead), cap, [TickPoll(1, Unstored(true, ""))], rules);
    JoinObey(s1, cap, [TickRead], [TickPoll(1, Unstored(true, ""))], rules);
    JoinObey(s, cap, [TaskEnds("u")], [TickRead] + [TickPoll(1, Unstored(true, ""))], rules);
    assert LearnUnstored() == [TaskEnds("u")] + ([TickRead] + [TickPoll(1, Unstored(true, ""))]);
    HarmlessObey(s3, cap, Polls(1, 1), rules);
    JoinObey(s, cap, LearnUnstored(), Polls(1, 1), rules);
    assert s3.ticks[1 := Polling(r, 2)] == [Over, Polling(r, 2)];
  }

  /** A tick learns of an end it cannot store, and starts the next move: the stored plan shows two in flight, although one runs. */
  lemma {:induction false} UnstoredEndShowsTwo(cap: nat) returns (events: seq<Event>)
    requires cap >= 1
    ensures Obey(START, cap, events, {OneTick, KeepPlan, RecordStart})
    ensures var s := Run(START, cap, events); s.store.Some? && InFlight(s.store.value.moves) == 2 && |s.running| == 1
  {
    var rules := {OneTick, KeepPlan, RecordStart};
    var p := Plan("p", Active, QueuedMoves([1, 2]));
    TheTwoMoves(p);
    var s := State(Some(p), [], [], {"p"}, {}, [], {}, {});
    ActivationRuns(START, cap, "p", [1, 2]);
    ActivationObeys(START, cap, "p", [1, 2], rules);
    assert Activated(START, "p", [1, 2]) == s;
    var rest := UnstoredEndFrom(s, cap, p, rules);
    JoinObey(START, cap, Activation("p", [1, 2]), rest, rules);
    events := Activation("p", [1, 2]) + rest;
  }

  /** The first move is in flight, recorded, and no tick is under way. */
  function FirstInFlight(p: Plan): State
    requires FirstQueued(p.moves) == 0 && |p.moves| > 0
  {
    State(Some(Begun(p, "u")), [Over], [], {"p"}, {}, [(p.id, p.moves[0].vmid)], {"u"}, {"u"})
  }

  lemma {:induction false} ToFirstInFlight(s: State, cap: nat, p: Plan, rules: set<Rule>) returns (events: seq<Event>)
    requires cap >= 1 && s == State(Some(p), [], [], {"p"}, {}, [], {}, {})
    requires FirstQueued(p.moves) == 0 && TwoMoves(p, Begun(p, "u"), SetLocal(Begun(p, "u"), 0, DONE))
    ensures Run(s, cap, events) == FirstInFlight(p) && Obey(s, cap, events, rules)
  {
    var s1 := Poised(s, p);
    ReadyRuns(s, cap, p, rules);
    StartRuns(s1, cap, 0, p, cap - 1, "u", rules);
    JoinObey(s, cap, ReadAndPoll(0, 2), StartAndRecord(0, cap - 1, "u"), rules);
    events := ReadAndPoll(0, 2) + StartAndRecord(0, cap - 1, "u");
    assert AfterStart(s1, 0, p, "u") == FirstInFlight(p);
  }

  lemma {:induction false} StartsTheOther(s: State, cap: nat, p: Plan, q: Plan, r: Plan, rules: set<Rule>)
    requires cap >= 1 && TwoMoves(p, q, r) && s.store == Some(q) && s.ticks == [Over, Polling(r, 2)]
    requires s.upids == {"u"} && s.running == {}
    ensures var last := [TickChoose(1, cap - 1, Launch("v")), TickRecord(1)]; var s' := Run(s, cap, last);
            Obey(s, cap, last, rules) && s'.store.Some? && InFlight(s'.store.value.moves) == 2 && |s'.running| == 1
  {
    var last := [TickChoose(1, cap - 1, Launch("v")), TickRecord(1)];
    assert "v" != "u" by { assert "v"[0] != "u"[0]; }
    SecondStart(s, cap, p, q, r);
    StartStep(s, cap, 1, r, cap - 1, "v");
    assert {} + {"v"} == {"v"};
    RunTwo(s, cap, last[0], last[1]);
    HarmlessObey(s, cap, last, rules);
  }

  lemma {:induction false} UnstoredEndFrom(s: State, cap: nat, p: Plan, rules: set<Rule>) returns (events: seq<Event>)
    requires cap >= 1 && StoreEnd !in rules && s == State(Some(p), [], [], {"p"}, {}, [], {}, {})
    requires FirstQueued(p.moves) == 0 && TwoMoves(p, Begun(p, "u"), SetLocal(Begun(p, "u"), 0, DONE))
    ensures Obey(s, cap, events, rules)
    ensures var s' := Run(s, cap, events); s'.store.Some? && InFlight(s'.store.value.moves) == 2 && |s'.running| == 1
  {
    var q, r := Begun(p, "u"), SetLocal(Begun(p, "u"), 0, DONE);
    var first := ToFirstInFlight(s, cap, p, rules);
    var s1 := FirstInFlight(p);
    var learn, last := LearnUnstored() + Polls(1, 1), [TickChoose(1, cap - 1, Launch("v")), TickRecord(1)];
    LearnRuns(s1, cap, p, q, r, rules);
    JoinObey(s, cap, first, learn, rules);
    StartsTheOther(s1.(ticks := [Over, Polling(r, 2)], running := {}), cap, p, q, r, rules);
    JoinObey(s, cap, first + learn, last, rules);
    events := first + learn + last;
  }
}
