/** A tick that timed out goes on beside later ones: the run in which that exceeds the cap. */
module PlanOverlap {
  import opened Options
  import opened PlanStore
  import opened PlanProtocol
  import opened PlanRuns
  import opened PlanCap
  import opened PlanOverruns

  // ---- The plan along the run ----

  const FULL := Outcome(Skipped, None, Some("full"))

  /** A plan of three moves: queued, the first in flight, settled, the second skipped, the third in flight. */
  datatype Scene = Scene(p0: Plan, p1: Plan, p2: Plan, p3: Plan, p4: Plan)

  ghost predicate Idle(p: Plan, k: nat) {
    p.status == Active && |p.moves| == 3 && DistinctVmids(p.moves) && FirstQueued(p.moves) == k && InFlight(p.moves) == 0
  }

  ghost predicate Busy(p: Plan, k: nat, upid: string) {
    && p.status == Active && |p.moves| == 3 && DistinctVmids(p.moves)
    && k < 3 && p.moves[k].status == Migrating && p.moves[k].upid == Some(upid)
  }

  ghost predicate Follow(c: Scene) {
    && Idle(c.p0, 0) && Busy(c.p1, 0, "t") && Idle(c.p2, 1) && Idle(c.p3, 2) && Busy(c.p4, 2, "u")
    && c.p1 == Begun(c.p0, "t") && c.p2 == SetLocal(c.p1, 0, DONE) && c.p3 == SetLocal(c.p2, 1, FULL) && c.p4 == Begun(c.p3, "u")
    && SetLocal(c.p4, 0, DONE) == c.p4 && c.p4.id == c.p1.id && c.p4.moves[0].vmid == c.p1.moves[0].vmid
  }

  lemma {:induction false} ThreeMoves(moves: seq<Move>)
    requires |moves| == 3
    ensures InFlight(moves) == (if moves[0].status == Migrating then 1 else 0) + (if moves[1].status == Migrating then 1 else 0)
                             + (if moves[2].status == Migrating then 1 else 0)
    ensures moves[0].status == Queued ==> FirstQueued(moves) == 0
    ensures moves[0].status != Queued && moves[1].status == Queued ==> FirstQueued(moves) == 1
    ensures moves[0].status != Queued && moves[1].status != Queued && moves[2].status == Queued ==> FirstQueued(moves) == 2
  {
    assert moves[..2][..1] == moves[..1] && moves[..1][..0] == [];
    assert InFlight(moves[..1]) == if moves[0].status == Migrating then 1 else 0;
    assert InFlight(moves[..2]) == InFlight(moves[..1]) + if moves[1].status == Migrating then 1 else 0;
    assert moves[1..][0] == moves[1] && moves[1..][1..][0] == moves[2];
  }

  function ThreePlan(a: Move, b: Move, c: Move): Plan {
    Plan("p", Active, [a, b, c])
  }

  const FIRST := Move(1, Queued, None, None)
  const SECOND := Move(2, Queued, None, None)
  const THIRD := Move(3, Queued, None, None)

  const SETTLED := Move(1, Done, Some("t"), None)
  const SKIPPED := Move(2, Skipped, None, Some("full"))

  function TheScene(): Scene {
    Scene(ThreePlan(FIRST, SECOND, THIRD), ThreePlan(Move(1, Migrating, Some("t"), None), SECOND, THIRD),
          ThreePlan(SETTLED, SECOND, THIRD), ThreePlan(SETTLED, SKIPPED, THIRD),
          ThreePlan(SETTLED, SKIPPED, Move(3, Migrating, Some("u"), None)))
  }

  lemma IdlePlan(a: Move, b: Move, d: Move, k: nat)
    requires a.vmid == 1 && b.vmid == 2 && d.vmid == 3 && k < 3
    requires a.status != Migrating && b.status != Migrating && d.status != Migrating
    requires a.status == Queued <==> k == 0
    requires k > 0 ==> (b.status == Queued <==> k == 1)
    requires k == 2 ==> d.status == Queued
    ensures Idle(ThreePlan(a, b, d), k)
  {
    ThreeMoves(ThreePlan(a, b, d).moves);
  }

  lemma SceneMoves()
    ensures var c := TheScene(); SetLocal(c.p0, 0, Outcome(Migrating, Some("t"), None)) == c.p1
    ensures var c := TheScene(); SetLocal(c.p1, 0, DONE) == c.p2 && SetLocal(c.p2, 1, FULL) == c.p3
    ensures var c := TheScene(); SetLocal(c.p3, 2, Outcome(Migrating, Some("u"), None)) == c.p4 && SetLocal(c.p4, 0, DONE) == c.p4
  {
  }

  lemma SceneFollows()
    ensures Follow(TheScene())
  {
    SceneMoves();
    SceneIdles(TheScene());
    SceneBusy(TheScene());
  }

  lemma SceneBusy(c: Scene)
    requires c == TheScene()
    ensures Busy(c.p1, 0, "t") && Busy(c.p4, 2, "u") && c.p4.id == c.p1.id && c.p4.moves[0].vmid == c.p1.moves[0].vmid
  {
  }

  lemma SceneIdles(c: Scene)
    requires c == TheScene()
    ensures Idle(c.p0, 0) && Idle(c.p2, 1) && Idle(c.p3, 2)
  {
    IdlePlan(FIRST, SECOND, THIRD, 0);
    IdlePlan(SETTLED, SECOND, THIRD, 1);
    IdlePlan(SETTLED, SKIPPED, THIRD, 2);
  }

  lemma SceneStarts()
    ensures TheScene().p0 == Plan("p", Active, QueuedMoves([1, 2, 3]))
  {
    assert QueuedMoves([1, 2, 3]) == [FIRST, SECOND, THIRD];
  }

  // ---- Single stretches ----

  /** A tick learns that the first move of its copy is done, and writes it. */
  lemma SettleStep(s: State, cap: nat, i: nat, copy: Plan, q: Plan)
    requires i < |s.ticks| && s.ticks[i] == Polling(copy, 0) && Busy(copy, 0, "t") && "t" !in s.running
    requires s.store == Some(q) && q.id == copy.id && q.status == Active && q.moves != [] && DistinctVmids(q.moves)
    requires q.moves[0].vmid == copy.moves[0].vmid
    ensures Next(s, cap, TickPoll(i, Finished(true, ""))) ==
            WithTick(s.(store := Some(SetLocal(q, 0, DONE))), i, Polling(SetLocal(copy, 0, DONE), 1))
  {
    RecordedAt(q, 0, DONE);
  }

  lemma SkipSteps(s: State, cap: nat, i: nat, p: Plan, others: nat)
    requires i < |s.ticks| && s.ticks[i] == Polling(p, 3) && s.store == Some(p) && Idle(p, 1) && others < cap
    requires Unresolved(SetLocal(p, 1, FULL).moves)
    ensures Next(Next(s, cap, TickChoose(i, others, Skip("full"))), cap, TickFinish(i)) ==
            s.(store := Some(SetLocal(p, 1, FULL)), ticks := s.ticks[i := Over])
  {
    RecordedAt(p, 1, FULL);
    var s1 := Next(s, cap, TickChoose(i, others, Skip("full")));
    assert s1 == WithTick(s.(store := Some(SetLocal(p, 1, FULL))), i, Finishing(SetLocal(p, 1, FULL)));
    assert s1.ticks[i := Over] == s.ticks[i := Over];
  }

  lemma {:induction false} SkipRuns(s: State, cap: nat, i: nat, p: Plan, others: nat)
    requires i < |s.ticks| && s.ticks[i] == Polling(p, 3) && s.store == Some(p) && Idle(p, 1) && others < cap
    requires Unresolved(SetLocal(p, 1, FULL).moves)
    ensures Run(s, cap, [TickChoose(i, others, Skip("full")), TickFinish(i)]) ==
            s.(store := Some(SetLocal(p, 1, FULL)), ticks := s.ticks[i := Over])
  {
    SkipSteps(s, cap, i, p, others);
    RunTwo(s, cap, TickChoose(i, others, Skip("full")), TickFinish(i));
  }

  // ---- The run ----

  /** The first migration starts, and the tick that will be delayed reads the plan. */
  function Delay(others: nat): seq<Event> {
    ReadAndPoll(0, 3) + StartAndRecord(0, others, "t") + [TickRead]
  }

  lemma {:induction false} ToDelayed(c: Scene, s: State, cap: nat)
    requires cap >= 1 && Follow(c) && s == State(Some(c.p0), [], [], {c.p0.id}, {}, [], {}, {})
    ensures Run(s, cap, Delay(cap - 1)) ==
            State(Some(c.p1), [Over, Polling(c.p1, 0)], [], s.used, {}, [(c.p0.id, c.p0.moves[0].vmid)], {"t"}, {"t"})
  {
    ReadyRuns(s, cap, c.p0, {});
    RunAppend(s, cap, ReadAndPoll(0, 3), StartAndRecord(0, cap - 1, "t"));
    var s1 := Poised(s, c.p0);
    assert s1.ticks == [Polling(c.p0, 3)];
    StartRuns(s1, cap, 0, c.p0, cap - 1, "t", {});
    var s2 := State(Some(c.p1), [Over], [], s.used, {}, [(c.p0.id, c.p0.moves[0].vmid)], {"t"}, {"t"});
    assert AfterStart(s1, 0, c.p0, "t") == s2;
    RunAppend(s, cap, ReadAndPoll(0, 3) + StartAndRecord(0, cap - 1, "t"), [TickRead]);
    RunOne(s2, cap, TickRead);
    assert s2.ticks + [Polling(c.p1, 0)] == [Over, Polling(c.p1, 0)];
  }

  /** The migration ends; a second tick settles it and skips the next move. */
  function Bypass(others: nat): seq<Event> {
    [TaskEnds("t"), TickRead, TickPoll(2, Finished(true, ""))]
    + (Polls(2, 2) + [TickChoose(2, others, Skip("full")), TickFinish(2)])
  }

  lemma {:induction false} SecondTickSettles(c: Scene, s: State, cap: nat)
    requires Follow(c) && s.store == Some(c.p1) && s.ticks == [Over, Polling(c.p1, 0)] && s.running == {"t"}
    ensures Run(s, cap, [TaskEnds("t"), TickRead, TickPoll(2, Finished(true, ""))]) ==
            s.(store := Some(c.p2), ticks := [Over, Polling(c.p1, 0), Polling(c.p2, 1)], running := {})
  {
    RunThree(s, cap, TaskEnds("t"), TickRead, TickPoll(2, Finished(true, "")));
    var s2 := s.(ticks := [Over, Polling(c.p1, 0), Polling(c.p1, 0)], running := {});
    assert Next(Next(s, cap, TaskEnds("t")), cap, TickRead) == s2;
    SettleStep(s2, cap, 2, c.p1, c.p1);
    assert s2.ticks[2 := Polling(c.p2, 1)] == [Over, Polling(c.p1, 0), Polling(c.p2, 1)];
  }

  lemma {:induction false} SecondTickSkips(p1: Plan, p2: Plan, s: State, cap: nat)
    requires cap >= 1 && Idle(p2, 1) && Unresolved(SetLocal(p2, 1, FULL).moves)
    requires s.store == Some(p2) && s.ticks == [Over, Polling(p1, 0), Polling(p2, 1)]
    ensures Run(s, cap, Polls(2, 2) + [TickChoose(2, cap - 1, Skip("full")), TickFinish(2)]) ==
            s.(store := Some(SetLocal(p2, 1, FULL)), ticks := [Over, Polling(p1, 0), Over])
  {
    var last := [TickChoose(2, cap - 1, Skip("full")), TickFinish(2)];
    var s1 := s.(ticks := [Over, Polling(p1, 0), Polling(p2, 3)]);
    PollsPass(s, cap, 2, 2);
    assert s.ticks[2 := Polling(p2, 3)] == s1.ticks;
    SkipRuns(s1, cap, 2, p2, cap - 1);
    RunAppend(s, cap, Polls(2, 2), last);
    assert s1.ticks[2 := Over] == [Over, Polling(p1, 0), Over];
  }

  lemma {:induction false} ToBypassed(c: Scene, s: State, cap: nat)
    requires cap >= 1 && Follow(c) && s.store == Some(c.p1) && s.ticks == [Over, Polling(c.p1, 0)] && s.running == {"t"}
    ensures Run(s, cap, Bypass(cap - 1)) == s.(store := Some(c.p3), ticks := [Over, Polling(c.p1, 0), Over], running := {})
  {
    SecondTickSettles(c, s, cap);
    var s3 := s.(store := Some(c.p2), ticks := [Over, Polling(c.p1, 0), Polling(c.p2, 1)], running := {});
    assert c.p3.moves[FirstQueued(c.p3.moves)].status == Queued;
    SecondTickSkips(c.p1, c.p2, s3, cap);
    RunAppend(s, cap, [TaskEnds("t"), TickRead, TickPoll(2, Finished(true, ""))],
              Polls(2, 2) + [TickChoose(2, cap - 1, Skip("full")), TickFinish(2)]);
  }

  /** A third tick starts the last move; then the delayed tick resumes and settles the first move in its old copy. */
  function Third(others: nat): seq<Event> {
    ReadAndPoll(3, 3) + StartAndRecord(3, others, "u")
  }

  function Resume(): seq<Event> {
    [TickPoll(1, Finished(true, ""))] + Polls(1, 2)
  }

  lemma {:induction false} ThirdTickStarts(c: Scene, s: State, cap: nat)
    requires cap >= 1 && Follow(c) && s.store == Some(c.p3) && s.ticks == [Over, Polling(c.p1, 0), Over]
    requires s.running == {} && s.upids == {"t"} && "u" != "t"
    ensures Run(s, cap, Third(cap - 1)) ==
            s.(store := Some(c.p4), ticks := [Over, Polling(c.p1, 0), Over, Over],
               launches := s.launches + [(c.p3.id, c.p3.moves[2].vmid)], upids := {"t", "u"}, running := {"u"})
  {
    ReadyRuns(s, cap, c.p3, {});
    RunAppend(s, cap, ReadAndPoll(3, 3), StartAndRecord(3, cap - 1, "u"));
    var s1 := Poised(s, c.p3);
    StartRuns(s1, cap, 3, c.p3, cap - 1, "u", {});
    assert s1.ticks[3 := Over] == [Over, Polling(c.p1, 0), Over, Over];
    assert s.upids + {"u"} == {"t", "u"};
  }

  lemma {:induction false} DelayedTickResumes(c: Scene, s: State, cap: nat)
    requires Follow(c) && s.store == Some(c.p4) && s.ticks == [Over, Polling(c.p1, 0), Over, Over] && s.running == {"u"} && "u" != "t"
    ensures Run(s, cap, Resume()) == s.(ticks := [Over, Polling(c.p2, 3), Over, Over])
  {
    SettleStep(s, cap, 1, c.p1, c.p4);
    var s1 := s.(ticks := [Over, Polling(c.p2, 1), Over, Over]);
    assert WithTick(s, 1, Polling(c.p2, 1)) == s1;
    RunAppend(s, cap, [TickPoll(1, Finished(true, ""))], Polls(1, 2));
    RunOne(s, cap, TickPoll(1, Finished(true, "")));
    PollsPass(s1, cap, 1, 2);
    assert s1.ticks[1 := Polling(c.p2, 3)] == [Over, Polling(c.p2, 3), Over, Over];
  }

  function Path(others: nat): seq<Event> {
    Activation("p", [1, 2, 3]) + (Delay(others) + Bypass(others) + Third(others) + Resume())
  }

  /** The delayed tick is about to choose the move that another tick has skipped, while a third tick's migration runs. */
  lemma {:induction false} ToResumed(c: Scene, cap: nat)
    requires cap >= 1 && Follow(c) && c.p0 == Plan("p", Active, QueuedMoves([1, 2, 3])) && "u" != "t"
    ensures var s := Run(START, cap, Path(cap - 1));
            && s.store == Some(c.p4) && s.ticks == [Over, Polling(c.p2, 3), Over, Over]
            && s.upids == {"t", "u"} && s.running == {"u"} && s.ended == {}
  {
    var s0 := State(Some(c.p0), [], [], {"p"}, {}, [], {}, {});
    var delay, bypass, third := Delay(cap - 1), Bypass(cap - 1), Third(cap - 1);
    ActivationRuns(START, cap, "p", [1, 2, 3]);
    assert Activated(START, "p", [1, 2, 3]) == s0;
    RunAppend(START, cap, Activation("p", [1, 2, 3]), delay + bypass + third + Resume());
    ToDelayed(c, s0, cap);
    RunAppend(s0, cap, delay, bypass);
    ToBypassed(c, Run(s0, cap, delay), cap);
    RunAppend(s0, cap, delay + bypass, third);
    ThirdTickStarts(c, Run(s0, cap, delay + bypass), cap);
    RunAppend(s0, cap, delay + bypass + third, Resume());
    DelayedTickResumes(c, Run(s0, cap, delay + bypass + third), cap);
  }

  lemma DistinctNames()
    ensures "v" != "u" && "v" != "t" && "t" != "u"
  {
    assert "v"[0] != "u"[0] && "v"[0] != "t"[0] && "t"[0] != "u"[0];
  }

  predicate NothingRisky(events: seq<Event>) {
    forall i :: 0 <= i < |events| ==> Harmless(events[i], {KeepPlan, RecordStart, StoreEnd})
  }

  lemma DelayIsHarmless(others: nat)
    ensures NothingRisky(Delay(others)) && NothingRisky(Third(others))
  {
  }

  lemma BypassIsHarmless(others: nat)
    ensures NothingRisky(Bypass(others)) && NothingRisky(Resume())
  {
  }

  lemma {:induction false} PathObeys(cap: nat, others: nat)
    ensures Obey(START, cap, Path(others), {KeepPlan, RecordStart, StoreEnd})
  {
    var act, delay, bypass, third := Activation("p", [1, 2, 3]), Delay(others), Bypass(others), Third(others);
    ActivationObeys(START, cap, "p", [1, 2, 3], {KeepPlan, RecordStart, StoreEnd});
    DelayIsHarmless(others);
    BypassIsHarmless(others);
    assert NothingRisky(delay + bypass);
    assert NothingRisky(delay + bypass + third);
    assert NothingRisky(delay + bypass + third + Resume());
    HarmlessObey(Run(START, cap, act), cap, delay + bypass + third + Resume(), {KeepPlan, RecordStart, StoreEnd});
    JoinObey(START, cap, act, delay + bypass + third + Resume(), {KeepPlan, RecordStart, StoreEnd});
  }

  /** What the delayed tick records: the stored plan shows two migrations. */
  lemma LastRecord(c: Scene, s: State, cap: nat)
    requires cap >= 1 && Follow(c) && "v" !in s.upids && s.ended == {}
    requires s.store == Some(c.p4) && s.ticks == [Over, Polling(c.p2, 3), Over, Over]
    ensures var store := Next(Next(s, cap, TickChoose(1, cap - 1, Launch("v"))), cap, TickRecord(1)).store;
            store.Some? && InFlight(store.value.moves) == 2
  {
    StartStep(s, cap, 1, c.p2, cap - 1, "v");
    var o := Outcome(Migrating, Some("v"), None);
    RecordedAt(c.p4, 1, o);
    assert Begun(c.p2, "v").moves[1].vmid == c.p4.moves[1].vmid;
    assert Next(StartedState(s, 1, c.p2, "v"), cap, TickRecord(1)).store == Some(SetLocal(c.p4, 1, o));
    ThreeMoves(SetLocal(c.p4, 1, o).moves);
  }

  lemma {:induction false} LastRuns(c: Scene, path: seq<Event>, cap: nat)
    requires cap >= 1 && Follow(c) && var s := Run(START, cap, path);
             && "v" !in s.upids && s.ended == {} && s.store == Some(c.p4) && s.ticks == [Over, Polling(c.p2, 3), Over, Over]
    ensures var store := Run(START, cap, path + [TickChoose(1, cap - 1, Launch("v"))] + [TickRecord(1)]).store;
            store.Some? && InFlight(store.value.moves) == 2
  {
    var s, e := Run(START, cap, path), TickChoose(1, cap - 1, Launch("v"));
    LastRecord(c, s, cap);
    RunTwo(s, cap, e, TickRecord(1));
    RunAppend(START, cap, path, [e, TickRecord(1)]);
    assert path + [e] + [TickRecord(1)] == path + [e, TickRecord(1)];
  }

  /**
   Two ticks under way exceed the cap without breaking another rule: the one that was delayed
   starts a move another tick has skipped, while a third tick's migration runs. Once it has
   recorded the start, the stored plan shows two migrations, whatever the cap.
   */
  lemma {:induction false} OverlappingTicksOverrun(cap: nat) returns (events: seq<Event>)
    requires cap >= 1
    ensures Obey(START, cap, events, {KeepPlan, RecordStart, StoreEnd}) && !NeverOverruns(START, cap, events)
    ensures var store := Run(START, cap, events + [TickRecord(1)]).store; store.Some? && InFlight(store.value.moves) == 2
  {
    var c := TheScene();
    SceneFollows();
    SceneStarts();
    DistinctNames();
    ToResumed(c, cap);
    events := Path(cap - 1) + [TickChoose(1, cap - 1, Launch("v"))];
    ResumedOverruns(c.p2, cap);
    LastRuns(c, Path(cap - 1), cap);
  }

  lemma {:induction false} ResumedOverruns(p: Plan, cap: nat)
    requires cap >= 1 && Idle(p, 1)
    requires var s := Run(START, cap, Path(cap - 1));
             && |s.ticks| == 4 && s.ticks[1] == Polling(p, 3) && s.running == {"u"} && s.upids == {"t", "u"}
    ensures var events := Path(cap - 1) + [TickChoose(1, cap - 1, Launch("v"))];
            Obey(START, cap, events, {KeepPlan, RecordStart, StoreEnd}) && !NeverOverruns(START, cap, events)
  {
    PathObeys(cap, cap - 1);
    DistinctNames();
    LastStart(cap, Path(cap - 1), 1, p, {KeepPlan, RecordStart, StoreEnd});
  }
}
