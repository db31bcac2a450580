/** Runs of the rebalance plan, put together from the usual stretches of events. */
module PlanRuns {
  import opened Options
  import opened PlanStore
  import opened PlanProtocol

  lemma {:induction false} RunOne(s: State, cap: nat, e: Event)
    ensures Run(s, cap, [e]) == Next(s, cap, e)
  {
    assert [e][1..] == [];
  }

  lemma {:induction false} RunCons(s: State, cap: nat, e: Event, rest: seq<Event>)
    ensures Run(s, cap, [e] + rest) == Run(Next(s, cap, e), cap, rest)
  {
    assert ([e] + rest)[1..] == rest;
  }

  lemma {:induction false} RunAppend(s: State, cap: nat, a: seq<Event>, b: seq<Event>)
    ensures Run(s, cap, a + b) == Run(Run(s, cap, a), cap, b)
    decreases |a|
  {
    if a == [] {
      assert a + b == b;
    } else {
      assert (a + b)[1..] == a[1..] + b;
      RunAppend(Next(s, cap, a[0]), cap, a[1..], b);
    }
  }

  // ---- A plan is computed and applied ----

  function Activation(id: string, vmids: seq<int>): seq<Event> {
    [ComputeRead, ComputeWrite(0, id, vmids), ApplyEvent(id)]
  }

  function Activated(s: State, id: string, vmids: seq<int>): State {
    s.(store := Some(Plan(id, Active, QueuedMoves(vmids))), used := s.used + {id})
  }

  ghost predicate CanActivate(s: State, id: string, vmids: seq<int>) {
    && s.pending == [] && !(s.store.Some? && s.store.value.status == Active)
    && id !in s.used && vmids != [] && DistinctVmids(QueuedMoves(vmids))
  }

  lemma ActivationSteps(s: State, cap: nat, id: string, vmids: seq<int>)
    requires CanActivate(s, id, vmids)
    ensures var s1 := Next(s, cap, ComputeRead);
            var s2 := Next(s1, cap, ComputeWrite(0, id, vmids));
            && s1 == s.(pending := [ComputePending({})])
            && s2 == s.(store := Some(DraftPlan(id, vmids)), used := s.used + {id})
            && Next(s2, cap, ApplyEvent(id)) == Activated(s, id, vmids)
  {
    var s1 := Next(s, cap, ComputeRead);
    var s2 := Next(s1, cap, ComputeWrite(0, id, vmids));
    assert s1.pending == [ComputePending({})];
    assert s2.pending == [];
    assert NoteApplied(s2.pending, id) == [];
  }

  lemma {:induction false} ActivationRuns(s: State, cap: nat, id: string, vmids: seq<int>)
    requires CanActivate(s, id, vmids)
    ensures Run(s, cap, Activation(id, vmids)) == Activated(s, id, vmids)
  {
    ActivationSteps(s, cap, id, vmids);
    var rest := [ComputeWrite(0, id, vmids), ApplyEvent(id)];
    assert Activation(id, vmids) == [ComputeRead] + rest && rest == [ComputeWrite(0, id, vmids)] + [ApplyEvent(id)];
    RunCons(s, cap, ComputeRead, rest);
    RunCons(Next(s, cap, ComputeRead), cap, ComputeWrite(0, id, vmids), [ApplyEvent(id)]);
    RunOne(Next(Next(s, cap, ComputeRead), cap, ComputeWrite(0, id, vmids)), cap, ApplyEvent(id));
  }

  // ---- A plan is cancelled while a tick holds it ----

  const ONE_MOVE := Plan("a", Active, QueuedMoves([1]))

  /** A plan of one move, read by a tick that has polled and not chosen yet, and by a cancel that has not written yet. */
  const HALF_CANCELLED := State(Some(ONE_MOVE), [Polling(ONE_MOVE, 1)], [CancelPending("a")], {"a"}, {}, [], {}, {})

  function HalfCancelled(): seq<Event> {
    Activation("a", [1]) + [TickRead, CancelRead("a"), TickPoll(0, StillRunning)]
  }

  lemma HalfCancelledSteps(cap: nat, s0: State)
    requires s0 == State(Some(ONE_MOVE), [], [], {"a"}, {}, [], {}, {})
    ensures var s1 := s0.(ticks := [Polling(ONE_MOVE, 0)]);
            var s2 := s1.(pending := [CancelPending("a")]);
            && Next(s0, cap, TickRead) == s1 && Next(s1, cap, CancelRead("a")) == s2
            && Next(s2, cap, TickPoll(0, StillRunning)) == HALF_CANCELLED
  {
    assert [Polling(ONE_MOVE, 0)][0 := Polling(ONE_MOVE, 1)] == [Polling(ONE_MOVE, 1)];
  }

  lemma {:induction false} HalfCancelledRuns(cap: nat)
    ensures Run(START, cap, HalfCancelled()) == HALF_CANCELLED
  {
    var s0 := State(Some(ONE_MOVE), [], [], {"a"}, {}, [], {}, {});
    ActivationRuns(START, cap, "a", [1]);
    assert Activated(START, "a", [1]) == s0;
    RunAppend(START, cap, Activation("a", [1]), [TickRead, CancelRead("a"), TickPoll(0, StillRunning)]);
    HalfCancelledSteps(cap, s0);
    RunThree(s0, cap, TickRead, CancelRead("a"), TickPoll(0, StillRunning));
  }

  lemma {:induction false} RunThree(s: State, cap: nat, a: Event, b: Event, c: Event)
    ensures Run(s, cap, [a, b, c]) == Next(Next(Next(s, cap, a), cap, b), cap, c)
  {
    assert [a, b, c] == [a] + [b, c];
    RunCons(s, cap, a, [b, c]);
    RunTwo(Next(s, cap, a), cap, b, c);
  }

  lemma {:induction false} SingleMove(moves: seq<Move>)
    requires |moves| == 1 && moves[0].status == Queued
    ensures InFlight(moves) == 0 && FirstQueued(moves) == 0 && DistinctVmids(moves)
  {
    NoneInFlight(moves);
  }

  lemma {:induction false} RunTwo(s: State, cap: nat, a: Event, b: Event)
    ensures Run(s, cap, [a, b]) == Next(Next(s, cap, a), cap, b)
  {
    assert [a, b] == [a] + [b];
    RunCons(s, cap, a, [b]);
    RunOne(Next(s, cap, a), cap, b);
  }

  // ---- A tick polls without news ----

  function Polls(i: nat, n: nat): (r: seq<Event>)
    ensures |r| == n && forall k :: 0 <= k < n ==> r[k] == TickPoll(i, StillRunning)
  {
    seq(n, _ => TickPoll(i, StillRunning))
  }

  lemma {:induction false} PollsPass(s: State, cap: nat, i: nat, n: nat)
    requires i < |s.ticks| && s.ticks[i].Polling? && s.ticks[i].next + n <= |s.ticks[i].copy.moves|
    ensures Run(s, cap, Polls(i, n)) == WithTick(s, i, Polling(s.ticks[i].copy, s.ticks[i].next + n))
    decreases n
  {
    if n == 0 {
      assert s.ticks[i := s.ticks[i]] == s.ticks;
    } else {
      var t := Polling(s.ticks[i].copy, s.ticks[i].next + 1);
      assert Next(s, cap, TickPoll(i, StillRunning)) == WithTick(s, i, t);
      assert Polls(i, n) == [TickPoll(i, StillRunning)] + Polls(i, n - 1);
      RunCons(s, cap, TickPoll(i, StillRunning), Polls(i, n - 1));
      PollsPass(WithTick(s, i, t), cap, i, n - 1);
      assert s.ticks[i := t][i := Polling(t.copy, t.next + n - 1)] == s.ticks[i := Polling(t.copy, t.next + n - 1)];
    }
  }

  // ---- Fresh task ids ----

  /** Some string is in no given finite set. */
  lemma {:induction false} FreshString(taken: set<string>) returns (name: string)
    ensures name !in taken
  {
    var n := LongerThanAll(taken);
    name := seq(n, _ => 'x');
  }

  lemma {:induction false} LongerThanAll(taken: set<string>) returns (n: nat)
    ensures forall t :: t in taken ==> |t| < n
    decreases taken
  {
    if taken == {} {
      n := 0;
    } else {
      var t :| t in taken;
      var m := LongerThanAll(taken - {t});
      n := if |t| < m then m else |t| + 1;
      assert forall u :: u in taken ==> u == t || u in taken - {t};
    }
  }
}
