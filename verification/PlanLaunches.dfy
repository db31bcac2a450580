/** Which migrations of a plan can still start after it has ended. */
module PlanLaunches {
  import opened PlanStore
  import opened PlanProtocol
  import opened PlanRuns
  import opened PlanTheorems

  function Launches(s: State, id: string): nat {
    LaunchesIn(s.launches, id)
  }

  function LaunchesIn(launches: seq<(string, int)>, id: string): nat {
    if launches == [] then 0
    else LaunchesIn(launches[..|launches| - 1], id) + if launches[|launches| - 1].0 == id then 1 else 0
  }

  /** A tick that can still start a migration of the plan: a queued move in its copy, and room after the moves already polled. */
  predicate CouldLaunch(t: Tick, cap: nat, id: string) {
    && t.Polling? && t.copy.id == id && t.next <= |t.copy.moves|
    && FirstQueued(t.copy.moves) >= 0 && InFlight(t.copy.moves[..t.next]) < cap
  }

  /** How many ticks can. */
  function CanLaunch(ticks: seq<Tick>, cap: nat, id: string): nat {
    if ticks == [] then 0
    else CanLaunch(ticks[..|ticks| - 1], cap, id) + if CouldLaunch(ticks[|ticks| - 1], cap, id) then 1 else 0
  }

  lemma {:induction false} CanLaunchUpdate(ticks: seq<Tick>, cap: nat, id: string, i: nat, t: Tick)
    requires i < |ticks|
    ensures CanLaunch(ticks[i := t], cap, id) ==
            CanLaunch(ticks, cap, id) + (if CouldLaunch(t, cap, id) then 1 else 0) - (if CouldLaunch(ticks[i], cap, id) then 1 else 0)
  {
    var init, updated := ticks[..|ticks| - 1], ticks[i := t];
    if i < |ticks| - 1 {
      assert updated[..|ticks| - 1] == init[i := t];
      CanLaunchUpdate(init, cap, id, i, t);
    } else {
      assert updated[..|ticks| - 1] == init;
    }
  }

  lemma {:induction false} SomeTickCan(ticks: seq<Tick>, cap: nat, id: string) returns (i: nat)
    requires CanLaunch(ticks, cap, id) > 0
    ensures i < |ticks| && CouldLaunch(ticks[i], cap, id)
  {
    i := |ticks| - 1;
    if !CouldLaunch(ticks[i], cap, id) { i := SomeTickCan(ticks[..i], cap, id); }
  }

  /** One more polled move: the prefix grows by that move, as it stands after the poll. */
  lemma {:induction false} PrefixGrows(moves: seq<Move>, n: nat, m: Move)
    requires n < |moves|
    ensures InFlight(moves[n := m][..n + 1]) == InFlight(moves[..n]) + if m.status == Migrating then 1 else 0
  {
    assert moves[n := m][..n + 1] == moves[..n] + [m];
    assert (moves[..n] + [m])[..n] == moves[..n];
  }

  lemma PolledChance(t: Tick, m: Move, cap: nat, id: string)
    requires t.Polling? && t.next < |t.copy.moves| && (m == t.copy.moves[t.next] || m.status != Queued)
    requires CouldLaunch(Polling(t.copy.(moves := t.copy.moves[t.next := m]), t.next + 1), cap, id)
    ensures CouldLaunch(t, cap, id)
  {
    PrefixGrows(t.copy.moves, t.next, m);
    var k := FirstQueued(t.copy.moves[t.next := m]);
    assert t.copy.moves[k].status == Queued;
  }

  lemma PollingLosesChances(s: State, cap: nat, i: nat, result: PollResult, id: string)
    requires Inv(s) && i < |s.ticks|
    ensures var s' := Next(s, cap, TickPoll(i, result));
            |s'.ticks| == |s.ticks| && (CouldLaunch(s'.ticks[i], cap, id) ==> CouldLaunch(s.ticks[i], cap, id))
  {
    var s', t := Next(s, cap, TickPoll(i, result)), s.ticks[i];
    if s'.ticks[i] != t && CouldLaunch(s'.ticks[i], cap, id) {
      var moves, n := t.copy.moves, t.next;
      assert moves[n := moves[n]] == moves;
      PolledChance(t, s'.ticks[i].copy.moves[n], cap, id);
    }
  }

  /** After the end of a plan each start of one of its migrations uses up a tick that could start one. */
  lemma {:induction false} StepLaunches(s: State, cap: nat, e: Event, id: string)
    requires Inv(s) && id in s.ended
    ensures Launches(Next(s, cap, e), id) + CanLaunch(Next(s, cap, e).ticks, cap, id) <= Launches(s, id) + CanLaunch(s.ticks, cap, id)
  {
    var s' := Next(s, cap, e);
    match e {
      case TickRead =>
        if s'.ticks != s.ticks { assert s'.ticks[..|s'.ticks| - 1] == s.ticks; }
      case TickPoll(i, result) =>
        if i < |s.ticks| {
          PollingLosesChances(s, cap, i, result, id);
          assert s'.ticks == s.ticks[i := s'.ticks[i]];
          CanLaunchUpdate(s.ticks, cap, id, i, s'.ticks[i]);
        }
      case TickChoose(i, others, choice) => ChooseLaunches(s, cap, i, others, choice, id);
      case TickRecord(i) =>
        if i < |s.ticks| { assert s'.ticks == s.ticks[i := s'.ticks[i]]; CanLaunchUpdate(s.ticks, cap, id, i, s'.ticks[i]); }
      case TickRecordFails(i, _) =>
        if i < |s.ticks| { assert s'.ticks == s.ticks[i := s'.ticks[i]]; CanLaunchUpdate(s.ticks, cap, id, i, s'.ticks[i]); }
      case TickFinish(i) =>
        if i < |s.ticks| { assert s'.ticks == s.ticks[i := s'.ticks[i]]; CanLaunchUpdate(s.ticks, cap, id, i, s'.ticks[i]); }
      case TickAbort(i) =>
        if i < |s.ticks| { CanLaunchUpdate(s.ticks, cap, id, i, Over); }
      case _ =>
    }
  }

  lemma {:induction false} ChooseLaunches(s: State, cap: nat, i: nat, others: nat, choice: Choice, id: string)
    requires Inv(s) && id in s.ended
    ensures var s' := Next(s, cap, TickChoose(i, others, choice));
            Launches(s', id) + CanLaunch(s'.ticks, cap, id) <= Launches(s, id) + CanLaunch(s.ticks, cap, id)
  {
    var s' := Next(s, cap, TickChoose(i, others, choice));
    if i < |s.ticks| && s'.ticks != s.ticks {
      var t := s.ticks[i];
      assert TickOk(s, t);
      assert t.copy.moves[..t.next] == t.copy.moves;
      assert s'.ticks == s.ticks[i := s'.ticks[i]];
      CanLaunchUpdate(s.ticks, cap, id, i, s'.ticks[i]);
      if s'.launches != s.launches { assert s'.launches[..|s'.launches| - 1] == s.launches; }
    }
  }

  /** After a plan has ended, each tick that still could starts at most one more of its migrations, and no later tick any. */
  lemma {:induction false} LateLaunchesBounded(s: State, cap: nat, events: seq<Event>, id: string)
    requires Inv(s) && id in s.ended
    ensures Launches(Run(s, cap, events), id) <= Launches(s, id) + CanLaunch(s.ticks, cap, id)
    decreases |events|
  {
    if events != [] {
      StepKeepsInv(s, cap, events[0]);
      StepRemembers(s, cap, events[0]);
      StepLaunches(s, cap, events[0], id);
      LateLaunchesBounded(Next(s, cap, events[0]), cap, events[1..], id);
    }
  }

  /** The tick's next poll passes without taking up room: a running migration has ended by then. */
  lemma {:induction false} PassMove(s: State, cap: nat, i: nat, id: string) returns (events: seq<Event>)
    requires Inv(s) && i < |s.ticks| && CouldLaunch(s.ticks[i], cap, id) && s.ticks[i].next < |s.ticks[i].copy.moves|
    ensures var s' := Run(s, cap, events);
            && |s'.ticks| == |s.ticks| && s'.ticks == s.ticks[i := s'.ticks[i]] && s'.launches == s.launches
            && CouldLaunch(s'.ticks[i], cap, id) && |s'.ticks[i].copy.moves| == |s.ticks[i].copy.moves|
            && s'.ticks[i].next == s.ticks[i].next + 1
  {
    var t := s.ticks[i];
    var n, k := t.next, FirstQueued(t.copy.moves);
    assert TickOk(s, t);
    var m := t.copy.moves[n];
    if m.status != Migrating {
      events := [TickPoll(i, StillRunning)];
      RunOne(s, cap, events[0]);
      assert t.copy.moves[n := m] == t.copy.moves;
      PrefixGrows(t.copy.moves, n, m);
    } else {
      events := [TaskEnds(m.upid.value), TickPoll(i, Finished(true, ""))];
      RunTwo(s, cap, events[0], events[1]);
      var done := WithOutcome(m, PollOutcome(true, ""));
      var moves := t.copy.moves[n := done];
      assert Run(s, cap, events).ticks[i] == Polling(t.copy.(moves := moves), n + 1);
      PrefixGrows(t.copy.moves, n, done);
      assert moves[k].status == Queued;
    }
  }

  /** A tick that can start a migration does, in some continuation. */
  lemma {:induction false} TickLaunches(s: State, cap: nat, i: nat, id: string) returns (events: seq<Event>)
    requires Inv(s) && i < |s.ticks| && CouldLaunch(s.ticks[i], cap, id)
    ensures var s' := Run(s, cap, events);
            && |s'.ticks| == |s.ticks| && s'.ticks == s.ticks[i := s'.ticks[i]] && !CouldLaunch(s'.ticks[i], cap, id)
            && Launches(s', id) == Launches(s, id) + 1
    decreases |s.ticks[i].copy.moves| - s.ticks[i].next
  {
    var t := s.ticks[i];
    if t.next < |t.copy.moves| {
      var first := PassMove(s, cap, i, id);
      var s1 := Run(s, cap, first);
      RunKeepsInv(s, cap, first);
      var rest := TickLaunches(s1, cap, i, id);
      RunAppend(s, cap, first, rest);
      events := first + rest;
    } else {
      var upid := FreshString(s.upids);
      events := [TickChoose(i, 0, Launch(upid))];
      RunOne(s, cap, events[0]);
      assert t.copy.moves[..t.next] == t.copy.moves;
      var s' := Run(s, cap, events);
      assert s'.launches[..|s'.launches| - 1] == s.launches;
    }
  }

  /** The bound is reached: in some continuation every tick that could start a migration does. */
  lemma {:induction false} LateLaunchesReached(s: State, cap: nat, id: string) returns (events: seq<Event>)
    requires Inv(s) && id in s.ended
    ensures Launches(Run(s, cap, events), id) == Launches(s, id) + CanLaunch(s.ticks, cap, id)
    decreases CanLaunch(s.ticks, cap, id)
  {
    events := [];
    if CanLaunch(s.ticks, cap, id) > 0 {
      var i := SomeTickCan(s.ticks, cap, id);
      var first := TickLaunches(s, cap, i, id);
      var s1 := Run(s, cap, first);
      CanLaunchUpdate(s.ticks, cap, id, i, s1.ticks[i]);
      RunKeepsInv(s, cap, first);
      RunRemembers(s, cap, first);
      var rest := LateLaunchesReached(s1, cap, id);
      RunAppend(s, cap, first, rest);
      events := first + rest;
    }
  }

  lemma {:induction false} LaunchesGrow(s: State, cap: nat, events: seq<Event>, id: string)
    ensures Launches(Run(s, cap, events), id) >= Launches(s, id)
    decreases |events|
  {
    if events != [] {
      var s' := Next(s, cap, events[0]);
      if s'.launches != s.launches { assert s'.launches[..|s'.launches| - 1] == s.launches; }
      LaunchesGrow(s', cap, events[1..], id);
    }
  }

  /**
   A cancel drops the queued moves for good, in every continuation, exactly when at that moment no
   tick under way could still start one.
   */
  lemma {:induction false} CancelStopsPlanExactly(s: State, cap: nat, p: nat)
    requires Inv(s) && p < |s.pending| && s.pending[p].CancelPending?
    requires s.store.Some? && s.store.value.id == s.pending[p].id
    ensures var id := s.pending[p].id;
            (forall events :: Launches(Run(Next(s, cap, CancelWrite(p)), cap, events), id) == Launches(s, id))
            <==> CanLaunch(s.ticks, cap, id) == 0
  {
    var id, s' := s.pending[p].id, Next(s, cap, CancelWrite(p));
    CancelKeepsInv(s, cap, p);
    assert id in s'.ended && s'.ticks == s.ticks && s'.launches == s.launches;
    if CanLaunch(s.ticks, cap, id) == 0 {
      forall events ensures Launches(Run(s', cap, events), id) == Launches(s, id) {
        LateLaunchesBounded(s', cap, events, id);
        LaunchesGrow(s', cap, events, id);
      }
    } else {
      var events := LateLaunchesReached(s', cap, id);
      assert Launches(Run(s', cap, events), id) != Launches(s, id);
    }
  }

  /** A run with a late launch: the cancel falls between a tick's read and its choice. */
  lemma {:induction false} LateLaunch(cap: nat) returns (cancelled: seq<Event>, late: Event)
    requires cap >= 1
    ensures var s := Run(START, cap, cancelled);
            && s.store.Some? && s.store.value.id == "a" && s.store.value.status == Cancelled && Launches(s, "a") == 0
            && Launches(Run(START, cap, cancelled + [late]), "a") == 1
  {
    cancelled, late := HalfCancelled() + [CancelWrite(0)], TickChoose(0, 0, Launch("u"));
    HalfCancelledRuns(cap);
    RunAppend(START, cap, HalfCancelled(), [CancelWrite(0)]);
    RunOne(HALF_CANCELLED, cap, CancelWrite(0));
    RunAppend(START, cap, cancelled, [late]);
    var s := Next(HALF_CANCELLED, cap, CancelWrite(0));
    RunOne(s, cap, late);
    SingleMove(ONE_MOVE.moves);
    var launches := Next(s, cap, late).launches;
    assert launches == [("a", 1)] && launches[..0] == [];
  }
}
