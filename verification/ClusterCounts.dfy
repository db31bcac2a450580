/**
 What a tick of the balancer counts, and what that leaves it to start: exactly the room the cap leaves,
 once every single migration it watches has been checked.
 */
module ClusterCounts {
  import opened Options
  import opened PlanStore
  import opened PlanProtocol
  import opened PlanCap
  import opened ClusterCap

  /** What the cap leaves when so many are in use. */
  function Left(cap: nat, used: int): nat {
    if used >= cap then 0 else cap - used
  }

  lemma {:induction false} CountIs(watched: seq<Watched>)
    ensures ActiveCount(watched) == |set j | 0 <= j < |watched| && !watched[j].completed|
  {
    if watched != [] {
      var init, last := watched[..|watched| - 1], |watched| - 1;
      CountIs(init);
      var a, b := set j | 0 <= j < |init| && !init[j].completed, set j | 0 <= j < |watched| && !watched[j].completed;
      assert b == a + if watched[last].completed then {} else {last};
      assert last !in a;
    }
  }

  // ---- Checking what is watched ----

  function Checks(i: nat, n: nat): (r: seq<Step>)
    ensures |r| == n && forall j :: 0 <= j < n ==> r[j] == Check(i, j)
  {
    seq(n, j requires 0 <= j < n => Check(i, j))
  }

  /** The first n entries have been checked: one that no longer runs is marked. */
  ghost predicate Checked(before: seq<Watched>, after: seq<Watched>, running: set<string>, n: nat) {
    && |after| == |before|
    && forall j :: 0 <= j < |before| ==>
         && after[j].upid == before[j].upid
         && (after[j].completed <==> before[j].completed || (j < n && before[j].upid !in running))
  }

  lemma {:induction false} FollowSnoc(c: Cluster, cap: nat, steps: seq<Step>, st: Step)
    ensures Follow(c, cap, steps + [st]) == Go(Follow(c, cap, steps), cap, st)
    decreases |steps|
  {
    if steps == [] {
      assert [] + [st] == [st] && [st][1..] == [];
    } else {
      assert (steps + [st])[1..] == steps[1..] + [st];
      FollowSnoc(Go(c, cap, steps[0]), cap, steps[1..], st);
    }
  }

  /** Checking changes the marks, and nothing else. */
  lemma {:induction false} ChecksMark(c: Cluster, cap: nat, i: nat, n: nat)
    requires i < |c.ticks| && c.ticks[i].Counting? && n <= |c.watched|
    ensures var d := Follow(c, cap, Checks(i, n));
            Checked(c.watched, d.watched, c.extra, n) && d == c.(watched := d.watched)
  {
    if n > 0 {
      ChecksMark(c, cap, i, n - 1);
      assert Checks(i, n) == Checks(i, n - 1) + [Check(i, n - 1)];
      FollowSnoc(c, cap, Checks(i, n - 1), Check(i, n - 1));
    }
  }

  ghost predicate DistinctUpids(watched: seq<Watched>) {
    forall i, j :: 0 <= i < j < |watched| ==> watched[i].upid != watched[j].upid
  }

  /** With every entry checked, the entries still open are those of the single migrations that run. */
  lemma OpenAreRunning(before: seq<Watched>, after: seq<Watched>, running: set<string>)
    requires Checked(before, after, running, |before|) && DistinctUpids(before)
    requires forall u :: u in running ==> IsWatched(before, u)
    ensures ActiveIds(after) == running && DistinctUpids(after)
  {
    forall u | u in running ensures u in ActiveIds(after) {
      var j :| 0 <= j < |before| && before[j] == Watched(u, false);
      assert after[j].upid == u && !after[j].completed;
    }
  }

  lemma {:induction false} DistinctCount(watched: seq<Watched>)
    requires DistinctUpids(watched)
    ensures ActiveCount(watched) == |ActiveIds(watched)|
  {
    if watched != [] {
      var init, last := watched[..|watched| - 1], watched[|watched| - 1];
      DistinctCount(init);
      assert watched == init + [last];
      IdsSnoc(init, last);
      NewId(init, last.upid);
    }
  }

  lemma IdsSnoc(init: seq<Watched>, last: Watched)
    ensures ActiveIds(init + [last]) == ActiveIds(init) + if last.completed then {} else {last.upid}
  {
    var all := init + [last];
    assert forall j :: 0 <= j < |init| ==> all[j] == init[j];
    assert all[|init|] == last;
  }

  lemma NewId(init: seq<Watched>, upid: string)
    requires forall i :: 0 <= i < |init| ==> init[i].upid != upid
    ensures upid !in ActiveIds(init)
  {
  }

  /**
   A tick that has checked every entry counts the single migrations that run, no more and no fewer;
   without an active plan it may then start exactly as many as the cap leaves.
   */
  lemma {:induction false} TickGetsTheRoomLeft(c: Cluster, cap: nat, i: nat)
    requires i < |c.ticks| && c.ticks[i].Counting? && AllWatched(c) && DistinctUpids(c.watched)
    ensures var d := Go(Follow(c, cap, Checks(i, |c.watched|)), cap, Count(i));
            && d.ticks == c.ticks[i := Planning(|c.extra|, None)]
            && (!(c.plan.store.Some? && c.plan.store.value.status == Active) ==>
                  Go(d, cap, PlanRead(i)).ticks == c.ticks[i := Starting(Left(cap, |c.extra|))])
  {
    var d := Follow(c, cap, Checks(i, |c.watched|));
    ChecksMark(c, cap, i, |c.watched|);
    OpenAreRunning(c.watched, d.watched, c.extra);
    DistinctCount(d.watched);
    assert Go(d, cap, Count(i)).ticks == c.ticks[i := Planning(|c.extra|, None)];
    assert c.ticks[i := Planning(|c.extra|, None)][i := Starting(Left(cap, |c.extra|))] == c.ticks[i := Starting(Left(cap, |c.extra|))];
  }

  ghost predicate WatchedOnce(c: Cluster) {
    DistinctUpids(c.watched) && forall j :: 0 <= j < |c.watched| ==> c.watched[j].upid in c.taken
  }

  lemma OtherStepsKeepWatched(c: Cluster, cap: nat, st: Step)
    requires !st.Check? && !st.StartSingle? && !st.Expire? && !st.Forget?
    ensures Go(c, cap, st).watched == c.watched && c.taken <= Go(c, cap, st).taken
  {
  }

  lemma ExpiryKeepsWatchedOnce(c: Cluster, cap: nat, j: nat)
    requires WatchedOnce(c) && j < |c.watched|
    ensures WatchedOnce(Go(c, cap, Expire(j)))
  {
    var rest := c.watched[..j] + c.watched[j + 1..];
    assert forall k :: 0 <= k < |rest| ==> rest[k] == c.watched[if k < j then k else k + 1];
  }

  lemma StepKeepsWatchedOnce(c: Cluster, cap: nat, st: Step)
    requires WatchedOnce(c)
    ensures WatchedOnce(Go(c, cap, st))
  {
    match st {
      case Expire(j) => if j < |c.watched| { ExpiryKeepsWatchedOnce(c, cap, j); }
      case Check(_, _) =>
      case StartSingle(_, _) =>
      case Forget =>
      case _ => OtherStepsKeepWatched(c, cap, st);
    }
  }

  /** No run watches one migration twice. */
  lemma {:induction false} RunWatchesOnce(c: Cluster, cap: nat, steps: seq<Step>)
    requires WatchedOnce(c)
    ensures WatchedOnce(Follow(c, cap, steps))
    decreases |steps|
  {
    if steps != [] {
      StepKeepsWatchedOnce(c, cap, steps[0]);
      RunWatchesOnce(Go(c, cap, steps[0]), cap, steps[1..]);
    }
  }

  // ---- What the plan's step leaves ----

  /** A finished step is counted by the moves migrating in its copy. */
  lemma DoneLeaves(c: Cluster, cap: nat, i: nat)
    requires InStep(c, i) && c.plan.ticks[c.ticks[i].step.value].Finishing?
    ensures var k := c.ticks[i].step.value;
            Go(c, cap, PlanDone(i)).ticks == c.ticks[i := Starting(Left(cap, c.ticks[i].active + InFlight(c.plan.ticks[k].copy.moves)))]
  {
  }

  /** A step that throws, its read included, is counted as if the plan had nothing in flight. */
  lemma ThrownLeaves(c: Cluster, cap: nat, i: nat)
    requires InStep(c, i) || BeforeStep(c, i)
    ensures Go(c, cap, PlanThrows(i)).ticks == c.ticks[i := Starting(Left(cap, c.ticks[i].active))]
    ensures Go(c, cap, PlanThrows(i)).plan.running == c.plan.running
  {
  }

  /** When a start is recorded as failed, the tick counts it only if it was answered and its record failed. */
  lemma FailedStartLeaves(c: Cluster, cap: nat, i: nat, message: string, counted: bool)
    requires Unrecorded(c, i) && c.plan.ticks[c.ticks[i].step.value].k < |c.plan.ticks[c.ticks[i].step.value].copy.moves|
    requires var t := c.plan.ticks[c.ticks[i].step.value]; t.copy.moves[t.k].status == Migrating
    ensures var t := c.plan.ticks[c.ticks[i].step.value];
            var d := Go(Go(c, cap, PlanFailed(i, message, counted)), cap, PlanDone(i));
            d.ticks == c.ticks[i := Starting(Left(cap, c.ticks[i].active + InFlight(t.copy.moves) - if counted then 0 else 1))]
            && d.plan.running == c.plan.running
  {
    var k := c.ticks[i].step.value;
    var t, o := c.plan.ticks[k], Outcome(Failed, None, Some(message));
    InFlightUpdate(t.copy.moves, t.k, WithOutcome(t.copy.moves[t.k], o));
    CountedMove(t.copy.moves, t.k);
    var d := Go(c, cap, PlanFailed(i, message, counted));
    assert d.plan.ticks[k] == Finishing(SetLocal(t.copy, t.k, o));
    DoneLeaves(d, cap, i);
    FinishKeepsRunning(d.plan, cap, k);
    assert d.ticks[i].step == Some(k);
  }

  lemma FinishKeepsRunning(s: State, cap: nat, k: nat)
    ensures Next(s, cap, TickFinish(k)).running == s.running
  {
  }

  lemma {:induction false} CountedMove(moves: seq<Move>, k: nat)
    requires k < |moves| && moves[k].status == Migrating
    ensures InFlight(moves) >= 1
  {
    if k < |moves| - 1 { CountedMove(moves[..|moves| - 1], k); }
  }

  // ---- Starting, ending, forgetting ----

  /** A single migration starts only within the tick's budget and under a new task id; a request that fails uses the budget up as well. */
  lemma StartsUseTheBudget(c: Cluster, cap: nat, i: nat, upid: string)
    requires i < |c.ticks| && c.ticks[i].Starting?
    ensures var b := c.ticks[i].budget;
            var can := b > 0 && upid !in c.taken && upid !in c.plan.upids;
            && (b > 0 ==> Go(c, cap, StartRefused(i)) == c.(ticks := c.ticks[i := Starting(b - 1)]))
            && (b == 0 ==> Go(c, cap, StartRefused(i)) == c)
            && (!can ==> Go(c, cap, StartSingle(i, upid)) == c && Go(c, cap, StartLost(i, upid)) == c)
            && (can ==>
                  var d := c.(ticks := c.ticks[i := Starting(b - 1)], extra := c.extra + {upid}, taken := c.taken + {upid});
                  && Go(c, cap, StartLost(i, upid)) == d
                  && Go(c, cap, StartSingle(i, upid)) == d.(watched := c.watched + [Watched(upid, false)]))
  {
  }

  /** A step of the plan starts nothing under the task id of a single migration. */
  lemma PlanStartsUnderNewIds(c: Cluster, cap: nat, i: nat, e: Event)
    requires e.TickChoose? && e.choice.Launch? && (e.choice.upid in c.taken || e.choice.upid in c.plan.upids)
    ensures Go(c, cap, PlanMove(i, e)).plan.running == c.plan.running
  {
  }

  /** Expiry takes out one entry, a restart all of them, and neither ends a migration. */
  lemma ForgettingEndsNothing(c: Cluster, cap: nat, a: seq<Watched>, w: Watched, b: seq<Watched>)
    requires c.watched == a + [w] + b
    ensures Go(c, cap, Expire(|a|)) == c.(watched := a + b)
    ensures Go(c, cap, Forget) == c.(watched := [])
  {
    assert c.watched[..|a|] == a && c.watched[|a| + 1..] == b;
  }

  /** A step whose tick ends with the process closes it; a tick closes itself only outside its step. */
  lemma ClosingTicks(c: Cluster, cap: nat, i: nat)
    requires i < |c.ticks|
    ensures InStep(c, i) ==> Go(c, cap, PlanDies(i)).ticks == c.ticks[i := Closed] && Go(c, cap, Close(i)) == c
    ensures !c.ticks[i].Planning? || c.ticks[i].step.None? ==>
              Go(c, cap, Close(i)) == c.(ticks := c.ticks[i := Closed]) && Go(c, cap, PlanDies(i)) == c
  {
  }
}
