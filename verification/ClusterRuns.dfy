/** For each of the six rules that keep the cluster's cap, a run that breaks only that rule and exceeds the cap, whatever the cap. */
module ClusterRuns {
  import opened Options
  import opened PlanStore
  import opened PlanProtocol
  import opened PlanRuns
  import PlanOverruns
  import opened ClusterCap

  // ---- Stretches of a run ----

  /** The steps lead from c to d and meet the needs. */
  ghost predicate Leads(c: Cluster, cap: nat, steps: seq<Step>, needs: set<Need>, d: Cluster) {
    Follow(c, cap, steps) == d && MeetAll(c, cap, steps, needs)
  }

  lemma {:induction false} Extend(c: Cluster, cap: nat, steps: seq<Step>, needs: set<Need>, d: Cluster, st: Step)
    requires Leads(c, cap, steps, needs, d) && forall n :: n in needs ==> Meets(d, cap, st, n)
    ensures Leads(c, cap, steps + [st], needs, Go(d, cap, st))
    decreases |steps|
  {
    if steps == [] {
      assert [] + [st] == [st] && [st][1..] == [];
    } else {
      assert (steps + [st])[1..] == steps[1..] + [st];
      Extend(Go(c, cap, steps[0]), cap, steps[1..], needs, d, st);
    }
  }

  lemma {:induction false} Join(c: Cluster, cap: nat, a: seq<Step>, b: seq<Step>, needs: set<Need>, d: Cluster, e: Cluster)
    requires Leads(c, cap, a, needs, d) && Leads(d, cap, b, needs, e)
    ensures Leads(c, cap, a + b, needs, e)
    decreases |a|
  {
    if a == [] {
      assert [] + b == b;
    } else {
      assert (a + b)[1..] == a[1..] + b;
      Join(Go(c, cap, a[0]), cap, a[1..], b, needs, d, e);
    }
  }

  /** Steps that can break none of the needs. */
  predicate Benign(st: Step, needs: set<Need>) {
    match st
    case SiteRead => NoOverlap !in needs
    case Act(_) => StaysActive !in needs
    case Erase => StaysActive !in needs
    case PlanThrows(_) => StepEnds !in needs
    case PlanDies(_) => StartRecorded !in needs
    case PlanFailed(_, _, _) => StartAnswered !in needs
    case StartLost(_, _) => StartAnswered !in needs
    case Expire(_) => Remembered !in needs
    case Forget => Remembered !in needs
    case _ => true
  }

  lemma {:induction false} Further(c: Cluster, cap: nat, steps: seq<Step>, needs: set<Need>, d: Cluster, st: Step)
    requires Leads(c, cap, steps, needs, d) && Benign(st, needs)
    ensures Leads(c, cap, steps + [st], needs, Go(d, cap, st))
  {
    forall n | n in needs ensures Meets(d, cap, st, n) { }
    Extend(c, cap, steps, needs, d, st);
  }

  lemma {:induction false} Here(c: Cluster, cap: nat, needs: set<Need>)
    ensures Leads(c, cap, [], needs, c)
  {
  }

  // ---- Single migrations that fill the cap ----

  ghost predicate AllPending(watched: seq<Watched>) {
    forall j :: 0 <= j < |watched| ==> !watched[j].completed
  }

  lemma {:induction false} PendingCount(watched: seq<Watched>)
    requires AllPending(watched)
    ensures ActiveCount(watched) == |watched|
  {
    if watched != [] { PendingCount(watched[..|watched| - 1]); }
  }

  /** n single migrations run and are watched; two task ids are still free. */
  ghost predicate Crowd(c: Cluster, n: nat) {
    |c.extra| == n && |c.watched| == n && AllPending(c.watched) && c.extra <= c.taken && "u" !in c.taken && "v" !in c.taken
  }

  lemma {:induction false} Fill(c: Cluster, cap: nat, i: nat, n: nat, m: nat, needs: set<Need>) returns (steps: seq<Step>, d: Cluster)
    requires Crowd(c, m) && i < |c.ticks| && c.ticks[i].Starting? && c.ticks[i].budget >= n
    ensures Leads(c, cap, steps, needs, d) && Crowd(d, m + n) && d.plan == c.plan && d.ticks == c.ticks[i := Starting(c.ticks[i].budget - n)]
  {
    steps, d := [], c;
    Here(c, cap, needs);
    assert c.ticks[i := c.ticks[i]] == c.ticks;
    for k := 0 to n
      invariant Leads(c, cap, steps, needs, d) && Crowd(d, m + k) && d.plan == c.plan && d.ticks == c.ticks[i := Starting(c.ticks[i].budget - k)]
    {
      var name := FreshString(d.taken + d.plan.upids + {"u", "v"});
      Further(c, cap, steps, needs, d, StartSingle(i, name));
      SingleStep(d, cap, i, name, m + k);
      steps, d := steps + [StartSingle(i, name)], Go(d, cap, StartSingle(i, name));
    }
  }

  lemma SingleStep(c: Cluster, cap: nat, i: nat, name: string, n: nat)
    requires Crowd(c, n) && CanStart(c, i) && IsFresh(c, name) && name != "u" && name != "v"
    ensures var d := Go(c, cap, StartSingle(i, name));
            Crowd(d, n + 1) && d.plan == c.plan && d.ticks == c.ticks[i := Starting(c.ticks[i].budget - 1)]
  {
    assert |c.extra + {name}| == n + 1;
  }

  /** A tick begins, and counts the n single migrations it watches. */
  lemma {:induction false} Opens(c: Cluster, cap: nat, n: nat, needs: set<Need>) returns (steps: seq<Step>)
    requires |c.watched| == n && AllPending(c.watched) && AllClosed(c)
    ensures Leads(c, cap, steps, needs, c.(ticks := c.ticks + [Planning(n, None)]))
  {
    var i := |c.ticks|;
    Here(c, cap, needs);
    Extend(c, cap, [], needs, c, SiteRead);
    var d := Go(c, cap, SiteRead);
    Further(c, cap, [] + [SiteRead], needs, d, Count(i));
    PendingCount(c.watched);
    assert Go(d, cap, Count(i)).ticks == c.ticks + [Planning(n, None)];
    steps := [] + [SiteRead] + [Count(i)];
  }

  /** A tick that watches n migrations, whatever else runs, and finds no active plan. */
  lemma {:induction false} FreeTick(c: Cluster, cap: nat, n: nat, needs: set<Need>) returns (steps: seq<Step>)
    requires |c.watched| == n && AllPending(c.watched) && AllClosed(c) && n <= cap
    requires !(c.plan.store.Some? && c.plan.store.value.status == Active)
    ensures Leads(c, cap, steps, needs, c.(ticks := c.ticks + [Starting(cap - n)]))
  {
    steps := Opens(c, cap, n, needs);
    var d := c.(ticks := c.ticks + [Planning(n, None)]);
    Further(c, cap, steps, needs, d, PlanRead(|c.ticks|));
    assert Go(d, cap, PlanRead(|c.ticks|)).ticks == c.ticks + [Starting(cap - n)];
    steps := steps + [PlanRead(|c.ticks|)];
  }

  /** A first tick starts n single migrations. */
  lemma {:induction false} FirstTick(cap: nat, n: nat, needs: set<Need>) returns (steps: seq<Step>, d: Cluster)
    requires n <= cap
    ensures Leads(IDLE, cap, steps, needs, d) && Crowd(d, n) && d.plan == START && d.ticks == [Closed]
  {
    var first := FreeTick(IDLE, cap, 0, needs);
    var c := IDLE.(ticks := [] + [Starting(cap - 0)]);
    var fill, e := Fill(c, cap, 0, n, 0, needs);
    Join(IDLE, cap, first, fill, needs, c, e);
    Further(IDLE, cap, first + fill, needs, e, Close(0));
    steps, d := first + fill + [Close(0)], Go(e, cap, Close(0));
  }

  /** With the cap reached and a budget left, one more single migration exceeds it. */
  lemma {:induction false} OneMore(cap: nat, path: seq<Step>, needs: set<Need>, c: Cluster, i: nat) returns (steps: seq<Step>)
    requires Leads(IDLE, cap, path, needs, c) && Total(c) >= cap && CanStart(c, i) && c.extra <= c.taken
    ensures MeetAll(IDLE, cap, steps, needs) && Total(Follow(IDLE, cap, steps)) > cap
  {
    var name := FreshString(c.taken + c.plan.upids);
    Further(IDLE, cap, path, needs, c, StartSingle(i, name));
    assert |c.extra + {name}| == |c.extra| + 1;
    steps := path + [StartSingle(i, name)];
  }

  // ---- Overlap ----

  /** Two ticks under way count the same migrations, and each starts one more. */
  lemma {:induction false} OverlapExceeds(cap: nat) returns (steps: seq<Step>)
    requires cap >= 1
    ensures MeetAll(IDLE, cap, steps, ALL_NEEDS - {NoOverlap}) && Total(Follow(IDLE, cap, steps)) > cap
  {
    var needs := ALL_NEEDS - {NoOverlap};
    var path, c := FirstTick(cap, cap - 1, needs);
    var both := TwoCount(c, cap, cap - 1, needs);
    var d := c.(ticks := [Closed, Starting(1), Starting(1)]);
    Join(IDLE, cap, path, both, needs, c, d);
    var fill, e := Fill(d, cap, 1, 1, cap - 1, needs);
    Join(IDLE, cap, path + both, fill, needs, d, e);
    assert e.ticks[2] == Starting(1);
    steps := OneMore(cap, path + both + fill, needs, e, 2);
  }

  lemma {:induction false} TwoCount(c: Cluster, cap: nat, n: nat, needs: set<Need>) returns (steps: seq<Step>)
    requires Crowd(c, n) && c.plan == START && c.ticks == [Closed] && NoOverlap !in needs && n <= cap
    ensures Leads(c, cap, steps, needs, c.(ticks := [Closed, Starting(cap - n), Starting(cap - n)]))
  {
    var d := c.(ticks := [Closed, Counting, Counting]);
    var e := c.(ticks := [Closed, Planning(n, None), Planning(n, None)]);
    PendingCount(c.watched);
    TwoCountSteps(c, cap, n);
    TwoFurther(c, cap, [], needs, c, SiteRead, SiteRead);
    TwoFurther(c, cap, [] + [SiteRead] + [SiteRead], needs, d, Count(1), Count(2));
    steps := [] + [SiteRead] + [SiteRead] + [Count(1)] + [Count(2)];
    TwoFurther(c, cap, steps, needs, e, PlanRead(1), PlanRead(2));
    steps := steps + [PlanRead(1)] + [PlanRead(2)];
  }

  lemma TwoCountSteps(c: Cluster, cap: nat, n: nat)
    requires c.plan == START && c.ticks == [Closed] && ActiveCount(c.watched) == n && n <= cap
    ensures var d := c.(ticks := [Closed, Counting, Counting]);
            var e := c.(ticks := [Closed, Planning(n, None), Planning(n, None)]);
            && Go(Go(c, cap, SiteRead), cap, SiteRead) == d
            && Go(Go(d, cap, Count(1)), cap, Count(2)) == e
            && Go(Go(e, cap, PlanRead(1)), cap, PlanRead(2)) == c.(ticks := [Closed, Starting(cap - n), Starting(cap - n)])
  {
    var e := c.(ticks := [Closed, Planning(n, None), Planning(n, None)]);
    assert Go(e, cap, PlanRead(1)) == c.(ticks := [Closed, Starting(cap - n), Planning(n, None)]);
  }

  lemma {:induction false} TwoFurther(c: Cluster, cap: nat, steps: seq<Step>, needs: set<Need>, d: Cluster, a: Step, b: Step)
    requires Leads(c, cap, steps, needs, d) && Benign(a, needs) && Benign(b, needs)
    ensures Leads(c, cap, steps + [a] + [b], needs, Go(Go(d, cap, a), cap, b))
  {
    Further(c, cap, steps, needs, d, a);
    Further(c, cap, steps + [a], needs, Go(d, cap, a), b);
  }

  // ---- A forgotten migration ----

  /** A single migration that outlives its entry is not counted, and another takes its place. */
  lemma {:induction false} ForgottenExceeds(cap: nat) returns (steps: seq<Step>)
    requires cap >= 1
    ensures MeetAll(IDLE, cap, steps, ALL_NEEDS - {Remembered}) && Total(Follow(IDLE, cap, steps)) > cap
  {
    var needs := ALL_NEEDS - {Remembered};
    var path, c := FirstTick(cap, cap, needs);
    Further(IDLE, cap, path, needs, c, Expire(cap - 1));
    var d := Go(c, cap, Expire(cap - 1));
    var next := FreeTick(d, cap, cap - 1, needs);
    var e := d.(ticks := d.ticks + [Starting(1)]);
    Join(IDLE, cap, path + [Expire(cap - 1)], next, needs, d, e);
    steps := OneMore(cap, path + [Expire(cap - 1)] + next, needs, e, 1);
  }

  // ---- A plan beside the single migrations ----

  const A := PlanOverruns.A

  lemma {:induction false} ApplyA(c: Cluster, cap: nat, needs: set<Need>) returns (steps: seq<Step>)
    requires c.plan == START
    ensures Leads(c, cap, steps, needs, c.(plan := Activated(START, "a", [1])))
  {
    var write := Act(ComputeWrite(0, "a", [1]));
    ActivationSteps(START, cap, "a", [1]);
    Here(c, cap, needs);
    InactiveMeets(c, cap, ComputeRead, needs);
    Extend(c, cap, [], needs, c, Act(ComputeRead));
    var d := Go(c, cap, Act(ComputeRead));
    InactiveMeets(d, cap, write.e, needs);
    Extend(c, cap, [] + [Act(ComputeRead)], needs, d, write);
    var e := Go(d, cap, write);
    InactiveMeets(e, cap, ApplyEvent("a"), needs);
    Extend(c, cap, [] + [Act(ComputeRead)] + [write], needs, e, Act(ApplyEvent("a")));
    steps := [] + [Act(ComputeRead)] + [write] + [Act(ApplyEvent("a"))];
  }

  /** While no plan is active every action meets the rules. */
  lemma InactiveMeets(c: Cluster, cap: nat, e: Event, needs: set<Need>)
    requires !(c.plan.store.Some? && c.plan.store.value.status == Active)
    ensures forall n :: n in needs ==> Meets(c, cap, Act(e), n)
  {
  }

  /** n single migrations run; a tick that counted them holds plan a, about to choose. */
  ghost predicate PoisedCluster(c: Cluster, n: nat) {
    Crowd(c, n) && c.plan == PlanOverruns.PoisedOnA() && c.ticks == [Closed, Planning(n, Some(0))]
  }

  lemma {:induction false} PoisesOn(c: Cluster, cap: nat, n: nat, p: Plan, needs: set<Need>) returns (steps: seq<Step>)
    requires Crowd(c, n) && AllClosed(c) && c.plan.store == Some(p) && p.status == Active && |p.moves| == 1
    ensures Leads(c, cap, steps, needs, c.(plan := PlanOverruns.Poised(c.plan, p), ticks := c.ticks + [Planning(n, Some(|c.plan.ticks|))]))
  {
    var i, k := |c.ticks|, |c.plan.ticks|;
    steps := Opens(c, cap, n, needs);
    var d := c.(ticks := c.ticks + [Planning(n, None)]);
    PoiseSteps(c, cap, n, p);
    TwoFurther(c, cap, steps, needs, d, PlanRead(i), PlanMove(i, TickPoll(k, StillRunning)));
    steps := steps + [PlanRead(i)] + [PlanMove(i, TickPoll(k, StillRunning))];
  }

  lemma PoiseSteps(c: Cluster, cap: nat, n: nat, p: Plan)
    requires c.plan.store == Some(p) && p.status == Active && |p.moves| == 1
    ensures var d := c.(ticks := c.ticks + [Planning(n, None)]);
            var i, k := |c.ticks|, |c.plan.ticks|;
            Go(Go(d, cap, PlanRead(i)), cap, PlanMove(i, TickPoll(k, StillRunning))) ==
            c.(plan := PlanOverruns.Poised(c.plan, p), ticks := c.ticks + [Planning(n, Some(k))])
  {
    var i, k := |c.ticks|, |c.plan.ticks|;
    var e := Go(c.(ticks := c.ticks + [Planning(n, None)]), cap, PlanRead(i));
    assert e.plan == c.plan.(ticks := c.plan.ticks + [Polling(p, 0)]);
    assert e.ticks == c.ticks + [Planning(n, Some(k))];
    var s := Next(e.plan, cap, TickPoll(k, StillRunning));
    assert s.ticks == c.plan.ticks + [Polling(p, 1)];
  }

  lemma {:induction false} ToPoised(cap: nat, n: nat, needs: set<Need>) returns (steps: seq<Step>, c: Cluster)
    requires n <= cap
    ensures Leads(IDLE, cap, steps, needs, c) && PoisedCluster(c, n)
  {
    var path, c0 := FirstTick(cap, n, needs);
    var apply := ApplyA(c0, cap, needs);
    var c1 := c0.(plan := Activated(START, "a", [1]));
    Join(IDLE, cap, path, apply, needs, c0, c1);
    var poise := PoisesOn(c1, cap, n, A, needs);
    c := c1.(plan := PlanOverruns.Poised(c1.plan, A), ticks := c1.ticks + [Planning(n, Some(0))]);
    Join(IDLE, cap, path + apply, poise, needs, c1, c);
    steps := path + apply + poise;
    assert c.plan == PlanOverruns.PoisedOnA();
  }

  /** The tick starts the plan's migration, records it and closes: n single migrations and the plan's one run. */
  ghost predicate BusyCluster(c: Cluster, n: nat) {
    Crowd(c, n) && c.plan == PlanOverruns.RunningA() && c.ticks == [Closed, Closed]
  }

  lemma {:induction false} ToBusy(cap: nat, needs: set<Need>) returns (steps: seq<Step>, c: Cluster)
    requires cap >= 1
    ensures Leads(IDLE, cap, steps, needs, c) && BusyCluster(c, cap - 1)
  {
    var path, c0 := ToPoised(cap, cap - 1, needs);
    var choose := TickChoose(0, cap - 1, Launch("u"));
    BusySteps(c0, cap);
    TwoFurther(IDLE, cap, path, needs, c0, PlanMove(1, choose), PlanMove(1, TickRecord(0)));
    steps := path + [PlanMove(1, choose)] + [PlanMove(1, TickRecord(0))];
    c := Go(Go(c0, cap, PlanMove(1, choose)), cap, PlanMove(1, TickRecord(0)));
    TwoFurther(IDLE, cap, steps, needs, c, PlanDone(1), Close(1));
    steps, c := steps + [PlanDone(1)] + [Close(1)], Go(Go(c, cap, PlanDone(1)), cap, Close(1));
  }

  lemma BusySteps(c: Cluster, cap: nat)
    requires cap >= 1 && PoisedCluster(c, cap - 1)
    ensures var d := Go(Go(c, cap, PlanMove(1, TickChoose(0, cap - 1, Launch("u")))), cap, PlanMove(1, TickRecord(0)));
            BusyCluster(Go(Go(d, cap, PlanDone(1)), cap, Close(1)), cap - 1)
  {
    var s := c.plan;
    var s1, s2 := PlanOverruns.StartedState(s, 0, A, "u"), Next(PlanOverruns.StartedState(s, 0, A, "u"), cap, TickRecord(0));
    SingleMove(A.moves);
    PlanOverruns.StartStep(s, cap, 0, A, cap - 1, "u");
    StartedSteps(cap);
    assert Go(c, cap, PlanMove(1, TickChoose(0, cap - 1, Launch("u")))) == c.(plan := s1);
    assert Go(c.(plan := s1), cap, PlanMove(1, TickRecord(0))) == c.(plan := s2);
    DoneAndClose(c.(plan := s2), cap, cap - 1);
  }

  lemma StartedSteps(cap: nat)
    ensures var s := PlanOverruns.PoisedOnA();
            FirstQueued(A.moves) == 0 &&
            var s2 := Next(PlanOverruns.StartedState(s, 0, A, "u"), cap, TickRecord(0));
            |s2.ticks| == 1 && s2.ticks[0].Finishing? && Next(s2, cap, TickFinish(0)) == PlanOverruns.RunningA()
  {
    SingleMove(A.moves);
    PlanOverruns.RecordSteps(PlanOverruns.PoisedOnA(), cap, 0, A, "u");
    assert PlanOverruns.AfterStart(PlanOverruns.PoisedOnA(), 0, A, "u") == PlanOverruns.RunningA();
  }

  lemma DoneAndClose(c: Cluster, cap: nat, n: nat)
    requires c.ticks == [Closed, Planning(n, Some(0))] && |c.plan.ticks| == 1 && c.plan.ticks[0].Finishing?
    ensures var d := Go(Go(c, cap, PlanDone(1)), cap, Close(1));
            d == c.(plan := Next(c.plan, cap, TickFinish(0)), ticks := [Closed, Closed])
  {
  }

  // ---- A cancelled plan ----

  /** A cancelled plan's migration still runs, and no tick counts it. */
  lemma {:induction false} CancelExceeds(cap: nat) returns (steps: seq<Step>)
    requires cap >= 1
    ensures MeetAll(IDLE, cap, steps, ALL_NEEDS - {StaysActive}) && Total(Follow(IDLE, cap, steps)) > cap
  {
    var needs := ALL_NEEDS - {StaysActive};
    var path, c := ToBusy(cap, needs);
    TwoFurther(IDLE, cap, path, needs, c, Act(CancelRead("a")), Act(CancelWrite(0)));
    var d := c.(plan := PlanOverruns.CancelledA());
    CancelSteps(c, cap);
    path := path + [Act(CancelRead("a"))] + [Act(CancelWrite(0))];
    var next := FreeTick(d, cap, cap - 1, needs);
    var e := d.(ticks := d.ticks + [Starting(1)]);
    Join(IDLE, cap, path, next, needs, d, e);
    steps := OneMore(cap, path + next, needs, e, 2);
  }

  lemma CancelSteps(c: Cluster, cap: nat)
    requires c.plan == PlanOverruns.RunningA()
    ensures Go(Go(c, cap, Act(CancelRead("a"))), cap, Act(CancelWrite(0))) == c.(plan := PlanOverruns.CancelledA())
  {
    PlanOverruns.ToCancelledA(cap);
    RunTwo(c.plan, cap, CancelRead("a"), CancelWrite(0));
  }

  // ---- A plan step that fails ----

  /** A tick that cannot read the plan counts none of its migrations. */
  lemma {:induction false} FailedStepExceeds(cap: nat) returns (steps: seq<Step>)
    requires cap >= 1
    ensures MeetAll(IDLE, cap, steps, ALL_NEEDS - {StepEnds}) && Total(Follow(IDLE, cap, steps)) > cap
  {
    var needs := ALL_NEEDS - {StepEnds};
    var path, c := ToBusy(cap, needs);
    var next := Opens(c, cap, cap - 1, needs);
    var d := c.(ticks := c.ticks + [Planning(cap - 1, None)]);
    Join(IDLE, cap, path, next, needs, c, d);
    Further(IDLE, cap, path + next, needs, d, PlanThrows(2));
    var e := Go(d, cap, PlanThrows(2));
    steps := OneMore(cap, path + next + [PlanThrows(2)], needs, e, 2);
  }

  // ---- A start that was never recorded ----

  /** The process ends between a start and its record: the next tick starts the same move once more. */
  lemma {:induction false} UnrecordedExceeds(cap: nat) returns (steps: seq<Step>)
    requires cap >= 1
    ensures MeetAll(IDLE, cap, steps, ALL_NEEDS - {StartRecorded}) && Total(Follow(IDLE, cap, steps)) > cap
  {
    var needs := ALL_NEEDS - {StartRecorded};
    var path, c := ToPoised(cap, cap - 1, needs);
    var choose := PlanMove(1, TickChoose(0, cap - 1, Launch("u")));
    TwoFurther(IDLE, cap, path, needs, c, choose, PlanDies(1));
    var d := c.(plan := PlanOverruns.LostStart(), ticks := [Closed, Closed]);
    DieSteps(c, cap);
    path := path + [choose] + [PlanDies(1)];
    var next := PoisesOn(d, cap, cap - 1, A, needs);
    var e := d.(plan := PlanOverruns.Poised(d.plan, A), ticks := d.ticks + [Planning(cap - 1, Some(1))]);
    Join(IDLE, cap, path, next, needs, d, e);
    var again := PlanMove(2, TickChoose(1, cap - 1, Launch("v")));
    Further(IDLE, cap, path + next, needs, e, again);
    AgainStep(e, cap);
    steps := path + next + [again];
  }

  lemma DieSteps(c: Cluster, cap: nat)
    requires cap >= 1 && PoisedCluster(c, cap - 1)
    ensures Go(Go(c, cap, PlanMove(1, TickChoose(0, cap - 1, Launch("u")))), cap, PlanDies(1)) ==
            c.(plan := PlanOverruns.LostStart(), ticks := [Closed, Closed])
  {
    SingleMove(A.moves);
    PlanOverruns.StartStep(c.plan, cap, 0, A, cap - 1, "u");
  }

  lemma AgainStep(c: Cluster, cap: nat)
    requires cap >= 1 && Crowd(c, cap - 1) && c.plan == PlanOverruns.Poised(PlanOverruns.LostStart(), A)
    requires c.ticks == [Closed, Closed, Planning(cap - 1, Some(1))]
    ensures Total(Go(c, cap, PlanMove(2, TickChoose(1, cap - 1, Launch("v"))))) == cap + 1
  {
    assert "v" != "u" by { assert "v"[0] != "u"[0]; }
    SingleMove(A.moves);
    PlanOverruns.StartStep(c.plan, cap, 1, A, cap - 1, "v");
    assert |{"u", "v"}| == 2;
    assert {"u"} + {"v"} == {"u", "v"};
  }

  // ---- A start whose answer is lost ----

  /** The plan's start takes effect but its answer is lost: the move is recorded as failed, and the same tick starts another migration. */
  lemma {:induction false} LostAnswerExceeds(cap: nat) returns (steps: seq<Step>)
    requires cap >= 1
    ensures MeetAll(IDLE, cap, steps, ALL_NEEDS - {StartAnswered}) && Total(Follow(IDLE, cap, steps)) > cap
  {
    var needs := ALL_NEEDS - {StartAnswered};
    var path, c := ToPoised(cap, cap - 1, needs);
    var choose, lost := PlanMove(1, TickChoose(0, cap - 1, Launch("u"))), PlanFailed(1, "timeout", false);
    TwoFurther(IDLE, cap, path, needs, c, choose, lost);
    var d := Go(Go(c, cap, choose), cap, lost);
    Further(IDLE, cap, path + [choose] + [lost], needs, d, PlanDone(1));
    LostSteps(c, cap);
    steps := OneMore(cap, path + [choose] + [lost] + [PlanDone(1)], needs, Go(d, cap, PlanDone(1)), 1);
  }

  /** Plan a with its one move recorded as failed, although it was started. */
  function FailedA(): Plan {
    SetLocal(PlanOverruns.Begun(A, "u"), 0, Outcome(Failed, None, Some("timeout")))
  }

  lemma FailureOnA(s: State, cap: nat)
    requires s == PlanOverruns.PoisedOnA()
    ensures FirstQueued(A.moves) == 0 && InFlight(FailedA().moves) == 0
    ensures var s' := Next(PlanOverruns.StartedState(s, 0, A, "u"), cap, TickRecordFails(0, "timeout"));
            s'.ticks == [Finishing(FailedA())] && s'.running == {"u"}
  {
    SingleMove(A.moves);
    NoneInFlight(FailedA().moves);
  }

  lemma LostSteps(c: Cluster, cap: nat)
    requires cap >= 1 && PoisedCluster(c, cap - 1)
    ensures var d := Go(Go(c, cap, PlanMove(1, TickChoose(0, cap - 1, Launch("u")))), cap, PlanFailed(1, "timeout", false));
            var e := Go(d, cap, PlanDone(1));
            Total(e) == cap && e.ticks == [Closed, Starting(1)] && e.extra <= e.taken
  {
    SingleMove(A.moves);
    PlanOverruns.StartStep(c.plan, cap, 0, A, cap - 1, "u");
    FailureOnA(c.plan, cap);
    var d1 := Go(c, cap, PlanMove(1, TickChoose(0, cap - 1, Launch("u"))));
    assert d1 == c.(plan := PlanOverruns.StartedState(c.plan, 0, A, "u"));
    var d := Go(d1, cap, PlanFailed(1, "timeout", false));
    assert d.plan == Next(d1.plan, cap, TickRecordFails(0, "timeout")) && d.ticks == c.ticks;
    FinishAndBudget(d, cap, FailedA());
  }

  lemma FinishAndBudget(d: Cluster, cap: nat, copy: Plan)
    requires d.plan.ticks == [Finishing(copy)] && InFlight(copy.moves) == 0 && cap >= 1 && d.ticks == [Closed, Planning(cap - 1, Some(0))]
    ensures var e := Go(d, cap, PlanDone(1));
            e.plan.running == d.plan.running && e.extra == d.extra && e.taken == d.taken && e.ticks == [Closed, Starting(1)]
  {
    assert Next(d.plan, cap, TickFinish(0)).running == d.plan.running;
  }
}
