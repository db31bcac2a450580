/**
 The cluster-wide cap on migrations. A tick of the balancer counts the single migrations it still
 watches, runs the plan's step, and starts single migrations with what is left of the cap. The
 machine keeps the migrations that really run apart from what the balancer counts; the two agree in
 every run that obeys six rules the code does not enforce.
 */
module ClusterCap {
  import opened Options
  import opened PlanStore
  import opened PlanProtocol
  import opened PlanCap

  // ---- State ----

  /** A single migration the balancer remembers. */
  datatype Watched = Watched(upid: string, completed: bool)

  /** A tick of the balancer: what it has counted, and its step of the plan. */
  datatype SiteTick =
    | Closed
    | Counting
    | Planning(active: nat, step: Option<nat>)
    | Starting(budget: nat)

  /** extra holds the running migrations that are not the plan's, or that the plan does not know of. */
  datatype Cluster = Cluster(
    plan: State,
    watched: seq<Watched>,
    extra: set<string>,
    taken: set<string>,
    ticks: seq<SiteTick>)

  /** All migrations in flight. */
  function Total(c: Cluster): nat {
    |c.plan.running| + |c.extra|
  }

  function ActiveCount(watched: seq<Watched>): nat {
    if watched == [] then 0
    else ActiveCount(watched[..|watched| - 1]) + if watched[|watched| - 1].completed then 0 else 1
  }

  function Budget(cap: nat, used: nat): nat {
    if used < cap then cap - used else 0
  }

  datatype Step =
    | Act(e: Event)
    | Erase
    | Ends(upid: string)
    | SiteRead
    | Check(i: nat, j: nat)
    | Count(i: nat)
    | PlanRead(i: nat)
    | PlanMove(i: nat, e: Event)
    | PlanFailed(i: nat, message: string, counted: bool)
    | PlanDone(i: nat)
    | PlanThrows(i: nat)
    | PlanDies(i: nat)
    | StartSingle(i: nat, upid: string)
    | StartLost(i: nat, upid: string)
    | StartRefused(i: nat)
    | Close(i: nat)
    | Expire(j: nat)
    | Forget

  // ---- Steps ----

  predicate IsAction(e: Event) {
    e.ComputeRead? || e.ComputeWrite? || e.ApplyEvent? || e.CancelRead? || e.CancelWrite?
  }

  predicate BeforeStep(c: Cluster, i: nat) {
    i < |c.ticks| && c.ticks[i].Planning? && c.ticks[i].step.None?
  }

  predicate InStep(c: Cluster, i: nat) {
    i < |c.ticks| && c.ticks[i].Planning? && c.ticks[i].step.Some? && c.ticks[i].step.value < |c.plan.ticks|
  }

  /** An event of the tick's own step; the count it starts from is the tick's. */
  predicate IsStepOf(c: Cluster, i: nat, e: Event) {
    && InStep(c, i)
    && (e.TickPoll? || e.TickRecord? || (e.TickChoose? && e.others == c.ticks[i].active))
    && e.i == c.ticks[i].step.value
    && (e.TickChoose? && e.choice.Launch? ==> e.choice.upid !in c.taken)
  }

  predicate IsFresh(c: Cluster, upid: string) {
    upid !in c.taken && upid !in c.plan.upids
  }

  /** The step has started a migration that is not recorded yet. */
  predicate Unrecorded(c: Cluster, i: nat) {
    InStep(c, i) && c.plan.ticks[c.ticks[i].step.value].Launched?
  }

  function WithSiteTick(c: Cluster, i: nat, t: SiteTick): Cluster
    requires i < |c.ticks|
  {
    c.(ticks := c.ticks[i := t])
  }

  function Running(c: Cluster, upid: string): Cluster {
    c.(extra := c.extra + {upid}, taken := c.taken + {upid})
  }

  predicate CanStart(c: Cluster, i: nat) {
    i < |c.ticks| && c.ticks[i].Starting? && c.ticks[i].budget > 0
  }

  /** The step leads the tick on to the single migrations, with what is left of the cap. */
  function EndStep(c: Cluster, cap: nat, i: nat, e: Event, migrating: nat): Cluster
    requires InStep(c, i)
  {
    WithSiteTick(c.(plan := Next(c.plan, cap, e)), i, Starting(Budget(cap, c.ticks[i].active + migrating)))
  }

  /**
   One step; a step that is not possible changes nothing. A step of the plan throws also when it
   cannot read the plan. A start of the plan is recorded as failed when its answer is lost, or when
   the write of its record fails; only in the second case does the step count it. A transaction that
   cannot read the store erases the plan and then changes nothing.
   */
  function Go(c: Cluster, cap: nat, st: Step): Cluster {
    match st
    case Act(e) => if IsAction(e) then c.(plan := Next(c.plan, cap, e)) else c
    case Erase => c.(plan := c.plan.(store := None))
    case Ends(upid) => c.(plan := Next(c.plan, cap, TaskEnds(upid)), extra := c.extra - {upid})
    case SiteRead => c.(ticks := c.ticks + [Counting])
    case Check(i, j) =>
      if i < |c.ticks| && c.ticks[i].Counting? && j < |c.watched| && c.watched[j].upid !in c.extra
      then c.(watched := c.watched[j := c.watched[j].(completed := true)]) else c
    case Count(i) =>
      if i < |c.ticks| && c.ticks[i].Counting? then WithSiteTick(c, i, Planning(ActiveCount(c.watched), None)) else c
    case PlanRead(i) =>
      if !BeforeStep(c, i) then c
      else if c.plan.store.Some? && c.plan.store.value.status == Active then
        WithSiteTick(c.(plan := Next(c.plan, cap, TickRead)), i, Planning(c.ticks[i].active, Some(|c.plan.ticks|)))
      else WithSiteTick(c, i, Starting(Budget(cap, c.ticks[i].active)))
    case PlanMove(i, e) => if IsStepOf(c, i, e) then c.(plan := Next(c.plan, cap, e)) else c
    case PlanFailed(i, message, counted) =>
      if Unrecorded(c, i) then
        var active, step := c.ticks[i].active, c.ticks[i].step;
        WithSiteTick(c.(plan := Next(c.plan, cap, TickRecordFails(step.value, message))), i,
                     Planning(if counted then active + 1 else active, step))
      else c
    case PlanDone(i) =>
      if InStep(c, i) && c.plan.ticks[c.ticks[i].step.value].Finishing? then
        EndStep(c, cap, i, TickFinish(c.ticks[i].step.value), InFlight(c.plan.ticks[c.ticks[i].step.value].copy.moves))
      else c
    case PlanThrows(i) =>
      if InStep(c, i) then EndStep(c, cap, i, TickAbort(c.ticks[i].step.value), 0)
      else if BeforeStep(c, i) then WithSiteTick(c, i, Starting(Budget(cap, c.ticks[i].active)))
      else c
    case PlanDies(i) =>
      if InStep(c, i) then WithSiteTick(c.(plan := Next(c.plan, cap, TickAbort(c.ticks[i].step.value))), i, Closed) else c
    case StartSingle(i, upid) =>
      if CanStart(c, i) && IsFresh(c, upid) then
        WithSiteTick(Running(c, upid), i, Starting(c.ticks[i].budget - 1)).(watched := c.watched + [Watched(upid, false)])
      else c
    case StartLost(i, upid) =>
      if CanStart(c, i) && IsFresh(c, upid) then WithSiteTick(Running(c, upid), i, Starting(c.ticks[i].budget - 1)) else c
    case StartRefused(i) =>
      if CanStart(c, i) then WithSiteTick(c, i, Starting(c.ticks[i].budget - 1)) else c
    case Close(i) =>
      if i < |c.ticks| && !(c.ticks[i].Planning? && c.ticks[i].step.Some?) then WithSiteTick(c, i, Closed) else c
    case Expire(j) => if j < |c.watched| then c.(watched := c.watched[..j] + c.watched[j + 1..]) else c
    case Forget => c.(watched := [])
  }

  function Follow(c: Cluster, cap: nat, steps: seq<Step>): Cluster
    decreases |steps|
  {
    if steps == [] then c else Follow(Go(c, cap, steps[0]), cap, steps[1..])
  }

  const IDLE := Cluster(START, [], {}, {}, [])

  // ---- The rules ----

  datatype Need =
    | NoOverlap
    | StaysActive
    | StepEnds
    | StartRecorded
    | StartAnswered
    | Remembered

  predicate AllClosed(c: Cluster) {
    forall i :: 0 <= i < |c.ticks| ==> c.ticks[i].Closed?
  }

  predicate StillActive(before: Store, after: Store) {
    before.Some? && before.value.status == Active ==>
      after.Some? && after.value.id == before.value.id && after.value.status == Active
  }

  /** The rules:
   no tick begins while another is under way;
   an action or a failed read takes the plan out of its active state only when none of its migrations
   runs and no tick holds it;
   a plan step throws only when no migration of the plan runs and no start is unrecorded;
   the process does not end between a start and its record;
   every start that takes effect is answered, and the plan's is not recorded as failed;
   a single migration is forgotten only when it has ended. */
  predicate Meets(c: Cluster, cap: nat, st: Step, need: Need) {
    match need
    case NoOverlap => st.SiteRead? ==> AllClosed(c)
    case StaysActive =>
      (st.Act? || st.Erase?) && !StillActive(c.plan.store, Go(c, cap, st).plan.store) ==> c.plan.running == {} && AllOver(c.plan)
    case StepEnds => st.PlanThrows? && (InStep(c, st.i) || BeforeStep(c, st.i)) ==> c.plan.running == {} && !Unrecorded(c, st.i)
    case StartRecorded => st.PlanDies? ==> !Unrecorded(c, st.i)
    case StartAnswered => !(st.PlanFailed? && Unrecorded(c, st.i)) && !st.StartLost?
    case Remembered =>
      && (st.Expire? && st.j < |c.watched| ==> c.watched[st.j].upid !in c.extra)
      && (st.Forget? ==> c.extra == {})
  }

  ghost predicate MeetAll(c: Cluster, cap: nat, steps: seq<Step>, needs: set<Need>)
    decreases |steps|
  {
    steps == [] ||
    ((forall n :: n in needs ==> Meets(c, cap, steps[0], n)) && MeetAll(Go(c, cap, steps[0]), cap, steps[1..], needs))
  }

  const ALL_NEEDS := {NoOverlap, StaysActive, StepEnds, StartRecorded, StartAnswered, Remembered}

  // ---- The invariant ----

  /** While the plan has work under way it is the stored, active one. */
  ghost predicate PlanActive(c: Cluster) {
    c.plan.running != {} || !AllOver(c.plan) ==> c.plan.store.Some? && c.plan.store.value.status == Active
  }

  ghost predicate IsWatched(watched: seq<Watched>, upid: string) {
    exists j :: 0 <= j < |watched| && watched[j] == Watched(upid, false)
  }

  ghost predicate AllWatched(c: Cluster) {
    c.extra <= c.taken && forall u :: u in c.extra ==> IsWatched(c.watched, u)
  }

  ghost predicate OneSiteTick(c: Cluster) {
    forall i, j :: 0 <= i < |c.ticks| && 0 <= j < |c.ticks| && !c.ticks[i].Closed? && !c.ticks[j].Closed? ==> i == j
  }

  ghost predicate TickFine(c: Cluster, cap: nat, t: SiteTick) {
    match t
    case Closed => true
    case Counting => AllOver(c.plan)
    case Planning(active, None) => AllOver(c.plan) && |c.extra| <= active
    case Planning(active, Some(k)) => |c.extra| <= active && k < |c.plan.ticks| && !c.plan.ticks[k].Over?
    case Starting(budget) => AllOver(c.plan) && (budget > 0 ==> Total(c) + budget <= cap)
  }

  ghost predicate ClusterInv(c: Cluster, cap: nat) {
    && RunningInv(c.plan) && PlanActive(c) && AllWatched(c) && OneSiteTick(c)
    && (forall i :: 0 <= i < |c.ticks| ==> TickFine(c, cap, c.ticks[i]))
    && (AllClosed(c) ==> AllOver(c.plan))
  }

  // ---- Counting ----

  function ActiveIds(watched: seq<Watched>): set<string> {
    set j | 0 <= j < |watched| && !watched[j].completed :: watched[j].upid
  }

  lemma {:induction false} ActiveIdsBounded(watched: seq<Watched>)
    ensures |ActiveIds(watched)| <= ActiveCount(watched)
  {
    if watched != [] {
      var init, last := watched[..|watched| - 1], watched[|watched| - 1];
      ActiveIdsBounded(init);
      var one: set<string> := if last.completed then {} else {last.upid};
      assert ActiveIds(watched) == ActiveIds(init) + one by {
        assert forall j :: 0 <= j < |init| ==> init[j] == watched[j];
      }
    }
  }

  /** What runs is no more than what a tick counts. */
  lemma WatchedBound(c: Cluster)
    requires AllWatched(c)
    ensures |c.extra| <= ActiveCount(c.watched)
  {
    forall u | u in c.extra ensures u in ActiveIds(c.watched) {
      var j :| 0 <= j < |c.watched| && c.watched[j] == Watched(u, false);
    }
    SubsetSize(c.extra, ActiveIds(c.watched));
    ActiveIdsBounded(c.watched);
  }

  // ---- Every step keeps the invariant ----

  /** One tick goes on; the others are closed. */
  lemma OneMoves(c: Cluster, c': Cluster, cap: nat, i: nat, t: SiteTick)
    requires ClusterInv(c, cap) && i < |c.ticks| && !c.ticks[i].Closed?
    requires c'.ticks == c.ticks[i := t] && TickFine(c', cap, t)
    requires RunningInv(c'.plan) && PlanActive(c') && AllWatched(c') && (t.Closed? ==> AllOver(c'.plan))
    ensures ClusterInv(c', cap)
  {
    forall j | 0 <= j < |c'.ticks| ensures TickFine(c', cap, c'.ticks[j]) {
      assert j != i ==> c.ticks[j].Closed?;
    }
    assert c'.ticks[i] == t;
  }

  /** The ticks stay as they are while less runs, or less is known, or the plan is changed by an action. */
  lemma TicksStay(c: Cluster, c': Cluster, cap: nat)
    requires ClusterInv(c, cap) && c'.ticks == c.ticks
    requires RunningInv(c'.plan) && PlanActive(c') && AllWatched(c')
    requires c'.plan.running <= c.plan.running && c'.extra <= c.extra && c'.plan.ticks == c.plan.ticks
    ensures ClusterInv(c', cap)
  {
    SubsetSize(c'.plan.running, c.plan.running);
    SubsetSize(c'.extra, c.extra);
    forall i | 0 <= i < |c'.ticks| ensures TickFine(c', cap, c'.ticks[i]) {
      assert TickFine(c, cap, c.ticks[i]);
    }
  }

  lemma ActKeepsInv(c: Cluster, cap: nat, e: Event)
    requires ClusterInv(c, cap) && IsAction(e) && Meets(c, cap, Act(e), StaysActive)
    ensures ClusterInv(Go(c, cap, Act(e)), cap)
  {
    var s' := Next(c.plan, cap, e);
    assert Obeys(c.plan, cap, e, KeepPlan);
    assert forall r :: r in RUNNING_RULES ==> Obeys(c.plan, cap, e, r);
    StepKeepsRunning(c.plan, cap, e);
    assert s'.ticks == c.plan.ticks && s'.running == c.plan.running;
    TicksStay(c, c.(plan := s'), cap);
  }

  lemma EraseKeepsInv(c: Cluster, cap: nat)
    requires ClusterInv(c, cap) && Meets(c, cap, Erase, StaysActive)
    ensures ClusterInv(Go(c, cap, Erase), cap)
  {
    var s' := c.plan.(store := None);
    assert c.plan.running == {} && AllOver(c.plan);
    ReplacingKeepsInv(c.plan, None, c.plan.used);
    assert s' == c.plan.(store := None, used := c.plan.used);
    TicksStay(c, c.(plan := s'), cap);
  }

  lemma EndsKeepsInv(c: Cluster, cap: nat, upid: string)
    requires ClusterInv(c, cap)
    ensures ClusterInv(Go(c, cap, Ends(upid)), cap)
  {
    var e := TaskEnds(upid);
    assert forall r :: r in RUNNING_RULES ==> Obeys(c.plan, cap, e, r);
    StepKeepsRunning(c.plan, cap, e);
    TicksStay(c, Go(c, cap, Ends(upid)), cap);
  }

  lemma WatchKeepsInv(c: Cluster, cap: nat, st: Step)
    requires ClusterInv(c, cap) && (st.Check? || st.Expire? || st.Forget?) && Meets(c, cap, st, Remembered)
    ensures ClusterInv(Go(c, cap, st), cap)
  {
    var c' := Go(c, cap, st);
    forall u | u in c'.extra ensures IsWatched(c'.watched, u) {
      var j :| 0 <= j < |c.watched| && c.watched[j] == Watched(u, false);
      if st.Expire? && st.j < |c.watched| {
        var k := if j < st.j then j else j - 1;
        assert j != st.j && c'.watched[k] == Watched(u, false);
      } else {
        assert c'.watched[j] == Watched(u, false);
      }
    }
    TicksStay(c, c', cap);
  }

  lemma ReadKeepsCluster(c: Cluster, cap: nat)
    requires ClusterInv(c, cap) && AllClosed(c)
    ensures ClusterInv(Go(c, cap, SiteRead), cap)
  {
    var c' := Go(c, cap, SiteRead);
    forall i | 0 <= i < |c'.ticks| ensures TickFine(c', cap, c'.ticks[i]) {
      assert i < |c.ticks| ==> c'.ticks[i] == c.ticks[i] && TickFine(c, cap, c.ticks[i]);
    }
    assert c'.ticks[|c.ticks|] == Counting;
  }

  lemma CountKeepsInv(c: Cluster, cap: nat, i: nat)
    requires ClusterInv(c, cap)
    ensures ClusterInv(Go(c, cap, Count(i)), cap)
  {
    if i < |c.ticks| && c.ticks[i].Counting? {
      assert TickFine(c, cap, c.ticks[i]);
      WatchedBound(c);
      OneMoves(c, Go(c, cap, Count(i)), cap, i, Planning(ActiveCount(c.watched), None));
    }
  }

  lemma PlanReadKeepsInv(c: Cluster, cap: nat, i: nat)
    requires ClusterInv(c, cap)
    ensures ClusterInv(Go(c, cap, PlanRead(i)), cap)
  {
    if BeforeStep(c, i) {
      var c' := Go(c, cap, PlanRead(i));
      assert TickFine(c, cap, c.ticks[i]);
      if c.plan.store.Some? && c.plan.store.value.status == Active {
        ReadKeepsRunning(c.plan, cap);
        assert c'.plan.ticks[|c.plan.ticks|] == Polling(c.plan.store.value, 0);
        OneMoves(c, c', cap, i, Planning(c.ticks[i].active, Some(|c.plan.ticks|)));
      } else {
        assert c.plan.running == {};
        OneMoves(c, c', cap, i, Starting(Budget(cap, c.ticks[i].active)));
      }
    }
  }

  /** The plan's own tick stays under way through its polls, its choice and its record. */
  lemma MoveKeepsInv(c: Cluster, cap: nat, i: nat, e: Event)
    requires ClusterInv(c, cap) && IsStepOf(c, i, e)
    ensures ClusterInv(Go(c, cap, PlanMove(i, e)), cap)
  {
    var c' := Go(c, cap, PlanMove(i, e));
    assert TickFine(c, cap, c.ticks[i]);
    assert forall r :: r in RUNNING_RULES ==> Obeys(c.plan, cap, e, r) by { MoveObeys(c.plan, cap, e); }
    StepKeepsRunning(c.plan, cap, e);
    MoveStaysActive(c.plan, cap, e);
    assert c.ticks[i := c.ticks[i]] == c.ticks;
    OneMoves(c, c', cap, i, c.ticks[i]);
  }

  lemma MoveObeys(s: State, cap: nat, e: Event)
    requires e.TickPoll? || e.TickChoose? || e.TickRecord?
    ensures forall r :: r in RUNNING_RULES ==> Obeys(s, cap, e, r)
  {
    assert !Drops(s, Next(s, cap, e));
  }

  lemma MoveStaysActive(s: State, cap: nat, e: Event)
    requires (e.TickPoll? || e.TickChoose? || e.TickRecord?) && e.i < |s.ticks| && !s.ticks[e.i].Over?
    ensures !Next(s, cap, e).ticks[e.i].Over? && |Next(s, cap, e).ticks| == |s.ticks|
    ensures StillActive(s.store, Next(s, cap, e).store)
  {
  }

  lemma DoneKeepsInv(c: Cluster, cap: nat, i: nat)
    requires ClusterInv(c, cap)
    ensures ClusterInv(Go(c, cap, PlanDone(i)), cap)
  {
    if InStep(c, i) && c.plan.ticks[c.ticks[i].step.value].Finishing? {
      var k, c' := c.ticks[i].step.value, Go(c, cap, PlanDone(i));
      var copy := c.plan.ticks[k].copy;
      assert TickFine(c, cap, c.ticks[i]) && TickAccounts(c.plan, c.plan.ticks[k]);
      AccountsBound(copy.moves, c.plan.running);
      FinishObeys(c.plan, cap, k);
      StepKeepsRunning(c.plan, cap, TickFinish(k));
      OnlyTickEnds(c.plan, c'.plan, k);
      RunningIsUnresolved(copy.moves, c.plan.running);
      OneMoves(c, c', cap, i, Starting(Budget(cap, c.ticks[i].active + InFlight(copy.moves))));
    }
  }

  lemma FinishObeys(s: State, cap: nat, k: nat)
    ensures forall r :: r in RUNNING_RULES ==> Obeys(s, cap, TickFinish(k), r)
  {
    assert !Drops(s, Next(s, cap, TickFinish(k)));
  }

  lemma RunningIsUnresolved(moves: seq<Move>, running: set<string>)
    requires Accounts(moves, running)
    ensures running != {} ==> Unresolved(moves)
  {
    if running != {} {
      var u :| u in running;
      var k :| 0 <= k < |moves| && moves[k].status == Migrating && moves[k].upid == Some(u);
    }
  }

  /** The one tick of the plan under way ends. */
  lemma OnlyTickEnds(s: State, s': State, k: nat)
    requires AtMostOneTick(s) && k < |s.ticks| && !s.ticks[k].Over? && s'.ticks == s.ticks[k := Over]
    ensures AllOver(s')
  {
  }

  lemma AbortKeepsInv(c: Cluster, cap: nat, st: Step)
    requires ClusterInv(c, cap) && (st.PlanThrows? || st.PlanDies?) && InStep(c, st.i)
    requires Meets(c, cap, st, StepEnds) && Meets(c, cap, st, StartRecorded)
    ensures ClusterInv(Go(c, cap, st), cap)
  {
    var i, c' := st.i, Go(c, cap, st);
    var k := c.ticks[i].step.value;
    assert TickFine(c, cap, c.ticks[i]);
    assert !Drops(c.plan, Next(c.plan, cap, TickAbort(k)));
    assert forall r :: r in RUNNING_RULES ==> Obeys(c.plan, cap, TickAbort(k), r);
    StepKeepsRunning(c.plan, cap, TickAbort(k));
    OnlyTickEnds(c.plan, c'.plan, k);
    OneMoves(c, c', cap, i, c'.ticks[i]);
  }

  lemma ThrowsAtReadKeepsInv(c: Cluster, cap: nat, i: nat)
    requires ClusterInv(c, cap) && BeforeStep(c, i) && c.plan.running == {}
    ensures ClusterInv(Go(c, cap, PlanThrows(i)), cap)
  {
    assert TickFine(c, cap, c.ticks[i]);
    OneMoves(c, Go(c, cap, PlanThrows(i)), cap, i, Starting(Budget(cap, c.ticks[i].active)));
  }

  lemma StartKeepsInv(c: Cluster, cap: nat, st: Step)
    requires ClusterInv(c, cap) && (st.StartSingle? || st.StartRefused? || st.Close?)
    ensures ClusterInv(Go(c, cap, st), cap)
  {
    var c' := Go(c, cap, st);
    if st.i < |c.ticks| {
      assert TickFine(c, cap, c.ticks[st.i]);
      if st.Close? && c.ticks[st.i].Closed? {
        assert c.ticks[st.i := Closed] == c.ticks;
      } else if c' != c {
        if st.StartSingle? { StartIsWatched(c, st.upid); }
        OneMoves(c, c', cap, st.i, c'.ticks[st.i]);
      }
    }
  }

  lemma StartIsWatched(c: Cluster, upid: string)
    requires AllWatched(c) && upid !in c.taken
    ensures var watched := c.watched + [Watched(upid, false)];
            && |c.extra + {upid}| == |c.extra| + 1
            && forall u :: u in c.extra + {upid} ==> IsWatched(watched, u)
  {
    var watched := c.watched + [Watched(upid, false)];
    forall u | u in c.extra + {upid} ensures IsWatched(watched, u) {
      if u in c.extra {
        var j :| 0 <= j < |c.watched| && c.watched[j] == Watched(u, false);
        assert watched[j] == Watched(u, false);
      } else {
        assert watched[|c.watched|] == Watched(u, false);
      }
    }
  }

  lemma StepKeepsCluster(c: Cluster, cap: nat, st: Step)
    requires ClusterInv(c, cap) && forall n :: n in ALL_NEEDS ==> Meets(c, cap, st, n)
    ensures ClusterInv(Go(c, cap, st), cap)
  {
    assert Meets(c, cap, st, NoOverlap) && Meets(c, cap, st, StaysActive) && Meets(c, cap, st, StepEnds);
    assert Meets(c, cap, st, StartRecorded) && Meets(c, cap, st, StartAnswered) && Meets(c, cap, st, Remembered);
    match st {
      case Act(e) => if IsAction(e) { ActKeepsInv(c, cap, e); }
      case Erase => EraseKeepsInv(c, cap);
      case Ends(upid) => EndsKeepsInv(c, cap, upid);
      case SiteRead => ReadKeepsCluster(c, cap);
      case Count(i) => CountKeepsInv(c, cap, i);
      case PlanRead(i) => PlanReadKeepsInv(c, cap, i);
      case PlanMove(i, e) => if IsStepOf(c, i, e) { MoveKeepsInv(c, cap, i, e); }
      case PlanDone(i) => DoneKeepsInv(c, cap, i);
      case PlanThrows(i) => if InStep(c, i) { AbortKeepsInv(c, cap, st); } else if BeforeStep(c, i) { ThrowsAtReadKeepsInv(c, cap, i); }
      case PlanDies(i) => if InStep(c, i) { AbortKeepsInv(c, cap, st); }
      case StartSingle(_, _) => StartKeepsInv(c, cap, st);
      case StartRefused(_) => StartKeepsInv(c, cap, st);
      case Close(_) => StartKeepsInv(c, cap, st);
      case Check(_, _) => WatchKeepsInv(c, cap, st);
      case Expire(_) => WatchKeepsInv(c, cap, st);
      case Forget => WatchKeepsInv(c, cap, st);
      case _ =>
    }
  }

  // ---- No start exceeds the cap ----

  /** A migration starts, and more are in flight than the cap allows. */
  predicate Exceeds(c: Cluster, cap: nat, st: Step) {
    Total(Go(c, cap, st)) > Total(c) && Total(Go(c, cap, st)) > cap
  }

  /** A start of the plan: what the step counted covers what runs. */
  lemma PlanStartsWithin(c: Cluster, cap: nat, i: nat, e: Event)
    requires ClusterInv(c, cap) && IsStepOf(c, i, e)
    ensures !Exceeds(c, cap, PlanMove(i, e))
  {
    var k := c.ticks[i].step.value;
    assert TickFine(c, cap, c.ticks[i]) && TickAccounts(c.plan, c.plan.ticks[k]);
    AccountsBound(c.plan.ticks[k].copy.moves, c.plan.running);
    StartAdds(c.plan, cap, e);
  }

  lemma StartAdds(s: State, cap: nat, e: Event)
    requires (e.TickPoll? || e.TickChoose? || e.TickRecord?) && e.i < |s.ticks|
    ensures |Next(s, cap, e).running| <= |s.running| + if Starts(s, cap, e) then 1 else 0
  {
    if Starts(s, cap, e) { assert Next(s, cap, e).running == s.running + {e.choice.upid}; }
  }

  lemma SingleStartsWithin(c: Cluster, cap: nat, i: nat, upid: string)
    requires ClusterInv(c, cap)
    ensures !Exceeds(c, cap, StartSingle(i, upid))
  {
    if CanStart(c, i) && IsFresh(c, upid) {
      assert TickFine(c, cap, c.ticks[i]);
      assert |c.extra + {upid}| <= |c.extra| + 1;
    }
  }

  lemma EndsWithin(c: Cluster, cap: nat, upid: string)
    ensures Total(Go(c, cap, Ends(upid))) <= Total(c)
  {
    SubsetSize(c.plan.running - {upid}, c.plan.running);
    SubsetSize(c.extra - {upid}, c.extra);
  }

  lemma ActsStartNothing(c: Cluster, cap: nat, e: Event)
    ensures Total(Go(c, cap, Act(e))) == Total(c)
  {
    if IsAction(e) { assert Next(c.plan, cap, e).running == c.plan.running; }
  }

  lemma PlanStepsStartNothing(c: Cluster, cap: nat, st: Step)
    requires st.PlanRead? || st.PlanDone? || st.PlanThrows? || st.PlanDies?
    ensures Total(Go(c, cap, st)) == Total(c)
  {
    assert Next(c.plan, cap, TickRead).running == c.plan.running;
    if InStep(c, st.i) {
      var k := c.ticks[st.i].step.value;
      assert Next(c.plan, cap, TickFinish(k)).running == c.plan.running && Next(c.plan, cap, TickAbort(k)).running == c.plan.running;
    }
  }

  lemma StaysWithin(c: Cluster, cap: nat, st: Step)
    requires ClusterInv(c, cap) && Meets(c, cap, st, StartAnswered)
    ensures !Exceeds(c, cap, st)
  {
    match st {
      case PlanMove(i, e) => if IsStepOf(c, i, e) { PlanStartsWithin(c, cap, i, e); }
      case StartSingle(i, upid) => SingleStartsWithin(c, cap, i, upid);
      case Ends(upid) => EndsWithin(c, cap, upid);
      case Act(e) => ActsStartNothing(c, cap, e);
      case PlanRead(_) => PlanStepsStartNothing(c, cap, st);
      case PlanDone(_) => PlanStepsStartNothing(c, cap, st);
      case PlanThrows(_) => PlanStepsStartNothing(c, cap, st);
      case PlanDies(_) => PlanStepsStartNothing(c, cap, st);
      case _ =>
    }
  }

  lemma {:induction false} CapFrom(c: Cluster, cap: nat, steps: seq<Step>)
    requires ClusterInv(c, cap) && Total(c) <= cap && MeetAll(c, cap, steps, ALL_NEEDS)
    ensures Total(Follow(c, cap, steps)) <= cap
    decreases |steps|
  {
    if steps != [] {
      assert StartAnswered in ALL_NEEDS;
      StaysWithin(c, cap, steps[0]);
      StepKeepsCluster(c, cap, steps[0]);
      CapFrom(Go(c, cap, steps[0]), cap, steps[1..]);
    }
  }

  /** After every run that meets the six rules, the plan's migrations and the single ones together keep to the cap. */
  lemma {:induction false} SixRulesKeepTheCap(cap: nat, steps: seq<Step>)
    requires MeetAll(IDLE, cap, steps, ALL_NEEDS)
    ensures Total(Follow(IDLE, cap, steps)) <= cap
  {
    CapFrom(IDLE, cap, steps);
  }
}
