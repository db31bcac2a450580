/**
 The fixed-window operation limiter: a shared table of counters, swept on every call. The
 deployment actions keep their own copy (limit 10, five minutes); the library builds others.
 */
module RateLimiter {

  /** A window length and how many operations it admits. */
  datatype Config = Config(limit: nat, windowMs: nat) {
    ghost predicate Valid() {
      limit >= 1 && windowMs >= 1
    }
  }

  const OPERATIONS := Config(10, 5 * 60_000)

  datatype Entry = Entry(count: nat, firstOp: int)
  type Table = map<string, Entry>

  /** One call: the clock is read once for the sweep and once for the decision. */
  datatype Call = Call(user: string, sweepAt: int, now: int)

  // ---- One call, on values ----

  function Swept(cfg: Config, t: Table, sweepAt: int): Table {
    map u | u in t && t[u].firstOp >= sweepAt - cfg.windowMs :: t[u]
  }

  predicate InWindow(cfg: Config, t: Table, user: string, now: int) {
    user in t && now - t[user].firstOp < cfg.windowMs
  }

  predicate Admits(cfg: Config, t: Table, c: Call) {
    var s := Swept(cfg, t, c.sweepAt);
    InWindow(cfg, s, c.user, c.now) ==> s[c.user].count < cfg.limit
  }

  function Next(cfg: Config, t: Table, c: Call): Table {
    var s := Swept(cfg, t, c.sweepAt);
    if !InWindow(cfg, s, c.user, c.now) then s[c.user := Entry(1, c.now)]
    else if s[c.user].count < cfg.limit then s[c.user := Entry(s[c.user].count + 1, s[c.user].firstOp)]
    else s
  }

  // ---- Runs ----

  /** The clock never goes back, within a call or between calls. */
  ghost predicate ClockRuns(calls: seq<Call>) {
    && (forall i :: 0 <= i < |calls| ==> calls[i].sweepAt <= calls[i].now)
    && (forall i, j :: 0 <= i < j < |calls| ==> calls[i].now <= calls[j].sweepAt)
  }

  function TableAfter(cfg: Config, calls: seq<Call>): Table {
    if calls == [] then map[] else Next(cfg, TableAfter(cfg, calls[..|calls| - 1]), calls[|calls| - 1])
  }

  /** Whether the call after the run calls is admitted. */
  predicate Admitted(cfg: Config, calls: seq<Call>, c: Call) {
    Admits(cfg, TableAfter(cfg, calls), c)
  }

  /** How many operations of user are admitted at times in [from, to). */
  function AdmittedIn(cfg: Config, calls: seq<Call>, user: string, from: int, to: int): (n: nat)
    ensures n <= |calls|
  {
    if calls == [] then 0
    else
      var before, c := calls[..|calls| - 1], calls[|calls| - 1];
      AdmittedIn(cfg, before, user, from, to)
      + if c.user == user && from <= c.now < to && Admitted(cfg, before, c) then 1 else 0
  }

  // ---- The reference: one user alone, no table, no sweep ----

  datatype Window = Closed | Open(count: nat, firstOp: int)

  predicate SoloAdmits(cfg: Config, w: Window, now: int) {
    w.Closed? || now - w.firstOp >= cfg.windowMs || w.count < cfg.limit
  }

  function SoloNext(cfg: Config, w: Window, now: int): Window {
    if w.Closed? || now - w.firstOp >= cfg.windowMs then Open(1, now)
    else if w.count < cfg.limit then Open(w.count + 1, w.firstOp)
    else w
  }

  /** The window of user after that user's own calls only. */
  function SoloAfter(cfg: Config, calls: seq<Call>, user: string): Window {
    if calls == [] then Closed
    else
      var w, c := SoloAfter(cfg, calls[..|calls| - 1], user), calls[|calls| - 1];
      if c.user == user then SoloNext(cfg, w, c.now) else w
  }

  /** Same window, or one the table has swept away because it ended before the last sweep. */
  ghost predicate Simulates(cfg: Config, t: Table, w: Window, user: string, clock: int) {
    && (user in t ==> w == Open(t[user].count, t[user].firstOp))
    && (user !in t && w.Open? ==> w.firstOp < clock - cfg.windowMs)
  }

  lemma ClockPrefix(calls: seq<Call>)
    requires ClockRuns(calls) && calls != []
    ensures ClockRuns(calls[..|calls| - 1])
  {
  }

  lemma {:induction false} TableSimulates(cfg: Config, calls: seq<Call>, user: string, clock: int)
    requires ClockRuns(calls)
    requires calls != [] ==> calls[|calls| - 1].now <= clock
    ensures Simulates(cfg, TableAfter(cfg, calls), SoloAfter(cfg, calls, user), user, clock)
  {
    if calls != [] {
      var before, c := calls[..|calls| - 1], calls[|calls| - 1];
      assert before != [] ==> before[|before| - 1].now <= c.sweepAt;
      TableSimulates(cfg, before, user, c.sweepAt);
    }
  }

  /**
   Sweeping and sharing are invisible: on any interleaving, each call is decided as if its user
   were alone with a window that is never pruned.
   */
  lemma {:induction false} SharedTableIsPerUser(cfg: Config, calls: seq<Call>, c: Call)
    requires ClockRuns(calls + [c])
    ensures Admitted(cfg, calls, c) <==> SoloAdmits(cfg, SoloAfter(cfg, calls, c.user), c.now)
  {
    assert (calls + [c])[|calls|] == c;
    assert forall i :: 0 <= i < |calls| ==> (calls + [c])[i] == calls[i];
    TableSimulates(cfg, calls, c.user, c.sweepAt);
  }

  function CallsOf(calls: seq<Call>, user: string): seq<Call> {
    if calls == [] then []
    else CallsOf(calls[..|calls| - 1], user) + if calls[|calls| - 1].user == user then [calls[|calls| - 1]] else []
  }

  /** The per-user window depends on that user's calls alone. */
  lemma {:induction false} SoloIgnoresOthers(cfg: Config, calls: seq<Call>, user: string)
    ensures SoloAfter(cfg, CallsOf(calls, user), user) == SoloAfter(cfg, calls, user)
  {
    if calls != [] {
      var before, c := calls[..|calls| - 1], calls[|calls| - 1];
      SoloIgnoresOthers(cfg, before, user);
      if c.user == user {
        assert CallsOf(calls, user)[..|CallsOf(calls, user)| - 1] == CallsOf(before, user);
      } else {
        assert CallsOf(calls, user) == CallsOf(before, user);
      }
    }
  }

  // ---- The sliding bound ----

  /** What n operations admitted in [x, x + window) say about the current window. */
  ghost predicate Bounded(cfg: Config, w: Window, x: int, n: nat) {
    match w
    case Closed => n == 0
    case Open(count, firstOp) =>
      && 1 <= count <= cfg.limit
      && (firstOp < x ==> n <= count - 1)
      && (x <= firstOp < x + cfg.windowMs ==> n <= cfg.limit - 1 + count)
      && n <= 2 * cfg.limit - 1
  }

  lemma {:induction false} SlidingInvariant(cfg: Config, calls: seq<Call>, user: string, x: int)
    requires cfg.Valid() && ClockRuns(calls)
    ensures Bounded(cfg, SoloAfter(cfg, calls, user), x, AdmittedIn(cfg, calls, user, x, x + cfg.windowMs))
  {
    if calls != [] {
      var before, c := calls[..|calls| - 1], calls[|calls| - 1];
      SlidingInvariant(cfg, before, user, x);
      LastCall(cfg, calls, user, x, x + cfg.windowMs);
      SoloStartsBefore(cfg, before, user, c.now);
      if c.now < x { NothingBefore(cfg, calls, user, x, x + cfg.windowMs); }
    }
  }

  lemma {:induction false} NothingBefore(cfg: Config, calls: seq<Call>, user: string, from: int, to: int)
    requires forall i :: 0 <= i < |calls| ==> calls[i].now < from
    ensures AdmittedIn(cfg, calls, user, from, to) == 0
  {
    if calls != [] { NothingBefore(cfg, calls[..|calls| - 1], user, from, to); }
  }

  /** In every run, any half-open interval of one window length admits at most 2 * limit - 1 operations of a user. */
  lemma SlidingBound(cfg: Config, calls: seq<Call>, user: string, x: int)
    requires cfg.Valid() && ClockRuns(calls)
    ensures AdmittedIn(cfg, calls, user, x, x + cfg.windowMs) <= 2 * cfg.limit - 1
  {
    SlidingInvariant(cfg, calls, user, x);
  }

  // ---- The bound is reached ----

  function WorstTime(cfg: Config, i: nat): int {
    if i == 0 then 0 else if i < cfg.limit then cfg.windowMs - 1 else cfg.windowMs
  }

  /** One call, then limit - 1 calls at the end of its window, then limit calls just after it. */
  function WorstRun(cfg: Config, user: string, n: nat): (r: seq<Call>)
    ensures |r| == n && forall i :: 0 <= i < n ==> r[i] == Call(user, WorstTime(cfg, i), WorstTime(cfg, i))
  {
    seq(n, i requires 0 <= i < n => Call(user, WorstTime(cfg, i), WorstTime(cfg, i)))
  }

  lemma WorstClock(cfg: Config, user: string, n: nat)
    requires cfg.Valid()
    ensures ClockRuns(WorstRun(cfg, user, n))
  {
  }

  /** The last call of a run, in terms of its user's window. */
  lemma LastCall(cfg: Config, run: seq<Call>, user: string, from: int, to: int)
    requires ClockRuns(run) && run != []
    ensures var before, c := run[..|run| - 1], run[|run| - 1];
            var w := SoloAfter(cfg, before, user);
            && ClockRuns(before)
            && SoloAfter(cfg, run, user) == (if c.user == user then SoloNext(cfg, w, c.now) else w)
            && AdmittedIn(cfg, run, user, from, to) == AdmittedIn(cfg, before, user, from, to)
               + if c.user == user && from <= c.now < to && SoloAdmits(cfg, w, c.now) then 1 else 0
  {
    assert run == run[..|run| - 1] + [run[|run| - 1]];
    SharedTableIsPerUser(cfg, run[..|run| - 1], run[|run| - 1]);
  }

  function WorstWindow(cfg: Config, n: nat): Window {
    if n == 0 then Closed else if n <= cfg.limit then Open(n, 0) else Open(n - cfg.limit, cfg.windowMs)
  }

  lemma WorstStep(cfg: Config, n: nat)
    requires cfg.Valid() && cfg.windowMs >= 2 && n < 2 * cfg.limit
    ensures SoloAdmits(cfg, WorstWindow(cfg, n), WorstTime(cfg, n))
    ensures SoloNext(cfg, WorstWindow(cfg, n), WorstTime(cfg, n)) == WorstWindow(cfg, n + 1)
    ensures n > 0 <==> cfg.windowMs - 1 <= WorstTime(cfg, n) < 2 * cfg.windowMs - 1
  {
  }

  lemma WorstCons(cfg: Config, user: string, n: nat)
    requires cfg.Valid()
    ensures WorstRun(cfg, user, n + 1)[..n] == WorstRun(cfg, user, n)
    ensures ClockRuns(WorstRun(cfg, user, n + 1))
  {
    WorstClock(cfg, user, n + 1);
  }

  lemma {:induction false} WorstPrefix(cfg: Config, user: string, n: nat)
    requires cfg.Valid() && cfg.windowMs >= 2 && n <= 2 * cfg.limit
    ensures SoloAfter(cfg, WorstRun(cfg, user, n), user) == WorstWindow(cfg, n)
    ensures AdmittedIn(cfg, WorstRun(cfg, user, n), user, cfg.windowMs - 1, 2 * cfg.windowMs - 1)
            == if n == 0 then 0 else n - 1
  {
    if n > 0 {
      var run := WorstRun(cfg, user, n);
      WorstCons(cfg, user, n - 1);
      WorstPrefix(cfg, user, n - 1);
      LastCall(cfg, run, user, cfg.windowMs - 1, 2 * cfg.windowMs - 1);
      WorstStep(cfg, n - 1);
    }
  }

  ghost predicate ReachesBound(cfg: Config, calls: seq<Call>, user: string, x: int) {
    ClockRuns(calls) && AdmittedIn(cfg, calls, user, x, x + cfg.windowMs) == 2 * cfg.limit - 1
  }

  /** Some run reaches the bound, for every limit and every window of at least two milliseconds. */
  lemma SlidingBoundIsSharp(cfg: Config, user: string)
    requires cfg.Valid() && cfg.windowMs >= 2
    ensures exists calls, x :: ReachesBound(cfg, calls, user, x)
  {
    WorstClock(cfg, user, 2 * cfg.limit);
    WorstPrefix(cfg, user, 2 * cfg.limit);
    assert ReachesBound(cfg, WorstRun(cfg, user, 2 * cfg.limit), user, cfg.windowMs - 1);
  }

  /** With the configured limit of ten operations in five minutes the bound is 19. */
  lemma OperationsBound(calls: seq<Call>, user: string, x: int)
    requires ClockRuns(calls)
    ensures AdmittedIn(OPERATIONS, calls, user, x, x + 300_000) <= 19
  {
    SlidingBound(OPERATIONS, calls, user, x);
  }

  /** And 19 operations are admitted within five minutes in some run. */
  lemma OperationsWorst(user: string) returns (calls: seq<Call>, x: int)
    ensures ClockRuns(calls) && AdmittedIn(OPERATIONS, calls, user, x, x + 300_000) == 19
  {
    SlidingBoundIsSharp(OPERATIONS, user);
    calls, x :| ReachesBound(OPERATIONS, calls, user, x);
  }

  // ---- No false and no growing lockout ----

  lemma {:induction false} WindowIsFull(cfg: Config, calls: seq<Call>, user: string, from: int, to: int)
    requires cfg.Valid() && ClockRuns(calls)
    requires calls != [] ==> calls[|calls| - 1].now < to
    requires SoloAfter(cfg, calls, user).Open? ==> from <= SoloAfter(cfg, calls, user).firstOp
    ensures SoloAfter(cfg, calls, user).Open? ==>
              AdmittedIn(cfg, calls, user, from, to) >= SoloAfter(cfg, calls, user).count
  {
    if calls != [] {
      var before, c := calls[..|calls| - 1], calls[|calls| - 1];
      var w := SoloAfter(cfg, before, user);
      LastCall(cfg, calls, user, from, to);
      assert before != [] ==> before[|before| - 1].now <= c.sweepAt <= c.now;
      SoloStartsBefore(cfg, before, user, c.now);
      if w.Open? && SoloAfter(cfg, calls, user).firstOp == w.firstOp {
        WindowIsFull(cfg, before, user, from, to);
      }
    }
  }

  /** A call is rejected only when limit operations of its user were admitted within the last window. */
  lemma {:induction false} RejectedOnlyWhenFull(cfg: Config, calls: seq<Call>, c: Call)
    requires cfg.Valid() && ClockRuns(calls + [c])
    requires !Admitted(cfg, calls, c)
    ensures AdmittedIn(cfg, calls, c.user, c.now - cfg.windowMs + 1, c.now + 1) >= cfg.limit
  {
    SharedTableIsPerUser(cfg, calls, c);
    assert (calls + [c])[..|calls|] == calls;
    ClockPrefix(calls + [c]);
    assert calls != [] ==> (calls + [c])[|calls| - 1].now <= (calls + [c])[|calls|].sweepAt;
    WindowIsFull(cfg, calls, c.user, c.now - cfg.windowMs + 1, c.now + 1);
  }

  /** A rejection leaves the user's window as it was: lockouts do not grow. */
  lemma {:induction false} RejectionKeepsWindow(cfg: Config, calls: seq<Call>, c: Call)
    requires ClockRuns(calls + [c])
    requires !Admitted(cfg, calls, c)
    ensures SoloAfter(cfg, calls + [c], c.user) == SoloAfter(cfg, calls, c.user)
    ensures c.user in TableAfter(cfg, calls) && c.user in TableAfter(cfg, calls + [c])
    ensures TableAfter(cfg, calls + [c])[c.user] == TableAfter(cfg, calls)[c.user]
  {
    SharedTableIsPerUser(cfg, calls, c);
    assert (calls + [c])[..|calls|] == calls;
  }

  /** Once the window's first operation is one window length old, the next call is admitted. */
  lemma {:induction false} LockoutEnds(cfg: Config, calls: seq<Call>, c: Call)
    requires ClockRuns(calls + [c])
    requires c.user in TableAfter(cfg, calls) && c.now >= TableAfter(cfg, calls)[c.user].firstOp + cfg.windowMs
    ensures Admitted(cfg, calls, c)
  {
  }

  /** After a rejected call, waiting one window length without calling is always long enough, whoever else calls meanwhile. */
  lemma {:induction false} WaitingOneWindowSuffices(cfg: Config, calls: seq<Call>, rejected: Call, between: seq<Call>, c: Call)
    requires ClockRuns(calls + [rejected] + between + [c])
    requires c.user == rejected.user && c.now >= rejected.now + cfg.windowMs
    requires forall i :: 0 <= i < |between| ==> between[i].user != c.user
    requires !Admitted(cfg, calls, rejected)
    ensures Admitted(cfg, calls + [rejected] + between, c)
  {
    var all := calls + [rejected] + between;
    var run := all + [c];
    assert forall i :: 0 <= i < |calls + [rejected]| ==> run[i] == (calls + [rejected])[i];
    SharedTableIsPerUser(cfg, all, c);
    SharedTableIsPerUser(cfg, calls, rejected);
    RejectionKeepsWindow(cfg, calls, rejected);
    SoloUnchanged(cfg, calls + [rejected], between, c.user);
    SoloStartsBefore(cfg, calls, c.user, rejected.now);
  }

  lemma {:induction false} SoloUnchanged(cfg: Config, calls: seq<Call>, others: seq<Call>, user: string)
    requires forall i :: 0 <= i < |others| ==> others[i].user != user
    ensures SoloAfter(cfg, calls + others, user) == SoloAfter(cfg, calls, user)
    decreases |others|
  {
    if others == [] {
      assert calls + others == calls;
    } else {
      assert (calls + others)[..|calls + others| - 1] == calls + others[..|others| - 1];
      SoloUnchanged(cfg, calls, others[..|others| - 1], user);
    }
  }

  lemma {:induction false} SoloStartsBefore(cfg: Config, calls: seq<Call>, user: string, clock: int)
    requires ClockRuns(calls) && forall i :: 0 <= i < |calls| ==> calls[i].now <= clock
    ensures SoloAfter(cfg, calls, user).Open? ==> SoloAfter(cfg, calls, user).firstOp <= clock
  {
    if calls != [] { SoloStartsBefore(cfg, calls[..|calls| - 1], user, clock); }
  }

  /** Every entry counts 1 to limit operations and is no older than the last sweep's cutoff. */
  ghost predicate WellKept(cfg: Config, t: Table, cutoff: int) {
    forall u :: u in t ==> 1 <= t[u].count <= cfg.limit && cutoff <= t[u].firstOp
  }

  lemma {:induction false} TableWellKept(cfg: Config, calls: seq<Call>)
    requires cfg.Valid() && ClockRuns(calls) && calls != []
    ensures WellKept(cfg, TableAfter(cfg, calls), calls[|calls| - 1].sweepAt - cfg.windowMs)
  {
    var before := calls[..|calls| - 1];
    if before != [] { TableWellKept(cfg, before); }
  }

  // ---- The limiter object ----

  class Limiter {
    const cfg: Config
    var entries: map<string, Entry>
    ghost var calls: seq<Call>

    ghost predicate Valid()
      reads this
    {
      cfg.Valid() && ClockRuns(calls) && entries == TableAfter(cfg, calls)
    }

    constructor (cfg: Config)
      requires cfg.Valid()
      ensures Valid() && calls == [] && this.cfg == cfg
    {
      this.cfg := cfg;
      entries, calls := map[], [];
    }

    /** Deletes entries whose window began before the cutoff. */
    method Sweep(sweepAt: int)
      modifies this`entries
      ensures entries == Swept(cfg, old(entries), sweepAt)
    {
      var cutoff := sweepAt - cfg.windowMs;
      var start := entries;
      var left := entries.Keys;
      while left != {}
        invariant left <= start.Keys
        invariant forall u :: u in entries <==> u in start && (u in left || start[u].firstOp >= cutoff)
        invariant forall u :: u in entries ==> entries[u] == start[u]
        decreases left
      {
        var u :| u in left;
        if start[u].firstOp < cutoff {
          entries := entries - {u};
        }
        left := left - {u};
      }
    }

    /** Decides one operation and records it when admitted. */
    method Check(user: string, sweepAt: int, now: int) returns (admitted: bool)
      requires Valid() && sweepAt <= now
      requires calls != [] ==> calls[|calls| - 1].now <= sweepAt
      modifies this
      ensures Valid() && calls == old(calls) + [Call(user, sweepAt, now)]
      ensures admitted == Admitted(cfg, old(calls), Call(user, sweepAt, now))
    {
      ghost var c := Call(user, sweepAt, now);
      TableAfterSnoc(cfg, calls, c);
      Sweep(sweepAt);
      if user in entries && now - entries[user].firstOp < cfg.windowMs {
        if entries[user].count >= cfg.limit {
          admitted := false;
        } else {
          entries := entries[user := Entry(entries[user].count + 1, entries[user].firstOp)];
          admitted := true;
        }
      } else {
        entries := entries[user := Entry(1, now)];
        admitted := true;
      }
      calls := calls + [c];
    }
  }

  lemma {:induction false} TableAfterSnoc(cfg: Config, calls: seq<Call>, c: Call)
    requires ClockRuns(calls) && c.sweepAt <= c.now
    requires calls != [] ==> calls[|calls| - 1].now <= c.sweepAt
    ensures TableAfter(cfg, calls + [c]) == Next(cfg, TableAfter(cfg, calls), c)
    ensures ClockRuns(calls + [c])
  {
    assert (calls + [c])[..|calls|] == calls;
  }
}
