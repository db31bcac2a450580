/**
 The whole-cluster optimizer behind a rebalance plan: a greedy search that repeatedly takes the
 single feasible move with the lowest projected imbalance. Imbalance itself is a parameter.
 */
module Optimizer {
  import opened Options

  /** What a node's score depends on. */
  datatype Load = Load(baseScore: real, memUsed: real, memTotal: real)

  datatype Node = Node(name: string, load: Load, diskFree: real, cpuPercent: real)

  /** A guest; exempt says that a setting or tag keeps it where it is. */
  datatype Guest = Guest(
    vmid: int, node: string, running: bool, mem: real, disk: real,
    affinity: seq<string>, antiAffinity: seq<string>, exempt: bool)

  datatype PlannedMove = PlannedMove(guest: Guest, source: string, target: string)

  const MEM_HEADROOM := 1.2
  const DISK_HEADROOM := 1.1
  const CPU_MAX_PERCENT := 90.0
  const MIN_GAIN := 0.005

  type Measure = seq<Load> -> real

  function Loads(nodes: seq<Node>): (r: seq<Load>)
    ensures |r| == |nodes| && forall i :: 0 <= i < |r| ==> r[i] == nodes[i].load
  {
    seq(|nodes|, i requires 0 <= i < |nodes| => nodes[i].load)
  }

  predicate DistinctNames(nodes: seq<Node>) {
    forall i, j :: 0 <= i < j < |nodes| ==> nodes[i].name != nodes[j].name
  }

  predicate DistinctGuests(guests: seq<Guest>) {
    forall i, j :: 0 <= i < j < |guests| ==> guests[i].vmid != guests[j].vmid
  }

  function NodeIndex(nodes: seq<Node>, name: string): (r: int)
    ensures -1 <= r < |nodes|
    ensures r >= 0 ==> nodes[r].name == name
    ensures r < 0 ==> forall i :: 0 <= i < |nodes| ==> nodes[i].name != name
  {
    if nodes == [] then -1
    else if nodes[0].name == name then 0
    else
      var rest := NodeIndex(nodes[1..], name);
      assert forall i :: 1 <= i < |nodes| ==> nodes[i] == nodes[1..][i - 1];
      if rest < 0 then -1 else rest + 1
  }

  // ---- Which moves are allowed ----

  predicate SharesAffinity(a: Guest, b: Guest) {
    exists i :: 0 <= i < |a.affinity| && a.affinity[i] in b.affinity
  }

  predicate Repels(a: Guest, b: Guest) {
    exists i :: 0 <= i < |a.antiAffinity| && a.antiAffinity[i] in b.antiAffinity
  }

  lemma RepelsBothWays(a: Guest, b: Guest)
    ensures Repels(a, b) <==> Repels(b, a)
  {
    if Repels(a, b) {
      var i :| 0 <= i < |a.antiAffinity| && a.antiAffinity[i] in b.antiAffinity;
      var j :| 0 <= j < |b.antiAffinity| && b.antiAffinity[j] == a.antiAffinity[i];
      assert b.antiAffinity[j] in a.antiAffinity;
    }
    if Repels(b, a) {
      var i :| 0 <= i < |b.antiAffinity| && b.antiAffinity[i] in a.antiAffinity;
      var j :| 0 <= j < |a.antiAffinity| && a.antiAffinity[j] == b.antiAffinity[i];
      assert a.antiAffinity[j] in b.antiAffinity;
    }
  }

  /** Another running guest of the same affinity group shares its node. */
  predicate BreaksAffinity(g: Guest, guests: seq<Guest>) {
    exists i :: 0 <= i < |guests| && guests[i].vmid != g.vmid && guests[i].node == g.node && guests[i].running
             && SharesAffinity(g, guests[i])
  }

  predicate Movable(g: Guest, guests: seq<Guest>, nodes: seq<Node>) {
    g.running && NodeIndex(nodes, g.node) >= 0 && !g.exempt && !BreaksAffinity(g, guests)
  }

  /** Some running guest that g repels is, or will be, on the node. */
  predicate Repelled(g: Guest, node: string, guests: seq<Guest>, positions: map<int, string>) {
    exists i :: 0 <= i < |guests| && guests[i].vmid != g.vmid && guests[i].running && Repels(g, guests[i])
             && guests[i].vmid in positions && positions[guests[i].vmid] == node
  }

  predicate Fits(g: Guest, n: Node) {
    && n.cpuPercent < CPU_MAX_PERCENT
    && (g.mem > 0.0 ==> n.load.memTotal - n.load.memUsed >= g.mem * MEM_HEADROOM)
    && (g.disk > 0.0 ==> n.diskFree >= g.disk * DISK_HEADROOM)
  }

  /** The search state: the projected nodes, where every guest will be, and who has been moved. */
  datatype Projection = Projection(nodes: seq<Node>, positions: map<int, string>, moved: set<int>)

  predicate Feasible(p: Projection, guests: seq<Guest>, g: Guest, t: int) {
    && g.vmid !in p.moved && g.vmid in p.positions
    && 0 <= t < |p.nodes| && NodeIndex(p.nodes, p.positions[g.vmid]) >= 0
    && p.nodes[t].name != p.positions[g.vmid]
    && !Repelled(g, p.nodes[t].name, guests, p.positions)
    && Fits(g, p.nodes[t])
  }

  function AddMem(n: Node, mem: real): Node {
    n.(load := n.load.(memUsed := n.load.memUsed + mem))
  }

  /** Memory moved from node s to node t. */
  function Shift(nodes: seq<Node>, s: nat, t: nat, mem: real): (r: seq<Node>)
    requires s < |nodes| && t < |nodes| && s != t
    ensures |r| == |nodes|
  {
    nodes[s := AddMem(nodes[s], -mem)][t := AddMem(nodes[t], mem)]
  }

  function Projected(p: Projection, guests: seq<Guest>, g: Guest, t: int, measure: Measure): real
    requires Feasible(p, guests, g, t)
  {
    measure(Loads(Shift(p.nodes, NodeIndex(p.nodes, p.positions[g.vmid]), t, g.mem)))
  }

  /** A candidate: the guest at an index, the target node at another. */
  datatype Best = Best(index: nat, target: nat, imbalance: real)

  /** The order in which candidates are tried. */
  predicate Before(i: int, t: int, j: int, k: int) {
    i < j || (i == j && t < k)
  }

  ghost predicate IsCandidate(p: Projection, guests: seq<Guest>, movable: seq<Guest>, measure: Measure, b: Best) {
    && b.index < |movable| && Feasible(p, guests, movable[b.index], b.target)
    && b.imbalance == Projected(p, guests, movable[b.index], b.target, measure)
  }

  /** Every earlier candidate projects a higher imbalance. */
  ghost predicate IsFirst(p: Projection, guests: seq<Guest>, movable: seq<Guest>, measure: Measure, b: Best) {
    forall i, t :: 0 <= i < |movable| && Before(i, t, b.index, b.target) && Feasible(p, guests, movable[i], t)
      ==> b.imbalance < Projected(p, guests, movable[i], t, measure)
  }

  /** Of the candidates tried before (n, k), the first with the lowest projected imbalance. */
  ghost predicate IsBest(p: Projection, guests: seq<Guest>, movable: seq<Guest>, measure: Measure,
                         best: Option<Best>, n: nat, k: nat)
  {
    && (best.Some? ==>
          && IsCandidate(p, guests, movable, measure, best.value) && Before(best.value.index, best.value.target, n, k)
          && IsFirst(p, guests, movable, measure, best.value))
    && (forall i, t :: 0 <= i < |movable| && Before(i, t, n, k) && Feasible(p, guests, movable[i], t) ==>
          best.Some? && best.value.imbalance <= Projected(p, guests, movable[i], t, measure))
  }

  /** The first feasible move with the lowest projected imbalance, or None when no move is feasible. */
  method FindBest(p: Projection, guests: seq<Guest>, movable: seq<Guest>, measure: Measure) returns (best: Option<Best>)
    ensures IsBest(p, guests, movable, measure, best, |movable|, 0)
  {
    best := None;
    for n := 0 to |movable|
      invariant IsBest(p, guests, movable, measure, best, n, 0)
    {
      for k := 0 to |p.nodes|
        invariant IsBest(p, guests, movable, measure, best, n, k)
      {
        WorseKeepsBest(p, guests, movable, measure, best, n, k);
        if Feasible(p, guests, movable[n], k) {
          var imbalance := Projected(p, guests, movable[n], k, measure);
          if best.None? || imbalance < best.value.imbalance {
            BetterIsFirst(p, guests, movable, measure, best, Best(n, k, imbalance));
            best := Some(Best(n, k, imbalance));
          }
        }
      }
      RowEnds(p, guests, movable, measure, best, n);
    }
  }

  lemma WorseKeepsBest(p: Projection, guests: seq<Guest>, movable: seq<Guest>, measure: Measure,
                       best: Option<Best>, n: nat, k: nat)
    requires n < |movable| && IsBest(p, guests, movable, measure, best, n, k)
    ensures (Feasible(p, guests, movable[n], k) ==>
               best.Some? && best.value.imbalance <= Projected(p, guests, movable[n], k, measure))
            ==> IsBest(p, guests, movable, measure, best, n, k + 1)
  {
    assert forall i, t :: Before(i, t, n, k + 1) ==> Before(i, t, n, k) || (i == n && t == k);
  }

  lemma RowEnds(p: Projection, guests: seq<Guest>, movable: seq<Guest>, measure: Measure, best: Option<Best>, n: nat)
    requires IsBest(p, guests, movable, measure, best, n, |p.nodes|)
    ensures IsBest(p, guests, movable, measure, best, n + 1, 0)
  {
    assert forall i, t :: Before(i, t, n + 1, 0) && 0 <= t < |p.nodes| ==> Before(i, t, n, |p.nodes|);
  }

  lemma BetterIsFirst(p: Projection, guests: seq<Guest>, movable: seq<Guest>, measure: Measure, best: Option<Best>, b: Best)
    requires IsBest(p, guests, movable, measure, best, b.index, b.target)
    requires IsCandidate(p, guests, movable, measure, b) && (best.Some? ==> b.imbalance < best.value.imbalance)
    ensures IsBest(p, guests, movable, measure, Some(b), b.index, b.target + 1)
  {
  }

  /** There is only one such move. */
  lemma BestIsUnique(p: Projection, guests: seq<Guest>, movable: seq<Guest>, measure: Measure, a: Option<Best>, b: Option<Best>)
    requires IsBest(p, guests, movable, measure, a, |movable|, 0)
    requires IsBest(p, guests, movable, measure, b, |movable|, 0)
    ensures a == b
  {
    if a.Some? && b.Some? {
      assert Before(a.value.index, a.value.target, b.value.index, b.value.target)
          || Before(b.value.index, b.value.target, a.value.index, a.value.target)
          || (a.value.index == b.value.index && a.value.target == b.value.target);
    }
  }

  // ---- Taking a move ----

  function TakeDisk(n: Node, disk: real): Node {
    n.(diskFree := n.diskFree - disk)
  }

  function Taken(p: Projection, guests: seq<Guest>, g: Guest, t: nat): Projection
    requires Feasible(p, guests, g, t)
  {
    var nodes := Shift(p.nodes, NodeIndex(p.nodes, p.positions[g.vmid]), t, g.mem);
    Projection(nodes[t := TakeDisk(nodes[t], g.disk)], p.positions[g.vmid := p.nodes[t].name], p.moved + {g.vmid})
  }

  function TotalMem(nodes: seq<Node>): real {
    if nodes == [] then 0.0 else nodes[0].load.memUsed + TotalMem(nodes[1..])
  }

  lemma {:induction false} TotalAfterUpdate(nodes: seq<Node>, k: nat, n: Node)
    requires k < |nodes|
    ensures TotalMem(nodes[k := n]) == TotalMem(nodes) + n.load.memUsed - nodes[k].load.memUsed
  {
    if k == 0 {
      assert nodes[k := n][1..] == nodes[1..];
    } else {
      assert nodes[k := n][1..] == nodes[1..][k - 1 := n];
      TotalAfterUpdate(nodes[1..], k - 1, n);
    }
  }

  /** Taking a move conserves the cluster's memory and projects what the search measured. */
  lemma TakenConserves(p: Projection, guests: seq<Guest>, g: Guest, t: nat, measure: Measure)
    requires Feasible(p, guests, g, t)
    ensures TotalMem(Taken(p, guests, g, t).nodes) == TotalMem(p.nodes)
    ensures measure(Loads(Taken(p, guests, g, t).nodes)) == Projected(p, guests, g, t, measure)
  {
    var s := NodeIndex(p.nodes, p.positions[g.vmid]);
    var one := p.nodes[s := AddMem(p.nodes[s], -g.mem)];
    var two := one[t := AddMem(p.nodes[t], g.mem)];
    TotalAfterUpdate(p.nodes, s, AddMem(p.nodes[s], -g.mem));
    TotalAfterUpdate(one, t, AddMem(p.nodes[t], g.mem));
    TotalAfterUpdate(two, t, TakeDisk(two[t], g.disk));
    assert Loads(two[t := TakeDisk(two[t], g.disk)]) == Loads(two);
  }

  /** Same names, totals and processors, node by node. */
  ghost predicate SameNodes(a: seq<Node>, b: seq<Node>) {
    && |a| == |b|
    && forall i :: 0 <= i < |a| ==>
         a[i].name == b[i].name && a[i].load.memTotal == b[i].load.memTotal && a[i].cpuPercent == b[i].cpuPercent
  }

  // ---- What every plan guarantees ----

  /** Every guest is where it was, or where its one move takes it. */
  ghost predicate Placed(guests: seq<Guest>, p: Projection, moves: seq<PlannedMove>) {
    && (forall i :: 0 <= i < |guests| ==> guests[i].vmid in p.positions)
    && (forall i :: 0 <= i < |guests| && guests[i].vmid !in p.moved ==> p.positions[guests[i].vmid] == guests[i].node)
    && (forall k :: 0 <= k < |moves| ==>
          && moves[k].guest.vmid in p.moved && moves[k].guest.vmid in p.positions
          && p.positions[moves[k].guest.vmid] == moves[k].target)
    && (forall v :: v in p.moved ==> exists k :: 0 <= k < |moves| && moves[k].guest.vmid == v)
  }

  /** Distinct movable guests, each leaving its own node for another one. */
  ghost predicate GoodMoves(guests: seq<Guest>, nodes: seq<Node>, moves: seq<PlannedMove>) {
    && (forall i, j :: 0 <= i < j < |moves| ==> moves[i].guest.vmid != moves[j].guest.vmid)
    && (forall k :: 0 <= k < |moves| ==>
          && moves[k].guest in guests && Movable(moves[k].guest, guests, nodes)
          && moves[k].source == moves[k].guest.node && moves[k].target != moves[k].source
          && NodeIndex(nodes, moves[k].target) >= 0)
  }

  /** A moved running guest shares its node with no running guest it repels. */
  ghost predicate KeptApart(guests: seq<Guest>, p: Projection) {
    forall i, j :: 0 <= i < |guests| && 0 <= j < |guests| && guests[i].vmid != guests[j].vmid
      && guests[i].vmid in p.moved && guests[i].running && guests[j].running && Repels(guests[i], guests[j])
      && guests[i].vmid in p.positions && guests[j].vmid in p.positions
      ==> p.positions[guests[i].vmid] != p.positions[guests[j].vmid]
  }

  /** No node that receives memory is projected above its total. */
  ghost predicate NotOverfull(p: Projection, moves: seq<PlannedMove>) {
    forall k, t :: 0 <= k < |moves| && 0 <= t < |p.nodes| && p.nodes[t].name == moves[k].target && moves[k].guest.mem > 0.0
      ==> p.nodes[t].load.memUsed <= p.nodes[t].load.memTotal
  }

  /** No node that receives disk data is projected below zero free space. */
  ghost predicate NotOverfilled(p: Projection, moves: seq<PlannedMove>) {
    forall k, t :: 0 <= k < |moves| && 0 <= t < |p.nodes| && p.nodes[t].name == moves[k].target && moves[k].guest.disk > 0.0
      ==> p.nodes[t].diskFree >= 0.0
  }

  /** The state of the search after some moves. */
  ghost predicate Sound(guests: seq<Guest>, nodes: seq<Node>, p: Projection, moves: seq<PlannedMove>) {
    && SameNodes(nodes, p.nodes) && TotalMem(p.nodes) == TotalMem(nodes)
    && Placed(guests, p, moves) && GoodMoves(guests, nodes, moves) && KeptApart(guests, p)
    && NotOverfull(p, moves) && NotOverfilled(p, moves)
  }

  lemma {:induction false} NodeIndexSame(a: seq<Node>, b: seq<Node>, name: string)
    requires SameNodes(a, b)
    ensures NodeIndex(a, name) == NodeIndex(b, name)
  {
    if a != [] { NodeIndexSame(a[1..], b[1..], name); }
  }

  /** Guests are told apart by their vmid. */
  lemma SameGuest(guests: seq<Guest>, a: Guest, b: Guest)
    requires DistinctGuests(guests) && a in guests && b in guests && a.vmid == b.vmid
    ensures a == b
  {
  }

  function AsMove(p: Projection, g: Guest, t: nat): PlannedMove
    requires g.vmid in p.positions && t < |p.nodes|
  {
    PlannedMove(g, p.positions[g.vmid], p.nodes[t].name)
  }

  lemma StepPlaced(guests: seq<Guest>, p: Projection, moves: seq<PlannedMove>, g: Guest, t: nat)
    requires Placed(guests, p, moves) && Feasible(p, guests, g, t)
    ensures Placed(guests, Taken(p, guests, g, t), moves + [AsMove(p, g, t)])
  {
    var p' := Taken(p, guests, g, t);
    var moves' := moves + [AsMove(p, g, t)];
    forall v | v in p'.moved ensures exists k :: 0 <= k < |moves'| && moves'[k].guest.vmid == v {
      if v in p.moved {
        var k :| 0 <= k < |moves| && moves[k].guest.vmid == v;
        assert moves'[k].guest.vmid == v;
      } else {
        assert moves'[|moves|].guest.vmid == v;
      }
    }
  }

  lemma StepGoodMoves(guests: seq<Guest>, nodes: seq<Node>, p: Projection, moves: seq<PlannedMove>, g: Guest, t: nat)
    requires Placed(guests, p, moves) && GoodMoves(guests, nodes, moves) && SameNodes(nodes, p.nodes)
    requires Feasible(p, guests, g, t) && g in guests && Movable(g, guests, nodes)
    ensures GoodMoves(guests, nodes, moves + [AsMove(p, g, t)])
  {
    NodeIndexSame(nodes, p.nodes, p.nodes[t].name);
    var k :| 0 <= k < |guests| && guests[k] == g;
    assert p.positions[g.vmid] == g.node;
    assert forall i :: 0 <= i < |moves| ==> moves[i].guest.vmid in p.moved;
  }

  lemma StepKeptApart(guests: seq<Guest>, p: Projection, g: Guest, t: nat)
    requires KeptApart(guests, p) && DistinctGuests(guests) && Feasible(p, guests, g, t) && g in guests
    ensures KeptApart(guests, Taken(p, guests, g, t))
  {
    var p' := Taken(p, guests, g, t);
    forall i, j | 0 <= i < |guests| && 0 <= j < |guests| && guests[i].vmid != guests[j].vmid
      && guests[i].vmid in p'.moved && guests[i].running && guests[j].running && Repels(guests[i], guests[j])
      && guests[i].vmid in p'.positions && guests[j].vmid in p'.positions
      ensures p'.positions[guests[i].vmid] != p'.positions[guests[j].vmid]
    {
      if guests[i].vmid == g.vmid {
        SameGuest(guests, guests[i], g);
      } else if guests[j].vmid == g.vmid {
        SameGuest(guests, guests[j], g);
        RepelsBothWays(guests[i], g);
      }
    }
  }

  lemma StepCapacity(guests: seq<Guest>, nodes: seq<Node>, p: Projection, moves: seq<PlannedMove>, g: Guest, t: nat)
    requires SameNodes(nodes, p.nodes) && NotOverfull(p, moves) && DistinctNames(nodes) && g.mem >= 0.0
    requires Feasible(p, guests, g, t)
    ensures NotOverfull(Taken(p, guests, g, t), moves + [AsMove(p, g, t)]) && SameNodes(nodes, Taken(p, guests, g, t).nodes)
  {
    var p', moves' := Taken(p, guests, g, t), moves + [AsMove(p, g, t)];
    var s := NodeIndex(p.nodes, p.positions[g.vmid]);
    assert p'.nodes[t].load.memUsed == p.nodes[t].load.memUsed + g.mem;
    assert p'.nodes[s].load.memUsed == p.nodes[s].load.memUsed - g.mem;
    forall k, u | 0 <= k < |moves'| && 0 <= u < |p'.nodes| && p'.nodes[u].name == moves'[k].target && moves'[k].guest.mem > 0.0
      ensures p'.nodes[u].load.memUsed <= p'.nodes[u].load.memTotal
    {
      if k == |moves| {
        assert u == t;
      } else if u == t {
        assert p.nodes[u].name == moves[k].target;
      } else {
        assert p.nodes[u].name == moves[k].target;
      }
    }
  }

  lemma StepDisk(guests: seq<Guest>, p: Projection, moves: seq<PlannedMove>, g: Guest, t: nat)
    requires NotOverfilled(p, moves) && DistinctNames(p.nodes) && g.disk >= 0.0 && Feasible(p, guests, g, t)
    ensures NotOverfilled(Taken(p, guests, g, t), moves + [AsMove(p, g, t)])
  {
    var p', moves' := Taken(p, guests, g, t), moves + [AsMove(p, g, t)];
    assert p'.nodes[t].diskFree == p.nodes[t].diskFree - g.disk;
    forall k, u | 0 <= k < |moves'| && 0 <= u < |p'.nodes| && p'.nodes[u].name == moves'[k].target && moves'[k].guest.disk > 0.0
      ensures p'.nodes[u].diskFree >= 0.0
    {
      assert p'.nodes[u].name == p.nodes[u].name;
      if k == |moves| {
        assert u == t;
      } else {
        assert p.nodes[u].diskFree >= 0.0;
      }
    }
  }

  /** Taking a feasible move of a movable guest keeps every promise. */
  lemma StepSound(guests: seq<Guest>, nodes: seq<Node>, p: Projection, moves: seq<PlannedMove>, g: Guest, t: nat, measure: Measure)
    requires Sound(guests, nodes, p, moves) && DistinctGuests(guests) && DistinctNames(nodes) && g.mem >= 0.0 && g.disk >= 0.0
    requires Feasible(p, guests, g, t) && g in guests && Movable(g, guests, nodes)
    ensures Sound(guests, nodes, Taken(p, guests, g, t), moves + [AsMove(p, g, t)])
  {
    StepPlaced(guests, p, moves, g, t);
    StepGoodMoves(guests, nodes, p, moves, g, t);
    StepKeptApart(guests, p, g, t);
    StepCapacity(guests, nodes, p, moves, g, t);
    StepDisk(guests, p, moves, g, t);
    TakenConserves(p, guests, g, t, measure);
  }

  function MovableGuests(from: seq<Guest>, guests: seq<Guest>, nodes: seq<Node>): seq<Guest> {
    if from == [] then []
    else if Movable(from[0], guests, nodes) then [from[0]] + MovableGuests(from[1..], guests, nodes)
    else MovableGuests(from[1..], guests, nodes)
  }

  lemma {:induction false} MovableGuestsAre(from: seq<Guest>, guests: seq<Guest>, nodes: seq<Node>)
    ensures forall i :: 0 <= i < |MovableGuests(from, guests, nodes)| ==>
              Movable(MovableGuests(from, guests, nodes)[i], guests, nodes) && MovableGuests(from, guests, nodes)[i] in from
    ensures forall i :: 0 <= i < |from| && Movable(from[i], guests, nodes) ==> from[i] in MovableGuests(from, guests, nodes)
  {
    if from != [] {
      MovableGuestsAre(from[1..], guests, nodes);
      assert forall i :: 1 <= i < |from| ==> from[i] == from[1..][i - 1];
    }
  }

  function Positions(guests: seq<Guest>): map<int, string> {
    if guests == [] then map[] else Positions(guests[..|guests| - 1])[guests[|guests| - 1].vmid := guests[|guests| - 1].node]
  }

  lemma {:induction false} PositionsAre(guests: seq<Guest>)
    requires DistinctGuests(guests)
    ensures forall i :: 0 <= i < |guests| ==> guests[i].vmid in Positions(guests) && Positions(guests)[guests[i].vmid] == guests[i].node
  {
    if guests != [] { PositionsAre(guests[..|guests| - 1]); }
  }

  // ---- The greedy search ----

  /** Every feasible move of a movable guest would lower the imbalance by less than the minimum gain. */
  ghost predicate NoGainLeft(guests: seq<Guest>, nodes: seq<Node>, p: Projection, measure: Measure) {
    forall i, t :: 0 <= i < |guests| && Movable(guests[i], guests, nodes) && Feasible(p, guests, guests[i], t) ==>
      measure(Loads(p.nodes)) - Projected(p, guests, guests[i], t, measure) < MIN_GAIN
  }

  /** One turn: the best move, taken because it gains enough. */
  ghost predicate Takes(guests: seq<Guest>, movable: seq<Guest>, measure: Measure,
                        p: Projection, m: PlannedMove, next: Projection, b: Best)
  {
    && IsBest(p, guests, movable, measure, Some(b), |movable|, 0)
    && measure(Loads(p.nodes)) - b.imbalance >= MIN_GAIN
    && m == AsMove(p, movable[b.index], b.target)
    && next == Taken(p, guests, movable[b.index], b.target)
  }

  ghost predicate TakesBest(guests: seq<Guest>, movable: seq<Guest>, measure: Measure,
                            p: Projection, m: PlannedMove, next: Projection)
  {
    exists b :: Takes(guests, movable, measure, p, m, next, b)
  }

  function Start(guests: seq<Guest>, nodes: seq<Node>): Projection {
    Projection(nodes, Positions(guests), {})
  }

  /** The projections a search goes through, one for each number of moves taken. */
  ghost predicate Searched(guests: seq<Guest>, nodes: seq<Node>, measure: Measure, trace: seq<Projection>, moves: seq<PlannedMove>) {
    && |trace| == |moves| + 1 && trace[0] == Start(guests, nodes)
    && forall k :: 0 <= k < |moves| ==>
         TakesBest(guests, MovableGuests(guests, guests, nodes), measure, trace[k], moves[k], trace[k + 1])
  }

  /** The whole plan: a search that stops at maxMoves, or where no move gains enough. */
  ghost predicate IsPlan(guests: seq<Guest>, nodes: seq<Node>, maxMoves: nat, measure: Measure,
                         trace: seq<Projection>, moves: seq<PlannedMove>, p: Projection)
  {
    && Searched(guests, nodes, measure, trace, moves) && trace[|moves|] == p && |moves| <= maxMoves
    && (|moves| < maxMoves ==> NoGainLeft(guests, nodes, p, measure))
  }

  lemma TakesSame(guests: seq<Guest>, movable: seq<Guest>, measure: Measure, p: Projection,
                  m: PlannedMove, next: Projection, m': PlannedMove, next': Projection)
    requires TakesBest(guests, movable, measure, p, m, next) && TakesBest(guests, movable, measure, p, m', next')
    ensures m == m' && next == next'
  {
    var b :| Takes(guests, movable, measure, p, m, next, b);
    var b' :| Takes(guests, movable, measure, p, m', next', b');
    BestIsUnique(p, guests, movable, measure, Some(b), Some(b'));
  }

  lemma {:induction false} SearchesAgree(guests: seq<Guest>, nodes: seq<Node>, measure: Measure,
      trace: seq<Projection>, moves: seq<PlannedMove>, trace': seq<Projection>, moves': seq<PlannedMove>, k: nat)
    requires Searched(guests, nodes, measure, trace, moves) && Searched(guests, nodes, measure, trace', moves')
    requires k <= |moves| && k <= |moves'|
    ensures trace[k] == trace'[k] && forall i :: 0 <= i < k ==> moves[i] == moves'[i]
  {
    if k > 0 {
      SearchesAgree(guests, nodes, measure, trace, moves, trace', moves', k - 1);
      TakesSame(guests, MovableGuests(guests, guests, nodes), measure, trace[k - 1],
                moves[k - 1], trace[k], moves'[k - 1], trace'[k]);
    }
  }

  /** A search that can still gain does not stop. */
  lemma {:induction false} NoStopWithGain(guests: seq<Guest>, nodes: seq<Node>, measure: Measure, p: Projection, m: PlannedMove, next: Projection)
    requires TakesBest(guests, MovableGuests(guests, guests, nodes), measure, p, m, next)
    ensures !NoGainLeft(guests, nodes, p, measure)
  {
    var movable := MovableGuests(guests, guests, nodes);
    var b :| Takes(guests, movable, measure, p, m, next, b);
    MovableGuestsAre(guests, guests, nodes);
    var i :| 0 <= i < |guests| && guests[i] == movable[b.index];
    assert Movable(guests[i], guests, nodes) && Feasible(p, guests, guests[i], b.target);
  }

  /** The plan is determined by its inputs: any two plans have the same moves and end in the same projection. */
  lemma PlanIsUnique(guests: seq<Guest>, nodes: seq<Node>, maxMoves: nat, measure: Measure,
      trace: seq<Projection>, moves: seq<PlannedMove>, p: Projection,
      trace': seq<Projection>, moves': seq<PlannedMove>, p': Projection)
    requires IsPlan(guests, nodes, maxMoves, measure, trace, moves, p)
    requires IsPlan(guests, nodes, maxMoves, measure, trace', moves', p')
    ensures moves == moves' && p == p'
  {
    var k := if |moves| <= |moves'| then |moves| else |moves'|;
    SearchesAgree(guests, nodes, measure, trace, moves, trace', moves', k);
    if |moves| < |moves'| { NoStopWithGain(guests, nodes, measure, trace'[k], moves'[k], trace'[k + 1]); }
    if |moves'| < |moves| { NoStopWithGain(guests, nodes, measure, trace[k], moves[k], trace[k + 1]); }
  }

  /**
   The greedy plan, with what every such plan guarantees: memory conserved, anti-affinity kept,
   no target overfull in memory or disk, and every move lowers the imbalance by the minimum gain.
   */
  method ComputePlan(guests: seq<Guest>, nodes: seq<Node>, maxMoves: nat, measure: Measure)
    returns (moves: seq<PlannedMove>, p: Projection)
    requires DistinctGuests(guests) && DistinctNames(nodes)
    requires forall i :: 0 <= i < |guests| ==> guests[i].mem >= 0.0 && guests[i].disk >= 0.0
    ensures exists trace :: IsPlan(guests, nodes, maxMoves, measure, trace, moves, p)
    ensures Sound(guests, nodes, p, moves)
    ensures forall k :: 0 <= k < |moves| ==> moves[k].guest in guests && moves[k].guest.running && !moves[k].guest.exempt
    ensures measure(Loads(p.nodes)) <= measure(Loads(nodes)) - MIN_GAIN * |moves| as real
  {
    var movable := MovableGuests(guests, guests, nodes);
    MovableGuestsAre(guests, guests, nodes);
    PositionsAre(guests);
    p := Start(guests, nodes);
    moves := [];
    ghost var trace := [p];
    var current := measure(Loads(nodes));
    while |moves| < maxMoves
      invariant |moves| <= maxMoves && Sound(guests, nodes, p, moves)
      invariant Searched(guests, nodes, measure, trace, moves) && trace[|moves|] == p
      invariant current == measure(Loads(p.nodes)) <= measure(Loads(nodes)) - MIN_GAIN * |moves| as real
      decreases maxMoves - |moves|
    {
      var best := FindBest(p, guests, movable, measure);
      if best.None? || current - best.value.imbalance < MIN_GAIN {
        StopsWithoutGain(guests, nodes, p, movable, measure, best);
        assert IsPlan(guests, nodes, maxMoves, measure, trace, moves, p);
        return;
      }
      var g, t := movable[best.value.index], best.value.target;
      StepSound(guests, nodes, p, moves, g, t, measure);
      TakenConserves(p, guests, g, t, measure);
      ghost var next := Taken(p, guests, g, t);
      assert Takes(guests, movable, measure, p, AsMove(p, g, t), next, best.value);
      OneMoreMove(guests, nodes, measure, trace, moves, AsMove(p, g, t), next);
      trace := trace + [next];
      moves := moves + [AsMove(p, g, t)];
      p := Taken(p, guests, g, t);
      current := best.value.imbalance;
    }
    assert IsPlan(guests, nodes, maxMoves, measure, trace, moves, p);
  }

  lemma {:induction false} OneMoreMove(guests: seq<Guest>, nodes: seq<Node>, measure: Measure,
                    trace: seq<Projection>, moves: seq<PlannedMove>, m: PlannedMove, next: Projection)
    requires Searched(guests, nodes, measure, trace, moves)
    requires TakesBest(guests, MovableGuests(guests, guests, nodes), measure, trace[|moves|], m, next)
    ensures Searched(guests, nodes, measure, trace + [next], moves + [m])
  {
  }

  lemma {:induction false} StopsWithoutGain(guests: seq<Guest>, nodes: seq<Node>, p: Projection, movable: seq<Guest>, measure: Measure, best: Option<Best>)
    requires movable == MovableGuests(guests, guests, nodes)
    requires IsBest(p, guests, movable, measure, best, |movable|, 0)
    requires best.None? || measure(Loads(p.nodes)) - best.value.imbalance < MIN_GAIN
    ensures NoGainLeft(guests, nodes, p, measure)
  {
    MovableGuestsAre(guests, guests, nodes);
    forall i, t | 0 <= i < |guests| && Movable(guests[i], guests, nodes) && Feasible(p, guests, guests[i], t)
      ensures measure(Loads(p.nodes)) - Projected(p, guests, guests[i], t, measure) < MIN_GAIN
    {
      var j :| 0 <= j < |movable| && movable[j] == guests[i];
      assert Before(j, t, |movable|, 0) && Feasible(p, guests, movable[j], t);
    }
  }

  // ---- What a move asks for, in full ----

  /**
   Every move of a search: the guest runs, nothing exempts it and nobody of its affinity group shares
   its node; its target is another node, and at that moment has less than 90 percent of its processor
   in use, room for 1.2 times the guest's memory and 1.1 times its disk, and no running guest there
   repels it. The move lowers the imbalance by at least 0.005.
   */
  lemma MoveIsAllowed(guests: seq<Guest>, nodes: seq<Node>, measure: Measure, trace: seq<Projection>, moves: seq<PlannedMove>, k: nat)
    requires Searched(guests, nodes, measure, trace, moves) && k < |moves|
    ensures var g := moves[k].guest;
            && g in guests && g.running && !g.exempt && (exists s :: 0 <= s < |nodes| && nodes[s].name == g.node)
            && (forall i, tag ::
                  (0 <= i < |guests| && guests[i].vmid != g.vmid && guests[i].running && guests[i].node == g.node && tag in g.affinity)
                  ==> tag !in guests[i].affinity)
    ensures var g, p := moves[k].guest, trace[k];
            && g.vmid !in p.moved && g.vmid in p.positions && moves[k].source == p.positions[g.vmid] != moves[k].target
            && (exists t :: 0 <= t < |p.nodes| && p.nodes[t].name == moves[k].target && p.nodes[t].cpuPercent < 90.0
                  && (g.mem > 0.0 ==> p.nodes[t].load.memTotal - p.nodes[t].load.memUsed >= 1.2 * g.mem)
                  && (g.disk > 0.0 ==> p.nodes[t].diskFree >= 1.1 * g.disk))
            && (forall i, tag ::
                  (0 <= i < |guests| && guests[i].vmid != g.vmid && guests[i].running && guests[i].vmid in p.positions
                   && tag in g.antiAffinity && tag in guests[i].antiAffinity)
                  ==> p.positions[guests[i].vmid] != moves[k].target)
    ensures measure(Loads(trace[k].nodes)) - measure(Loads(trace[k + 1].nodes)) >= 0.005
  {
    var movable := MovableGuests(guests, guests, nodes);
    assert TakesBest(guests, movable, measure, trace[k], moves[k], trace[k + 1]);
    var b :| Takes(guests, movable, measure, trace[k], moves[k], trace[k + 1], b);
    MovableGuestsAre(guests, guests, nodes);
    var g := movable[b.index];
    TakenConserves(trace[k], guests, g, b.target, measure);
    NoPartner(g, guests);
    NoneRepelled(g, trace[k].nodes[b.target].name, guests, trace[k].positions);
  }

  lemma NoPartner(g: Guest, guests: seq<Guest>)
    ensures BreaksAffinity(g, guests) <==>
            exists i, tag :: 0 <= i < |guests| && guests[i].vmid != g.vmid && guests[i].running && guests[i].node == g.node
              && tag in g.affinity && tag in guests[i].affinity
  {
    if BreaksAffinity(g, guests) {
      var i :| 0 <= i < |guests| && guests[i].vmid != g.vmid && guests[i].node == g.node && guests[i].running && SharesAffinity(g, guests[i]);
      var x :| 0 <= x < |g.affinity| && g.affinity[x] in guests[i].affinity;
      assert g.affinity[x] in g.affinity;
    }
    if i, tag :| 0 <= i < |guests| && guests[i].vmid != g.vmid && guests[i].running && guests[i].node == g.node
                 && tag in g.affinity && tag in guests[i].affinity {
      var x :| 0 <= x < |g.affinity| && g.affinity[x] == tag;
      assert SharesAffinity(g, guests[i]);
    }
  }

  lemma NoneRepelled(g: Guest, node: string, guests: seq<Guest>, positions: map<int, string>)
    ensures Repelled(g, node, guests, positions) <==>
            exists i, tag :: 0 <= i < |guests| && guests[i].vmid != g.vmid && guests[i].running && tag in g.antiAffinity
              && tag in guests[i].antiAffinity && guests[i].vmid in positions && positions[guests[i].vmid] == node
  {
    if Repelled(g, node, guests, positions) {
      var i :| 0 <= i < |guests| && guests[i].vmid != g.vmid && guests[i].running && Repels(g, guests[i])
               && guests[i].vmid in positions && positions[guests[i].vmid] == node;
      var x :| 0 <= x < |g.antiAffinity| && g.antiAffinity[x] in guests[i].antiAffinity;
      assert g.antiAffinity[x] in g.antiAffinity;
    }
    if i, tag :| 0 <= i < |guests| && guests[i].vmid != g.vmid && guests[i].running && tag in g.antiAffinity
                 && tag in guests[i].antiAffinity && guests[i].vmid in positions && positions[guests[i].vmid] == node {
      var x :| 0 <= x < |g.antiAffinity| && g.antiAffinity[x] == tag;
      assert Repels(g, guests[i]);
    }
  }

  /** after is before with the guest's memory taken from node s and put on node t. */
  ghost predicate MemoryMoves(before: seq<Load>, after: seq<Load>, s: nat, t: nat, mem: real) {
    && |after| == |before| && s < |before| && t < |before| && s != t
    && after[s] == before[s].(memUsed := before[s].memUsed - mem) && after[t] == before[t].(memUsed := before[t].memUsed + mem)
    && forall i :: 0 <= i < |before| && i != s && i != t ==> after[i] == before[i]
  }

  /** The guest may move to node t: what MoveIsAllowed says, without the gain. */
  ghost predicate Allowed(guests: seq<Guest>, nodes: seq<Node>, p: Projection, g: Guest, s: nat, t: nat) {
    && g in guests && g.running && !g.exempt && g.vmid !in p.moved && g.vmid in p.positions
    && (exists i :: 0 <= i < |nodes| && nodes[i].name == g.node)
    && s < |p.nodes| && t < |p.nodes| && p.nodes[s].name == p.positions[g.vmid] != p.nodes[t].name
    && p.nodes[t].cpuPercent < 90.0
    && (g.mem > 0.0 ==> p.nodes[t].load.memTotal - p.nodes[t].load.memUsed >= 1.2 * g.mem)
    && (g.disk > 0.0 ==> p.nodes[t].diskFree >= 1.1 * g.disk)
    && (forall i, tag ::
          (0 <= i < |guests| && guests[i].vmid != g.vmid && guests[i].running && guests[i].node == g.node && tag in g.affinity)
          ==> tag !in guests[i].affinity)
    && (forall i, tag ::
          (0 <= i < |guests| && guests[i].vmid != g.vmid && guests[i].running && guests[i].vmid in p.positions
           && tag in g.antiAffinity && tag in guests[i].antiAffinity)
          ==> p.positions[guests[i].vmid] != p.nodes[t].name)
  }

  lemma AllowedIsFeasible(guests: seq<Guest>, nodes: seq<Node>, p: Projection, g: Guest, s: nat, t: nat)
    requires Allowed(guests, nodes, p, g, s, t) && DistinctNames(p.nodes)
    ensures Movable(g, guests, nodes) && Feasible(p, guests, g, t) && NodeIndex(p.nodes, p.positions[g.vmid]) == s
  {
    NoPartner(g, guests);
    NoneRepelled(g, p.nodes[t].name, guests, p.positions);
    assert NodeIndex(p.nodes, p.positions[g.vmid]) == s;
  }

  /** The search changes no node's name. */
  lemma {:induction false} TraceKeepsNames(guests: seq<Guest>, nodes: seq<Node>, measure: Measure, trace: seq<Projection>, moves: seq<PlannedMove>, k: nat)
    requires Searched(guests, nodes, measure, trace, moves) && k <= |moves|
    ensures |trace[k].nodes| == |nodes| && forall i :: 0 <= i < |nodes| ==> trace[k].nodes[i].name == nodes[i].name
  {
    if k > 0 {
      TraceKeepsNames(guests, nodes, measure, trace, moves, k - 1);
      MoveTakesEffect(guests, nodes, measure, trace, moves, k - 1);
    }
  }

  /** Every move that is allowed projects no less imbalance than the one that is taken. */
  lemma LowestIsTaken(guests: seq<Guest>, nodes: seq<Node>, measure: Measure, trace: seq<Projection>, moves: seq<PlannedMove>, k: nat,
                      g: Guest, s: nat, t: nat, after: seq<Load>)
    requires Searched(guests, nodes, measure, trace, moves) && k < |moves| && DistinctNames(nodes)
    requires Allowed(guests, nodes, trace[k], g, s, t) && MemoryMoves(Loads(trace[k].nodes), after, s, t, g.mem)
    ensures measure(Loads(trace[k + 1].nodes)) <= measure(after)
  {
    var movable := MovableGuests(guests, guests, nodes);
    assert TakesBest(guests, movable, measure, trace[k], moves[k], trace[k + 1]);
    var b :| Takes(guests, movable, measure, trace[k], moves[k], trace[k + 1], b);
    MovableGuestsAre(guests, guests, nodes);
    TraceKeepsNames(guests, nodes, measure, trace, moves, k);
    AllowedIsFeasible(guests, nodes, trace[k], g, s, t);
    ProjectedIs(trace[k], guests, g, s, t, measure, after);
    TakenConserves(trace[k], guests, movable[b.index], b.target, measure);
    var i :| 0 <= i < |movable| && movable[i] == g;
    assert Before(i, t, |movable|, 0) && Feasible(trace[k], guests, movable[i], t);
  }

  lemma ProjectedIs(p: Projection, guests: seq<Guest>, g: Guest, s: nat, t: nat, measure: Measure, after: seq<Load>)
    requires Feasible(p, guests, g, t) && NodeIndex(p.nodes, p.positions[g.vmid]) == s && MemoryMoves(Loads(p.nodes), after, s, t, g.mem)
    ensures Projected(p, guests, g, t, measure) == measure(after)
  {
    assert Loads(Shift(p.nodes, s, t, g.mem)) == after;
  }

  /** A plan shorter than the limit leaves no allowed move that would gain 0.005. */
  lemma NothingLeftToGain(guests: seq<Guest>, nodes: seq<Node>, maxMoves: nat, measure: Measure,
                          trace: seq<Projection>, moves: seq<PlannedMove>, p: Projection,
                          g: Guest, s: nat, t: nat, after: seq<Load>)
    requires IsPlan(guests, nodes, maxMoves, measure, trace, moves, p) && |moves| < maxMoves && DistinctNames(nodes)
    requires Allowed(guests, nodes, p, g, s, t) && MemoryMoves(Loads(p.nodes), after, s, t, g.mem)
    ensures measure(Loads(p.nodes)) - measure(after) < 0.005
  {
    TraceKeepsNames(guests, nodes, measure, trace, moves, |moves|);
    AllowedIsFeasible(guests, nodes, p, g, s, t);
    ProjectedIs(p, guests, g, s, t, measure, after);
    var i :| 0 <= i < |guests| && guests[i] == g;
    assert Movable(guests[i], guests, nodes) && Feasible(p, guests, guests[i], t);
  }

  /** What a move does to the projection: memory and position move, the target's free disk shrinks, and the guest is not moved again. */
  lemma MoveTakesEffect(guests: seq<Guest>, nodes: seq<Node>, measure: Measure, trace: seq<Projection>, moves: seq<PlannedMove>, k: nat)
    requires Searched(guests, nodes, measure, trace, moves) && k < |moves|
    ensures var g, p, q := moves[k].guest, trace[k], trace[k + 1];
            && q.moved == p.moved + {g.vmid} && q.positions == p.positions[g.vmid := moves[k].target]
            && exists s: nat, t: nat ::
                 && MemoryMoves(Loads(p.nodes), Loads(q.nodes), s, t, g.mem)
                 && p.nodes[s].name == moves[k].source && p.nodes[t].name == moves[k].target
                 && q.nodes[t].diskFree == p.nodes[t].diskFree - g.disk
                 && (forall i :: 0 <= i < |p.nodes| && i != t ==> q.nodes[i].diskFree == p.nodes[i].diskFree)
                 && (forall i :: 0 <= i < |p.nodes| ==> q.nodes[i].name == p.nodes[i].name && q.nodes[i].cpuPercent == p.nodes[i].cpuPercent)
  {
    var movable := MovableGuests(guests, guests, nodes);
    assert TakesBest(guests, movable, measure, trace[k], moves[k], trace[k + 1]);
    var b :| Takes(guests, movable, measure, trace[k], moves[k], trace[k + 1], b);
    var p, q, g := trace[k], trace[k + 1], movable[b.index];
    var s: nat, t: nat := NodeIndex(p.nodes, p.positions[g.vmid]), b.target;
    assert MemoryMoves(Loads(p.nodes), Loads(q.nodes), s, t, g.mem);
  }

  /** The search starts from the guests' and nodes' own state. */
  lemma SearchStartsAsGiven(guests: seq<Guest>, nodes: seq<Node>, measure: Measure, trace: seq<Projection>, moves: seq<PlannedMove>)
    requires Searched(guests, nodes, measure, trace, moves) && DistinctGuests(guests)
    ensures trace[0].nodes == nodes && trace[0].moved == {}
    ensures forall i :: 0 <= i < |guests| ==> guests[i].vmid in trace[0].positions && trace[0].positions[guests[i].vmid] == guests[i].node
  {
    PositionsAre(guests);
  }

  /** Guests are tried in the order they are given, so the first of several equal moves is the one of the first guest. */
  lemma {:induction false} MovableInOrder(a: seq<Guest>, g: Guest, b: seq<Guest>, guests: seq<Guest>, nodes: seq<Node>)
    ensures MovableGuests(a + [g] + b, guests, nodes) ==
            MovableGuests(a, guests, nodes) + (if Movable(g, guests, nodes) then [g] else []) + MovableGuests(b, guests, nodes)
  {
    if a == [] {
      assert [] + [g] + b == [g] + b;
      assert ([g] + b)[1..] == b;
    } else {
      assert (a + [g] + b)[1..] == a[1..] + [g] + b;
      MovableInOrder(a[1..], g, b, guests, nodes);
    }
  }

  /** Guests of one affinity group that share a node stay there together. */
  lemma AffinityKept(guests: seq<Guest>, nodes: seq<Node>, p: Projection, moves: seq<PlannedMove>, i: nat, j: nat)
    requires Sound(guests, nodes, p, moves) && DistinctGuests(guests)
    requires i < |guests| && j < |guests| && i != j && guests[i].running && guests[j].running
    requires guests[i].node == guests[j].node && SharesAffinity(guests[i], guests[j])
    ensures p.positions[guests[i].vmid] == guests[i].node
  {
    if guests[i].vmid in p.moved {
      var k :| 0 <= k < |moves| && moves[k].guest.vmid == guests[i].vmid;
      SameGuest(guests, moves[k].guest, guests[i]);
      assert BreaksAffinity(guests[i], guests);
    }
  }
}
