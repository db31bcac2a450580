/**
 Which guests and nodes the optimizer is given: settings and tags decide what may move, what stays
 together and what stays apart.
 */
module Rebalance {
  import opened Options
  import opened Text
  import opened Optimizer

  /** A guest as the cluster reports it; mem is the effective figure. */
  datatype Deployment = Deployment(
    vmid: int, node: string, running: bool, isContainer: bool, mem: real, disk: real, tags: seq<string>)

  datatype Settings = Settings(
    excludedVmids: seq<int>, excludedNodes: seq<string>, maintenanceNodes: seq<string>, includeContainers: bool)

  const IGNORE := "plb_ignore"
  const PIN_PREFIX := "plb_pin_"
  const AFFINITY_PREFIX := "plb_affinity_"
  const ANTI_AFFINITY_PREFIX := "plb_anti_affinity_"

  predicate IsIgnoreTag(tag: string) {
    tag == IGNORE || StartsWith(tag, IGNORE + "_")
  }

  function TagsWith(tags: seq<string>, p: string -> bool): (r: seq<string>)
    ensures forall tag :: tag in r <==> tag in tags && p(tag)
  {
    if tags == [] then []
    else
      assert tags == [tags[0]] + tags[1..];
      (if p(tags[0]) then [tags[0]] else []) + TagsWith(tags[1..], p)
  }

  predicate IsExempt(settings: Settings, d: Deployment) {
    || d.vmid in settings.excludedVmids
    || (exists i :: 0 <= i < |d.tags| && IsIgnoreTag(d.tags[i]))
    || (exists i :: 0 <= i < |d.tags| && StartsWith(d.tags[i], PIN_PREFIX))
    || (d.isContainer && !settings.includeContainers)
  }

  function GuestOf(settings: Settings, d: Deployment): Guest {
    Guest(d.vmid, d.node, d.running, d.mem, d.disk,
          TagsWith(d.tags, tag => StartsWith(tag, AFFINITY_PREFIX) && !StartsWith(tag, ANTI_AFFINITY_PREFIX)),
          TagsWith(d.tags, tag => StartsWith(tag, ANTI_AFFINITY_PREFIX)),
          IsExempt(settings, d))
  }

  function GuestsOf(settings: Settings, ds: seq<Deployment>): (r: seq<Guest>)
    ensures |r| == |ds| && forall i :: 0 <= i < |r| ==> r[i] == GuestOf(settings, ds[i])
  {
    seq(|ds|, i requires 0 <= i < |ds| => GuestOf(settings, ds[i]))
  }

  /** Nodes in maintenance and excluded ones take no part. */
  function NodesFor(settings: Settings, nodes: seq<Node>): seq<Node> {
    if nodes == [] then []
    else if nodes[0].name in settings.excludedNodes || nodes[0].name in settings.maintenanceNodes then NodesFor(settings, nodes[1..])
    else [nodes[0]] + NodesFor(settings, nodes[1..])
  }

  lemma {:induction false} NodesForExactly(settings: Settings, nodes: seq<Node>, n: Node)
    ensures n in NodesFor(settings, nodes) <==>
            n in nodes && n.name !in settings.excludedNodes && n.name !in settings.maintenanceNodes
  {
    if nodes != [] {
      assert nodes == [nodes[0]] + nodes[1..];
      NodesForExactly(settings, nodes[1..], n);
    }
  }

  lemma {:induction false} NodesForDistinct(settings: Settings, nodes: seq<Node>)
    requires DistinctNames(nodes)
    ensures DistinctNames(NodesFor(settings, nodes))
  {
    if nodes != [] {
      var rest := NodesFor(settings, nodes[1..]);
      NodesForDistinct(settings, nodes[1..]);
      forall i | 0 <= i < |rest| ensures rest[i].name != nodes[0].name {
        NodesForExactly(settings, nodes[1..], rest[i]);
        var k :| 0 <= k < |nodes[1..]| && nodes[1..][k] == rest[i];
        assert nodes[k + 1] == rest[i];
      }
    }
  }

  predicate DistinctDeployments(ds: seq<Deployment>) {
    forall i, j :: 0 <= i < j < |ds| ==> ds[i].vmid != ds[j].vmid
  }

  /** One guest of the cluster may be moved by a plan, from its node to another. */
  ghost predicate MayBeMoved(settings: Settings, d: Deployment, nodes: seq<Node>, m: PlannedMove) {
    && m.guest.vmid == d.vmid && m.source == d.node && m.target != d.node
    && d.running && d.vmid !in settings.excludedVmids && (d.isContainer ==> settings.includeContainers)
    && (forall tag :: tag in d.tags ==>
          tag != "plb_ignore" && !StartsWith(tag, "plb_ignore_") && !StartsWith(tag, "plb_pin_"))
    && m.source !in settings.excludedNodes && m.source !in settings.maintenanceNodes
    && m.target !in settings.excludedNodes && m.target !in settings.maintenanceNodes
    && exists i :: 0 <= i < |nodes| && nodes[i].name == m.target
  }

  lemma ExemptExactly(settings: Settings, d: Deployment)
    ensures GuestOf(settings, d).exempt <==>
            || d.vmid in settings.excludedVmids || (d.isContainer && !settings.includeContainers)
            || exists tag :: tag in d.tags && (tag == "plb_ignore" || StartsWith(tag, "plb_ignore_") || StartsWith(tag, "plb_pin_"))
  {
    assert IGNORE + "_" == "plb_ignore_";
    if tag :| tag in d.tags && (tag == "plb_ignore" || StartsWith(tag, "plb_ignore_") || StartsWith(tag, "plb_pin_")) {
      var i :| 0 <= i < |d.tags| && d.tags[i] == tag;
      assert IsIgnoreTag(d.tags[i]) || StartsWith(d.tags[i], PIN_PREFIX);
    }
    if exists i :: 0 <= i < |d.tags| && IsIgnoreTag(d.tags[i]) {
      var i :| 0 <= i < |d.tags| && IsIgnoreTag(d.tags[i]);
      assert d.tags[i] in d.tags;
    }
    if exists i :: 0 <= i < |d.tags| && StartsWith(d.tags[i], PIN_PREFIX) {
      var i :| 0 <= i < |d.tags| && StartsWith(d.tags[i], PIN_PREFIX);
      assert d.tags[i] in d.tags;
    }
  }

  predicate ShareTag(a: Deployment, b: Deployment, tag: string) {
    tag in a.tags && tag in b.tags
  }

  /**
   The plan for a cluster: only what may move is moved, running guests of one affinity group that
   share a node stay there, and a moved running guest ends on another node than every running guest
   it shares an anti-affinity tag with.
   */
  method PlanFor(settings: Settings, ds: seq<Deployment>, nodes: seq<Node>, maxMoves: nat, measure: Measure)
    returns (moves: seq<PlannedMove>, p: Projection)
    requires DistinctDeployments(ds) && DistinctNames(nodes)
    requires forall i :: 0 <= i < |ds| ==> ds[i].mem >= 0.0 && ds[i].disk >= 0.0
    ensures exists trace :: IsPlan(GuestsOf(settings, ds), NodesFor(settings, nodes), maxMoves, measure, trace, moves, p)
    ensures |moves| <= maxMoves
    ensures forall k :: 0 <= k < |moves| ==> exists i :: 0 <= i < |ds| && MayBeMoved(settings, ds[i], nodes, moves[k])
    ensures forall i: nat, j: nat, tag :: i < |ds| && j < |ds| && i != j && Together(ds[i], ds[j], tag) ==>
              ds[i].vmid in p.positions && p.positions[ds[i].vmid] == ds[i].node
    ensures forall i: nat, j: nat, tag :: i < |ds| && j < |ds| && i != j && ds[i].vmid in p.moved && Apart(ds[i], ds[j], tag) ==>
              ds[i].vmid in p.positions && ds[j].vmid in p.positions && p.positions[ds[i].vmid] != p.positions[ds[j].vmid]
  {
    var guests, allowed := GuestsOf(settings, ds), NodesFor(settings, nodes);
    NodesForDistinct(settings, nodes);
    moves, p := ComputePlan(guests, allowed, maxMoves, measure);
    forall k | 0 <= k < |moves| ensures exists i :: 0 <= i < |ds| && MayBeMoved(settings, ds[i], nodes, moves[k]) {
      var i :| 0 <= i < |guests| && guests[i] == moves[k].guest;
      MovedMayBe(settings, ds, nodes, p, moves, k, i);
    }
    forall i: nat, j: nat, tag | i < |ds| && j < |ds| && i != j && Together(ds[i], ds[j], tag)
      ensures ds[i].vmid in p.positions && p.positions[ds[i].vmid] == ds[i].node
    {
      TogetherStays(settings, ds, nodes, p, moves, i, j, tag);
    }
    forall i: nat, j: nat, tag | i < |ds| && j < |ds| && i != j && ds[i].vmid in p.moved && Apart(ds[i], ds[j], tag)
      ensures ds[i].vmid in p.positions && ds[j].vmid in p.positions && p.positions[ds[i].vmid] != p.positions[ds[j].vmid]
    {
      ApartEndsApart(settings, ds, nodes, p, moves, i, j, tag);
    }
  }

  /** Two running guests that share an affinity tag and a node. */
  predicate Together(a: Deployment, b: Deployment, tag: string) {
    && a.running && b.running && a.node == b.node && ShareTag(a, b, tag)
    && StartsWith(tag, "plb_affinity_") && !StartsWith(tag, "plb_anti_affinity_")
  }

  /** Two running guests that share an anti-affinity tag. */
  predicate Apart(a: Deployment, b: Deployment, tag: string) {
    a.running && b.running && ShareTag(a, b, tag) && StartsWith(tag, "plb_anti_affinity_")
  }

  lemma {:induction false} TogetherStays(settings: Settings, ds: seq<Deployment>, nodes: seq<Node>, p: Projection, moves: seq<PlannedMove>,
                      i: nat, j: nat, tag: string)
    requires Sound(GuestsOf(settings, ds), NodesFor(settings, nodes), p, moves) && DistinctDeployments(ds)
    requires i < |ds| && j < |ds| && i != j && Together(ds[i], ds[j], tag)
    ensures ds[i].vmid in p.positions && p.positions[ds[i].vmid] == ds[i].node
  {
    var guests := GuestsOf(settings, ds);
    AffinityExactly(settings, ds[i], ds[j]);
    AffinityKept(guests, NodesFor(settings, nodes), p, moves, i, j);
    assert guests[i].vmid in p.positions;
  }

  lemma {:induction false} ApartEndsApart(settings: Settings, ds: seq<Deployment>, nodes: seq<Node>, p: Projection, moves: seq<PlannedMove>,
                       i: nat, j: nat, tag: string)
    requires Sound(GuestsOf(settings, ds), NodesFor(settings, nodes), p, moves) && DistinctDeployments(ds)
    requires i < |ds| && j < |ds| && i != j && ds[i].vmid in p.moved && Apart(ds[i], ds[j], tag)
    ensures ds[i].vmid in p.positions && ds[j].vmid in p.positions && p.positions[ds[i].vmid] != p.positions[ds[j].vmid]
  {
    var guests := GuestsOf(settings, ds);
    AntiAffinityExactly(settings, ds[i], ds[j]);
    assert guests[i].vmid in p.positions && guests[j].vmid in p.positions;
    assert Repels(guests[i], guests[j]);
    PlacedApart(guests, p, i, j);
  }

  lemma PlacedApart(guests: seq<Guest>, p: Projection, i: nat, j: nat)
    requires KeptApart(guests, p) && i < |guests| && j < |guests| && guests[i].vmid != guests[j].vmid
    requires guests[i].vmid in p.moved && guests[i].running && guests[j].running && Repels(guests[i], guests[j])
    requires guests[i].vmid in p.positions && guests[j].vmid in p.positions
    ensures p.positions[guests[i].vmid] != p.positions[guests[j].vmid]
  {
  }

  lemma {:induction false} MovedMayBe(settings: Settings, ds: seq<Deployment>, nodes: seq<Node>, p: Projection, moves: seq<PlannedMove>, k: nat, i: nat)
    requires Sound(GuestsOf(settings, ds), NodesFor(settings, nodes), p, moves) && k < |moves|
    requires i < |ds| && GuestOf(settings, ds[i]) == moves[k].guest
    ensures MayBeMoved(settings, ds[i], nodes, moves[k])
  {
    var allowed := NodesFor(settings, nodes);
    ExemptExactly(settings, ds[i]);
    var s, t := NodeIndex(allowed, moves[k].guest.node), NodeIndex(allowed, moves[k].target);
    assert allowed[s] in allowed && allowed[t] in allowed;
    NodesForExactly(settings, nodes, allowed[s]);
    NodesForExactly(settings, nodes, allowed[t]);
  }

  /** Affinity is a shared tag with the one prefix and not the other. */
  lemma AffinityExactly(settings: Settings, a: Deployment, b: Deployment)
    ensures SharesAffinity(GuestOf(settings, a), GuestOf(settings, b)) <==>
            exists tag :: ShareTag(a, b, tag) && StartsWith(tag, "plb_affinity_") && !StartsWith(tag, "plb_anti_affinity_")
  {
    var g, h := GuestOf(settings, a), GuestOf(settings, b);
    if tag :| ShareTag(a, b, tag) && StartsWith(tag, "plb_affinity_") && !StartsWith(tag, "plb_anti_affinity_") {
      assert tag in g.affinity && tag in h.affinity;
      var x :| 0 <= x < |g.affinity| && g.affinity[x] == tag;
    }
    if SharesAffinity(g, h) {
      var x :| 0 <= x < |g.affinity| && g.affinity[x] in h.affinity;
      assert g.affinity[x] in g.affinity;
      assert ShareTag(a, b, g.affinity[x]);
    }
  }

  lemma AntiAffinityExactly(settings: Settings, a: Deployment, b: Deployment)
    ensures Repels(GuestOf(settings, a), GuestOf(settings, b)) <==>
            exists tag :: ShareTag(a, b, tag) && StartsWith(tag, "plb_anti_affinity_")
  {
    var g, h := GuestOf(settings, a), GuestOf(settings, b);
    if tag :| ShareTag(a, b, tag) && StartsWith(tag, "plb_anti_affinity_") {
      assert tag in g.antiAffinity && tag in h.antiAffinity;
      var x :| 0 <= x < |g.antiAffinity| && g.antiAffinity[x] == tag;
    }
    if Repels(g, h) {
      var x :| 0 <= x < |g.antiAffinity| && g.antiAffinity[x] in h.antiAffinity;
      assert g.antiAffinity[x] in g.antiAffinity;
      assert ShareTag(a, b, g.antiAffinity[x]);
    }
  }
}
