/** Control routes over nodes wired in a line: each hop goes to the neighbour on the
    side of the target. Every node has a table of its own; a packet follows the
    entry for its target at each node it reaches. The link between ranks r - 1 and
    r has the subnet 2r. A node list may have gaps in its ranks. */
module FabricRoutes {
  /** An address 10.10.subnet.host. */
  datatype Address = Address(subnet: nat, host: nat)

  /** The interface of every node that is wired to the next higher rank, and to the next lower one. */
  const UPWARD := "enP2p1s0f1np1"
  const DOWNWARD := "enP2p1s0f0np0"

  datatype Node = Node(rank: nat, id: string, host: string, ip: string)

  datatype Spec = Spec(source: nat, target: nat, targetIp: string, via: Address, dev: string,
                       sourceIp: string, sourceNode: string, targetNode: string, sourceHost: string)

  /** Which pairs of nodes get a route. */
  datatype Flags = Flags(adjacentOnly: bool, headOnly: bool)

  const FABRIC_SUBNET := 100

  /** line_next_hop for two different ranks. */
  function NextHop(source: nat, target: nat): (Address, string)
    requires source != target
  {
    if target > source then (Address((source + 1) * 2, 2), UPWARD) else (Address(source * 2, 1), DOWNWARD)
  }

  // ---- the wiring ----

  /** The subnet that an interface of rank r is wired to; -1 for any other name. */
  function PortSubnet(rank: nat, dev: string): int {
    if dev == "enP2p1s0f1np1" then 2 * (rank + 1) else if dev == "enP2p1s0f0np0" then 2 * rank else -1
  }

  /** The subnet 2r joins ranks r - 1 and r, with host 1 at the lower end and 2 at the upper. */
  predicate Owns(rank: nat, a: Address) { a == Address(2 * (rank + 1), 1) || a == Address(2 * rank, 2) }

  /** The gateway is an address of `next`, on the link that the device is wired to. */
  predicate LeadsTo(at: nat, dev: string, via: Address, next: nat) {
    at != next && Owns(next, via) && PortSubnet(at, dev) == via.subnet
  }

  /** The gateway of a route is on the wire of its device, and belongs to the neighbour on
      the side of the target. */
  lemma {:induction false} HopOnLink(source: nat, target: nat, next: nat)
    requires source != target
    ensures var (via, dev) := NextHop(source, target);
      LeadsTo(source, dev, via, next) <==> next == if target > source then source + 1 else source - 1
  {
    assert UPWARD[9] != DOWNWARD[9];
  }

  predicate Wanted(f: Flags, source: nat, target: nat) {
    source != target && (f.adjacentOnly ==> source == target + 1 || target == source + 1) &&
    (f.headOnly ==> source == 0 || target == 0)
  }

  function SpecOf(source: Node, target: Node): Spec
    requires source.rank != target.rank
  {
    var (via, dev) := NextHop(source.rank, target.rank);
    Spec(source.rank, target.rank, target.ip, via, dev, source.ip, source.id, target.id, source.host)
  }

  /** The specs of one source for some targets, in the order of the node list. */
  function SpecsFrom(f: Flags, source: Node, targets: seq<Node>): seq<Spec> {
    if targets == [] then []
    else
      var last := targets[|targets| - 1];
      SpecsFrom(f, source, targets[..|targets| - 1]) + (if Wanted(f, source.rank, last.rank) then [SpecOf(source, last)] else [])
  }

  function AllSpecs(f: Flags, sources: seq<Node>, targets: seq<Node>): seq<Spec> {
    if sources == [] then []
    else AllSpecs(f, sources[..|sources| - 1], targets) + SpecsFrom(f, sources[|sources| - 1], targets)
  }

  /** build_specs */
  method BuildSpecs(f: Flags, nodes: seq<Node>) returns (specs: seq<Spec>)
    ensures specs == AllSpecs(f, nodes, nodes)
  {
    specs := [];
    for i := 0 to |nodes|
      invariant specs == AllSpecs(f, nodes[..i], nodes)
    {
      var source := nodes[i];
      ghost var had := specs;
      for j := 0 to |nodes|
        invariant specs == had + SpecsFrom(f, source, nodes[..j])
      {
        assert nodes[..j + 1][..j] == nodes[..j];
        var target := nodes[j];
        if source.rank == target.rank {
          continue;
        }
        if f.adjacentOnly && source.rank != target.rank + 1 && target.rank != source.rank + 1 {
          continue;
        }
        if f.headOnly && source.rank != 0 && target.rank != 0 {
          continue;
        }
        var (via, dev) := NextHop(source.rank, target.rank);
        specs := specs + [Spec(source.rank, target.rank, target.ip, via, dev, source.ip, source.id, target.id, source.host)];
      }
      assert nodes[..|nodes|] == nodes && nodes[..i + 1][..i] == nodes[..i];
    }
    assert nodes[..|nodes|] == nodes;
  }

  /** The spec is that of a wanted pair of nodes. */
  predicate PairOf(f: Flags, sources: seq<Node>, targets: seq<Node>, s: Spec) {
    exists a, b :: a in sources && b in targets && Pairs(f, a, b, s)
  }

  predicate Pairs(f: Flags, a: Node, b: Node, s: Spec) { Wanted(f, a.rank, b.rank) && s == SpecOf(a, b) }

  lemma {:induction false} SpecsFromHas(f: Flags, a: Node, targets: seq<Node>, s: Spec)
    ensures s in SpecsFrom(f, a, targets) <==> exists b :: b in targets && Pairs(f, a, b, s)
  {
    hide Pairs;
    if targets != [] {
      var n := |targets| - 1;
      SpecsFromHas(f, a, targets[..n], s);
      PairsIs(f, a, targets[n], s);
      assert targets == targets[..n] + [targets[n]];
    }
  }

  lemma {:induction false} PairsIs(f: Flags, a: Node, b: Node, s: Spec)
    ensures Pairs(f, a, b, s) <==> s in (if Wanted(f, a.rank, b.rank) then [SpecOf(a, b)] else [])
  {
  }

  lemma {:induction false} AllSpecsHas(f: Flags, sources: seq<Node>, targets: seq<Node>, s: Spec)
    ensures s in AllSpecs(f, sources, targets) <==> PairOf(f, sources, targets, s)
  {
    hide Pairs, SpecsFrom;
    if sources != [] {
      var n := |sources| - 1;
      AllSpecsHas(f, sources[..n], targets, s);
      SpecsFromHas(f, sources[n], targets, s);
      assert sources == sources[..n] + [sources[n]];
    }
  }

  /** The specs are those of the pairs that the flags ask for, each with the addresses and
      names of its two nodes. */
  lemma {:induction false} SpecFields(f: Flags, nodes: seq<Node>, s: Spec)
    ensures s in AllSpecs(f, nodes, nodes) ==>
      exists a, b :: a in nodes && b in nodes && Asked(f, a.rank, b.rank) && Names(s, a, b)
    ensures forall a, b :: a in nodes && b in nodes && Asked(f, a.rank, b.rank) ==>
      exists t :: t in AllSpecs(f, nodes, nodes) && Names(t, a, b)
  {
    hide AllSpecs;
    AllSpecsHas(f, nodes, nodes, s);
    if s in AllSpecs(f, nodes, nodes) {
      var a, b :| a in nodes && b in nodes && Pairs(f, a, b, s);
      assert Names(s, a, b);
    }
    forall a, b | a in nodes && b in nodes && Asked(f, a.rank, b.rank)
      ensures exists t :: t in AllSpecs(f, nodes, nodes) && Names(t, a, b)
    {
      assert Pairs(f, a, b, SpecOf(a, b));
      AllSpecsHas(f, nodes, nodes, SpecOf(a, b));
      assert Names(SpecOf(a, b), a, b);
    }
  }

  /** Two nodes; with adjacentOnly one rank apart, with headOnly one of them the head. */
  predicate Asked(f: Flags, a: nat, b: nat) {
    a != b && (f.adjacentOnly ==> a == b + 1 || b == a + 1) && (f.headOnly ==> a == 0 || b == 0)
  }

  predicate Names(s: Spec, a: Node, b: Node) {
    s.source == a.rank && s.sourceNode == a.id && s.sourceHost == a.host && s.sourceIp == a.ip &&
    s.target == b.rank && s.targetNode == b.id && s.targetIp == b.ip
  }

  // ---- following the table ----

  /** path is what a packet visits up to target when every node forwards by its entry
      in the table. */
  predicate Follows(specs: seq<Spec>, path: seq<nat>, target: nat) {
    path != [] &&
    if |path| == 1 then path[0] == target else Forwards(specs, path[0], target, path[1]) && Follows(specs, path[1..], target)
  }

  predicate Forwards(specs: seq<Spec>, at: nat, target: nat, next: nat) {
    exists s :: s in specs && s.source == at && s.target == target && LeadsTo(at, s.dev, s.via, next)
  }

  function Toward(at: nat, target: nat): int { if target > at then at + 1 else at - 1 }

  /** The nodes from s to t along the line. */
  function Line(s: nat, t: nat): seq<nat>
    decreases if s < t then t - s else s - t
  {
    if s == t then [s] else [s] + Line(Toward(s, t), t)
  }

  lemma {:induction false} LineIs(s: nat, t: nat)
    ensures |Line(s, t)| == (if s < t then t - s else s - t) + 1
    ensures forall i :: 0 <= i < |Line(s, t)| ==> Line(s, t)[i] == if s < t then s + i else s - i
    decreases if s < t then t - s else s - t
  {
    if s != t {
      LineIs(Toward(s, t), t);
    }
  }

  predicate HasRank(nodes: seq<Node>, rank: nat) { exists n :: n in nodes && n.rank == rank }

  lemma {:induction false} ForwardsIs(f: Flags, nodes: seq<Node>, at: nat, target: nat, next: nat)
    ensures Forwards(AllSpecs(f, nodes, nodes), at, target, next) <==>
      HasRank(nodes, at) && HasRank(nodes, target) && Wanted(f, at, target) && next == Toward(at, target)
  {
    var specs := AllSpecs(f, nodes, nodes);
    hide AllSpecs, NextHop, LeadsTo;
    if at != target {
      HopOnLink(at, target, next);
    }
    if HasRank(nodes, at) && HasRank(nodes, target) && Wanted(f, at, target) && next == Toward(at, target) {
      var a :| a in nodes && a.rank == at;
      var b :| b in nodes && b.rank == target;
      assert Pairs(f, a, b, SpecOf(a, b));
      AllSpecsHas(f, nodes, nodes, SpecOf(a, b));
    }
    if Forwards(specs, at, target, next) {
      var s :| s in specs && s.source == at && s.target == target && LeadsTo(at, s.dev, s.via, next);
      AllSpecsHas(f, nodes, nodes, s);
      var a, b :| a in nodes && b in nodes && Pairs(f, a, b, s);
    }
  }

  /** Some path from s to t follows the table. */
  ghost predicate Delivered(specs: seq<Spec>, s: nat, t: nat) { exists path: seq<nat> :: path != [] && path[0] == s && Follows(specs, path, t) }

  /** Any path that follows the table is the line from s to t: |s - t| hops, no node twice. */
  lemma {:induction false} FollowsLine(f: Flags, nodes: seq<Node>, path: seq<nat>, t: nat)
    requires Follows(AllSpecs(f, nodes, nodes), path, t)
    ensures path == Line(path[0], t)
    ensures |path| > 1 ==> Wanted(f, path[0], t) && Present(nodes, path[0], t)
    ensures |path| > 2 ==> Wanted(f, path[1], t)
  {
    hide AllSpecs, Forwards, HasRank;
    if |path| > 1 {
      ForwardsIs(f, nodes, path[0], t, path[1]);
      FollowsLine(f, nodes, path[1..], t);
      assert path == [path[0]] + path[1..];
    }
  }

  /** No rank is missing from s to t. */
  predicate Present(nodes: seq<Node>, s: nat, t: nat)
    decreases if s < t then t - s else s - t
  {
    HasRank(nodes, s) && (s == t || Present(nodes, Toward(s, t), t))
  }

  lemma {:induction false} PresentIs(nodes: seq<Node>, s: nat, t: nat)
    ensures Present(nodes, s, t) <==> forall r :: s <= r <= t || t <= r <= s ==> HasRank(nodes, r)
    decreases if s < t then t - s else s - t
  {
    hide HasRank;
    if s != t {
      PresentIs(nodes, Toward(s, t), t);
    }
  }

  /** Which pairs the tables serve by themselves: with every route built all of them; with
      adjacent routes neighbours; with head routes only whatever goes to the head, and
      from the head to its neighbour. */
  predicate Served(f: Flags, s: nat, t: nat) {
    s == t || (if f.adjacentOnly then (s == t + 1 || t == s + 1) && (f.headOnly ==> s == 0 || t == 0) else !f.headOnly || t == 0 || (s == 0 && t == 1))
  }

  lemma {:induction false} ServedFollows(f: Flags, nodes: seq<Node>, s: nat, t: nat)
    requires Served(f, s, t) && Present(nodes, s, t)
    ensures Follows(AllSpecs(f, nodes, nodes), Line(s, t), t)
    decreases if s < t then t - s else s - t
  {
    hide AllSpecs, Forwards, HasRank;
    if s != t {
      var next: nat := Toward(s, t);
      PresentIs(nodes, s, t);
      ForwardsIs(f, nodes, s, t, next);
      ServedFollows(f, nodes, next, t);
      assert Line(s, t)[1..] == Line(next, t);
    }
  }

  /** Between two nodes of the list a packet arrives exactly when the tables serve the pair
      and no rank between them is missing. */
  lemma {:induction false} DeliveredIff(f: Flags, nodes: seq<Node>, s: nat, t: nat)
    requires HasRank(nodes, s) && HasRank(nodes, t)
    ensures Delivered(AllSpecs(f, nodes, nodes), s, t) <==>
      Served(f, s, t) && forall r :: s <= r <= t || t <= r <= s ==> HasRank(nodes, r)
  {
    var specs := AllSpecs(f, nodes, nodes);
    hide AllSpecs, Follows, HasRank;
    LineIs(s, t);
    PresentIs(nodes, s, t);
    if Served(f, s, t) && Present(nodes, s, t) {
      ServedFollows(f, nodes, s, t);
      assert Line(s, t)[0] == s;
    }
    if Delivered(specs, s, t) {
      var path: seq<nat> :| path != [] && path[0] == s && Follows(specs, path, t);
      FollowsLine(f, nodes, path, t);
    }
  }

  // ---- subnets ----

  /** The two directions of a link use one subnet, and different links different ones. */
  lemma {:induction false} LinkSubnets(i: nat, j: nat)
    ensures NextHop(i, i + 1).0.subnet == NextHop(i + 1, i).0.subnet
    ensures NextHop(i, i + 1).0.subnet == NextHop(j, j + 1).0.subnet <==> i == j
  {
  }

  /** Some link of n nodes takes the fabric's own subnet exactly from 51 nodes on. */
  lemma {:induction false} FabricClash(n: nat)
    ensures (exists i: nat, j: nat :: j == i + 1 && j < n && NextHop(i, j).0.subnet == FABRIC_SUBNET) <==> n >= 51
  {
    if n >= 51 {
      assert NextHop(49, 50).0.subnet == FABRIC_SUBNET;
    }
  }
}
