/** Routing a packet through a network of switches (lib/Node.cpp): the walk from node to node, and the
    loop that follows it with Brent's cycle detection. */
module Routing {
  import opened Options
  import opened Bits
  import opened HopWalk

  /** The far end of a link: a node and one of its links. */
  datatype LinkEnd = LinkEnd(node: nat, link: nat)

  datatype XLink = XLink(dest: Option<LinkEnd>, enabled: bool, fiveWire: bool, direction: nat)

  /** A switch: its 16-bit ID, how many low ID bits are not node bits, a direction for each bit, its links. */
  datatype Node = Node(id: nat, nonNodeBits: nat, directions: seq<nat>, xLinks: seq<XLink>)

  type Network = seq<Node>

  const ID_LIMIT: nat := 0x1_0000

  predicate ValidNode(net: Network, n: Node) {
    && n.id < ID_LIMIT && n.nonNodeBits <= 16 && |n.directions| == 16
    && forall k | 0 <= k < |n.xLinks| && n.xLinks[k].dest.Some? ::
         var e := n.xLinks[k].dest.value; e.node < |net| && e.link < |net[e.node].xLinks|
  }

  predicate ValidNetwork(net: Network) { forall i | 0 <= i < |net| :: ValidNode(net, net[i]) }

  /** The highest bit in which two numbers differ. */
  function HighestDifference(a: nat, b: nat): nat
    requires a != b
    decreases a + b
  {
    if a / 2 == b / 2 then 0 else 1 + HighestDifference(a / 2, b / 2)
  }

  lemma {:induction false} HighestDifferenceIs(a: nat, b: nat, n: nat)
    requires a != b
    ensures var h := HighestDifference(a, b);
            && Shr(a, h) % 2 != Shr(b, h) % 2 && Shr(a, h + 1) == Shr(b, h + 1)
            && (a < Pow2(n) && b < Pow2(n) ==> h < n)
    decreases a + b
  {
    if a / 2 != b / 2 {
      HighestDifferenceIs(a / 2, b / 2, if n == 0 then 0 else n - 1);
    }
  }

  lemma {:induction false} ShrBelow(a: nat, k: nat, n: nat)
    requires a < Pow2(n) && k <= n
    ensures Shr(a, k) < Pow2(n - k)
    decreases k
  {
    if k != 0 { ShrBelow(a / 2, k - 1, n - 1); }
  }

  lemma IdLimit()
    ensures Pow2(16) == ID_LIMIT
  {
    assert Pow2(8) == 256;
    ScaleAdd(1, 8, 8);
    assert Scale(256, 8) == 0x1_0000;
  }

  /** Does the node match the destination in its node bits? */
  predicate Matches(n: Node, dest: nat) { Shr(dest, n.nonNodeBits) == Shr(n.id, n.nonNodeBits) }

  /** The bit that selects the direction: `31 - countLeadingZeros(diff)`. */
  function DirectionBit(n: Node, dest: nat): nat
    requires !Matches(n, dest)
  {
    n.nonNodeBits + HighestDifference(Shr(dest, n.nonNodeBits), Shr(n.id, n.nonNodeBits))
  }

  lemma DirectionBitInTable(n: Node, dest: nat)
    requires !Matches(n, dest) && n.id < ID_LIMIT && dest < ID_LIMIT && n.nonNodeBits <= 16
    ensures DirectionBit(n, dest) < 16
  {
    IdLimit();
    ShrBelow(dest, n.nonNodeBits, 16);
    ShrBelow(n.id, n.nonNodeBits, 16);
    HighestDifferenceIs(Shr(dest, n.nonNodeBits), Shr(n.id, n.nonNodeBits), 16 - n.nonNodeBits);
  }

  /** `getXLinkForDirection`: the first enabled link with the direction. */
  method GetXLinkForDirection(links: seq<XLink>, direction: nat) returns (r: Option<nat>)
    ensures r == FirstLink(links, direction, 0)
    ensures r.Some? ==> r.value < |links| && links[r.value].enabled && links[r.value].direction == direction
    ensures forall k | 0 <= k < (if r.Some? then r.value else |links|) ::
      !(links[k].enabled && links[k].direction == direction)
  {
    for i := 0 to |links|
      invariant FirstLink(links, direction, 0) == FirstLink(links, direction, i)
      invariant forall k | 0 <= k < i :: !(links[k].enabled && links[k].direction == direction)
    {
      if links[i].enabled && links[i].direction == direction { return Some(i); }
    }
    return None;
  }

  function FirstLink(links: seq<XLink>, direction: nat, from: nat): (r: Option<nat>)
    requires from <= |links|
    ensures r.Some? ==> r.value < |links|
    decreases |links| - from
  {
    if from == |links| then None
    else if links[from].enabled && links[from].direction == direction then Some(from)
    else FirstLink(links, direction, from + 1)
  }

  /** `isConnected`: both ends enabled and of the same kind. */
  predicate Connected(net: Network, l: XLink)
    requires l.dest.Some? ==> l.dest.value.node < |net| && l.dest.value.link < |net[l.dest.value.node].xLinks|
  {
    l.enabled && l.dest.Some? &&
    var other := net[l.dest.value.node].xLinks[l.dest.value.link];
    other.enabled && l.fiveWire == other.fiveWire
  }

  /** What a packet for `dest` does at node n. */
  function NextHop(net: Network, n: nat, dest: nat): (h: Hop)
    requires ValidNetwork(net) && n < |net| && dest < ID_LIMIT
    ensures h.To? ==> h.node < |net|
  {
    if Matches(net[n], dest) then Arrived
    else
      DirectionBitInTable(net[n], dest);
      var link := FirstLink(net[n].xLinks, net[n].directions[DirectionBit(net[n], dest)], 0);
      if link.None? || !Connected(net, net[n].xLinks[link.value]) then Lost
      else To(net[n].xLinks[link.value].dest.value.node)
  }

  /** Where a packet for `dest` goes next, for every node. */
  function HopTable(net: Network, dest: nat): (t: Hops)
    requires ValidNetwork(net) && dest < ID_LIMIT
    ensures |t| == |net| && ValidHops(t)
  {
    seq(|net|, n requires 0 <= n < |net| => NextHop(net, n, dest))
  }

  // ---- Which link a packet takes ----

  /** The node bit by which the destination differs from the node, all higher bits being the same. */
  predicate Selects(n: Node, dest: nat, bit: nat) {
    && n.nonNodeBits <= bit < 16
    && Shr(dest, bit) % 2 != Shr(n.id, bit) % 2 && Shr(dest, bit + 1) == Shr(n.id, bit + 1)
  }

  /** The first of the enabled links with the direction. */
  predicate IsFirst(links: seq<XLink>, direction: nat, link: nat) {
    && link < |links| && links[link].enabled && links[link].direction == direction
    && forall k | 0 <= k < link :: !(links[k].enabled && links[k].direction == direction)
  }

  /** A packet for `dest` goes from n over the link to m: it is the first link in the direction of the selecting bit,
      the other end is enabled too, both are five-wire links or neither is, and the other end is at m. */
  predicate Leads(net: Network, n: nat, dest: nat, bit: nat, link: nat, m: nat)
    requires ValidNetwork(net) && n < |net|
  {
    && Selects(net[n], dest, bit) && IsFirst(net[n].xLinks, net[n].directions[bit], link)
    && net[n].xLinks[link].dest.Some?
    && var e := net[n].xLinks[link].dest.value;
       && e.node == m && net[m].xLinks[e.link].enabled
       && net[m].xLinks[e.link].fiveWire == net[n].xLinks[link].fiveWire
  }

  ghost predicate Goes(net: Network, n: nat, dest: nat, m: nat)
    requires ValidNetwork(net) && n < |net|
  {
    exists bit, link :: Leads(net, n, dest, bit, link, m)
  }

  lemma {:induction false} ShrTwice(x: nat, m: nat, n: nat)
    ensures Shr(Shr(x, m), n) == Shr(x, m + n)
    decreases m
  {
    if m != 0 { ShrTwice(x / 2, m - 1, n); }
  }

  lemma DirectionBitSelects(n: Node, dest: nat)
    requires !Matches(n, dest) && n.id < ID_LIMIT && dest < ID_LIMIT && n.nonNodeBits <= 16
    ensures Selects(n, dest, DirectionBit(n, dest))
  {
    DirectionBitInTable(n, dest);
    DifferenceShifted(dest, n.id, n.nonNodeBits);
  }

  lemma DifferenceShifted(a: nat, b: nat, low: nat)
    requires Shr(a, low) != Shr(b, low)
    ensures var bit := low + HighestDifference(Shr(a, low), Shr(b, low));
      Shr(a, bit) % 2 != Shr(b, bit) % 2 && Shr(a, bit + 1) == Shr(b, bit + 1)
  {
    var h := HighestDifference(Shr(a, low), Shr(b, low));
    HighestDifferenceIs(Shr(a, low), Shr(b, low), 0);
    ShrTwice(a, low, h);
    ShrTwice(b, low, h);
    ShrTwice(a, low, h + 1);
    ShrTwice(b, low, h + 1);
  }

  /** No two bits select. */
  lemma SelectsOne(n: Node, dest: nat, a: nat, b: nat)
    requires Selects(n, dest, a) && Selects(n, dest, b)
    ensures a == b
  {
    if a < b {
      ShrTwice(dest, a + 1, b - (a + 1));
      ShrTwice(n.id, a + 1, b - (a + 1));
    } else if b < a {
      ShrTwice(dest, b + 1, a - (b + 1));
      ShrTwice(n.id, b + 1, a - (b + 1));
    }
  }

  /** A node that matches selects no bit. */
  lemma MatchSelectsNone(n: Node, dest: nat, bit: nat)
    requires Selects(n, dest, bit)
    ensures !Matches(n, dest)
  {
    ShrTwice(dest, n.nonNodeBits, bit - n.nonNodeBits);
    ShrTwice(n.id, n.nonNodeBits, bit - n.nonNodeBits);
  }

  lemma {:induction false} FirstLinkIs(links: seq<XLink>, direction: nat, from: nat)
    requires from <= |links| && forall k | 0 <= k < from :: !(links[k].enabled && links[k].direction == direction)
    ensures var r := FirstLink(links, direction, from);
      forall l: nat :: IsFirst(links, direction, l) <==> r == Some(l)
    decreases |links| - from
  {
    if from < |links| && !(links[from].enabled && links[from].direction == direction) {
      FirstLinkIs(links, direction, from + 1);
    }
  }

  /** A packet for `dest` goes on from n to m exactly if a link leads it there, and is lost exactly if none leads it
      anywhere and n does not match. */
  lemma NextHopIs(net: Network, n: nat, dest: nat)
    requires ValidNetwork(net) && n < |net| && dest < ID_LIMIT
    ensures var h := NextHop(net, n, dest);
      && (h.Arrived? <==> Matches(net[n], dest))
      && (forall m: nat :: Goes(net, n, dest, m) <==> h == To(m))
  {
    forall m: nat ensures Goes(net, n, dest, m) <==> NextHop(net, n, dest) == To(m) { GoesIs(net, n, dest, m); }
  }

  lemma GoesIs(net: Network, n: nat, dest: nat, m: nat)
    requires ValidNetwork(net) && n < |net| && dest < ID_LIMIT
    ensures Goes(net, n, dest, m) <==> NextHop(net, n, dest) == To(m)
  {
    var node := net[n];
    if !Matches(node, dest) {
      var bit := DirectionBit(node, dest);
      DirectionBitSelects(node, dest);
      FirstLinkIs(node.xLinks, node.directions[bit], 0);
      if NextHop(net, n, dest) == To(m) {
        var link := FirstLink(node.xLinks, node.directions[bit], 0).value;
        assert Leads(net, n, dest, bit, link, m);
      }
    }
    if Goes(net, n, dest, m) {
      var b, l :| Leads(net, n, dest, b, l, m);
      MatchSelectsNone(node, dest, b);
      SelectsOne(node, dest, b, DirectionBit(node, dest));
    }
  }

  /** One turn of the routing loop: look up the direction and the link. */
  method FindHop(net: Network, n: nat, dest: nat) returns (h: Hop)
    requires ValidNetwork(net) && n < |net| && dest < ID_LIMIT
    ensures h == HopTable(net, dest)[n]
    ensures h.Arrived? <==> Matches(net[n], dest)
    ensures forall m: nat :: Goes(net, n, dest, m) <==> h == To(m)
    ensures h.Lost? <==> !Matches(net[n], dest) && forall m: nat :: !Goes(net, n, dest, m)
  {
    NextHopIs(net, n, dest);
    if Matches(net[n], dest) { return Arrived; }
    DirectionBitInTable(net[n], dest);
    var direction := net[n].directions[DirectionBit(net[n], dest)];
    var link := GetXLinkForDirection(net[n].xLinks, direction);
    if link.None? || !Connected(net, net[n].xLinks[link.value]) { return Lost; }
    return To(net[n].xLinks[link.value].dest.value.node);
  }

  // ---- The way of a packet ----

  /** Nodes that a packet for `dest` goes through one after the other, over links that lead it. */
  ghost predicate IsWay(net: Network, dest: nat, way: seq<nat>)
    requires ValidNetwork(net)
  {
    && way != [] && (forall i | 0 <= i < |way| :: way[i] < |net|)
    && forall i | 0 < i < |way| :: Goes(net, way[i - 1], dest, way[i])
  }

  lemma {:induction false} WayIsWalk(net: Network, dest: nat, way: seq<nat>, k: nat)
    requires ValidNetwork(net) && dest < ID_LIMIT && IsWay(net, dest, way) && k < |way|
    ensures Walk(HopTable(net, dest), way[0], k) == Some(way[k])
    decreases k
  {
    if k != 0 {
      WayIsWalk(net, dest, way, k - 1);
      NextHopIs(net, way[k - 1], dest);
    }
  }

  lemma {:induction false} WalkIsWay(net: Network, dest: nat, start: nat, k: nat) returns (way: seq<nat>)
    requires ValidNetwork(net) && dest < ID_LIMIT && start < |net| && Walk(HopTable(net, dest), start, k).Some?
    ensures IsWay(net, dest, way) && |way| == k + 1 && way[0] == start
    ensures way[k] == Walk(HopTable(net, dest), start, k).value
    decreases k
  {
    if k == 0 {
      way := [start];
    } else {
      var before := WalkIsWay(net, dest, start, k - 1);
      NextHopIs(net, before[k - 1], dest);
      way := OneMore(net, dest, before, Walk(HopTable(net, dest), start, k).value);
    }
  }

  lemma OneMore(net: Network, dest: nat, way: seq<nat>, next: nat) returns (longer: seq<nat>)
    requires ValidNetwork(net) && IsWay(net, dest, way) && next < |net| && Goes(net, way[|way| - 1], dest, next)
    ensures longer == way + [next] && IsWay(net, dest, longer)
  {
    longer := way + [next];
  }

  /** The node found matches and there is a way to it with as many hops; if none is found, no way from the start,
      however long, leads to a node that matches. */
  ghost predicate Routed(net: Network, start: nat, dest: nat, r: Option<nat>, hops: nat)
    requires ValidNetwork(net)
  {
    match r
    case Some(n) =>
      && n < |net| && Matches(net[n], dest)
      && exists way :: IsWay(net, dest, way) && |way| == hops + 1 && way[0] == start && way[hops] == n
    case None =>
      forall way | IsWay(net, dest, way) && way[0] == start :: !Matches(net[way[|way| - 1]], dest)
  }

  lemma AnswersRoute(net: Network, start: nat, dest: nat, r: Option<nat>, hops: nat)
    requires ValidNetwork(net) && start < |net| && dest < ID_LIMIT && Answers(HopTable(net, dest), start, r, hops)
    ensures Routed(net, start, dest, r, hops)
  {
    match r
    case Some(n) =>
      NextHopIs(net, n, dest);
      var way := WalkIsWay(net, dest, start, hops);
    case None =>
      forall way | IsWay(net, dest, way) && way[0] == start ensures !Matches(net[way[|way| - 1]], dest) {
        WayIsWalk(net, dest, way, |way| - 1);
        NextHopIs(net, way[|way| - 1], dest);
        assert !ArrivesAfter(HopTable(net, dest), start, |way| - 1);
      }
  }

  /** `getIncomingChanendDest` up to the node: follow the hops until the destination, a dead end or a cycle.
      The node found is the one the unbounded walk arrives at; none is found exactly when that walk never arrives;
      and the loop makes no more than 3N + 8 hops in a network of N nodes. */
  method Route(net: Network, start: nat, dest: nat) returns (r: Option<nat>, hops: nat)
    requires ValidNetwork(net) && start < |net| && dest < ID_LIMIT
    ensures Answers(HopTable(net, dest), start, r, hops)
    ensures Routed(net, start, dest, r, hops) && hops <= 3 * |net| + 8
  {
    ghost var t := HopTable(net, dest);
    var node, tortoise, leapCount: nat := start, start, 8;
    hops := 0;
    ghost var tail, period := SetOff(t, start);
    ghost var chase := Chase(start, start, 0, 0, 8);
    while true
      invariant Following(t, start, chase, tail, period)
      invariant node == chase.node && tortoise == chase.tortoise && hops == chase.hops && leapCount == chase.leapCount
      decreases 3 * |net| + 8 - hops
    {
      Turn(t, start, chase, tail, period);
      var hop := FindHop(net, node, dest);
      if hop.Arrived? {
        AnswersRoute(net, start, dest, Some(node), hops);
        return Some(node), hops;
      }
      if hop.Lost? {
        AnswersRoute(net, start, dest, None, hops);
        return None, hops;
      }
      node := hop.node;
      hops := hops + 1;
      if node == tortoise {
        AnswersRoute(net, start, dest, None, hops);
        return None, hops;
      }
      chase := Onward(chase, node);
      if hops == leapCount {
        leapCount := 2 * leapCount;
        tortoise := node;
      }
    }
  }
}
