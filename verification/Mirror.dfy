/** reconcileNodeIPAndNodePort: each half of a gateway pair copies its node data into the other half. */
module Mirror {

  datatype NodeData = NodeData(ip: string, ips: seq<string>, port: int, ports: seq<int>, loadBalancerIps: seq<string>)

  /** One gateway object: its own node data and its copy of the other side's. */
  datatype Half = Half(server: bool, local: NodeData, remote: NodeData)

  /** Two gateways that name each other. */
  datatype Pair = Pair(left: Half, right: Half)

  /** Whether the data of one half differs from the copy in the other; load balancer addresses count for servers only. */
  predicate Differs(from: Half, to: Half) {
    || from.local.ips != to.remote.ips
    || from.local.ip != to.remote.ip
    || from.local.port != to.remote.port
    || from.local.ports != to.remote.ports
    || (from.server && from.local.loadBalancerIps != to.remote.loadBalancerIps)
  }

  /** The copy holds what it is compared on. */
  predicate Agrees(from: Half, to: Half) {
    && to.remote.ip == from.local.ip && to.remote.ips == from.local.ips
    && to.remote.port == from.local.port && to.remote.ports == from.local.ports
    && (from.server ==> to.remote.loadBalancerIps == from.local.loadBalancerIps)
  }

  function Other(p: Pair, left: bool): Pair {
    if left then p else Pair(p.right, p.left)
  }

  /** A reconcile of one half. */
  function Mirrored(p: Pair, left: bool): Pair {
    var q := Other(p, left);
    if Differs(q.left, q.right) then Other(q.(right := q.right.(remote := q.left.local)), left) else p
  }

  predicate Writes(p: Pair, left: bool) {
    Differs(Other(p, left).left, Other(p, left).right)
  }

  class GatewayPair {
    var left: Half
    var right: Half

    constructor (left: Half, right: Half)
      ensures this.left == left && this.right == right
    {
      this.left, this.right := left, right;
    }

    /** found tells whether the other gateway exists when it is looked up. */
    method ReconcileNodeIPAndNodePort(fromLeft: bool, found: bool) returns (wrote: bool)
      modifies this
      ensures found ==> Pair(left, right) == Mirrored(Pair(old(left), old(right)), fromLeft)
      ensures wrote == (found && Writes(Pair(old(left), old(right)), fromLeft))
      ensures var here, there := if fromLeft then old(left) else old(right), if fromLeft then old(right) else old(left);
        && (if fromLeft then left else right) == here
        && (if fromLeft then right else left) == (if wrote then there.(remote := here.local) else there)
        && (wrote <==> found && !Agrees(here, there))
    {
      wrote := false;
      if !found { return; }
      var here, there := if fromLeft then left else right, if fromLeft then right else left;
      wrote := Differs(here, there);
      if wrote {
        there := there.(remote := there.remote.(ip := here.local.ip, ips := here.local.ips));
        there := there.(remote := there.remote.(port := here.local.port, ports := here.local.ports));
        there := there.(remote := there.remote.(loadBalancerIps := here.local.loadBalancerIps));
        if fromLeft { right := there; } else { left := there; }
      }
    }
  }

  /** The number of halves whose data the other has wrong. */
  function Gap(p: Pair): nat {
    (if Writes(p, true) then 1 else 0) + (if Writes(p, false) then 1 else 0)
  }

  /** A write removes exactly one mismatch and touches no local data. */
  lemma WriteClosesGap(p: Pair, left: bool)
    ensures Gap(Mirrored(p, left)) == Gap(p) - if Writes(p, left) then 1 else 0
    ensures !Writes(Mirrored(p, left), left)
    ensures Mirrored(p, left).left.local == p.left.local && Mirrored(p, left).right.local == p.right.local
  {
  }

  function After(p: Pair, turns: seq<bool>): Pair {
    if turns == [] then p else Mirrored(After(p, turns[..|turns| - 1]), turns[|turns| - 1])
  }

  function WriteCount(p: Pair, turns: seq<bool>): nat {
    if turns == [] then 0
    else
      var front, turn := turns[..|turns| - 1], turns[|turns| - 1];
      WriteCount(p, front) + if Writes(After(p, front), turn) then 1 else 0
  }

  /** Under any interleaving the writes so far and the mismatches left add up to the mismatches at first, at most two;
      once both halves have had a turn, each copy is right. */
  lemma {:induction false} MirroringConverges(p: Pair, turns: seq<bool>)
    ensures WriteCount(p, turns) + Gap(After(p, turns)) == Gap(p) <= 2
    ensures forall turn :: turn in turns ==> !Writes(After(p, turns), turn)
    ensures true in turns && false in turns ==>
      Agrees(p.left, After(p, turns).right) && Agrees(p.right, After(p, turns).left)
  {
    LocalDataStays(p, turns);
    if turns != [] {
      var front, turn := turns[..|turns| - 1], turns[|turns| - 1];
      MirroringConverges(p, front);
      WriteClosesGap(After(p, front), turn);
      assert turns == front + [turn];
    }
  }

  lemma {:induction false} LocalDataStays(p: Pair, turns: seq<bool>)
    ensures After(p, turns).left.local == p.left.local && After(p, turns).right.local == p.right.local
    ensures After(p, turns).left.server == p.left.server && After(p, turns).right.server == p.right.server
  {
    if turns != [] { LocalDataStays(p, turns[..|turns| - 1]); }
  }
}
