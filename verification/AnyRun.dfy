/** Gateways over every run, whenever the cluster list changes: what becomes of one gateway, when its blocks are right, and
    when a pass succeeds. */
module AnyRun {
  import opened Text
  import opened Sequences
  import opened IpText
  import opened Pools
  import opened Ipam
  import opened OwnerLabel
  import opened GatewayNumber
  import opened SliceStore
  import opened Mesh
  import opened Mending
  import opened SliceRun

  // ----- What every gateway of every run is -----

  /** A gateway of the pair k as built when its clusters held the indexes x and y. */
  ghost predicate BuiltAt(s: Slice, k: GatewayKey, g: Gateway, x: int, y: int) {
    && x != y && 0 <= x < s.maxClusters && 0 <= y < s.maxClusters
    && g == MakeAt(s, k.0, k.1, g.role, x, y)
  }

  ghost predicate GatewaysBuilt(s: Slice, gws: Gateways) {
    forall k :: k in gws ==> k.0 != k.1 && exists x, y :: BuiltAt(s, k, gws[k], x, y)
  }

  /** What every moment of every run keeps. */
  ghost predicate Consistent(s: Slice, st: State) {
    Allocated(s, st.configs) && Admitted(s, st.clusters) && GatewaysBuilt(s, st.gws) && st.GatewayStore().Marked()
  }

  /** No config of a cluster that left is kept by a finalizer: deletions complete at once, or are completed. */
  predicate Released(st: State) {
    forall c :: c in st.configs && c !in st.clusters ==> !st.configs[c].held
  }

  /** What the clean-up of a pass leaves. */
  function Kept(s: Slice, st: State, cm: map<string, int>): Gateways {
    Cleaned(st.gws, st.clusters, cm, Selector(s, LastNew(st)), st.held)
  }

  /** The last cluster whose config a pass creates. */
  function LastNew(st: State): Option<string> {
    LastCreated(CleanUp(st.configs, st.clusters), st.clusters)
  }

  /** The gateway step is a clean-up and one walk through the pairs. */
  lemma PassIsList(s: Slice, g: Gateways, clusters: seq<string>, cm: map<string, int>,
                   selector: Labels, held: set<GatewayKey>, registered: set<string>)
    ensures GatewayPass(s, g, clusters, cm, selector, held, registered) ==
            var g' := Cleaned(g, clusters, cm, selector, held);
            if Names(clusters) <= registered then AddList(g', Order(clusters), BuilderOf(s, cm)) else Outcome(g', true)
  {
    AddAllIsList(Cleaned(g, clusters, cm, selector, held), clusters, BuilderOf(s, cm));
    if |clusters| == 1 { assert clusters[1..] == []; }
  }

  /** A walk through the pairs of the clusters adds gateways as built now. */
  lemma WalkGrows(s: Slice, g: Gateways, clusters: seq<string>, cm: map<string, int>)
    requires NoDup(clusters)
    ensures Grows(g, AddList(g, Order(clusters), BuilderOf(s, cm)).gws, Order(clusters), BuilderOf(s, cm))
  {
    OrderFacts(clusters);
    BuilderKeepsRole(s, cm);
    AddListBuilt(g, Order(clusters), BuilderOf(s, cm));
  }

  /** What a completing pass does to the gateways: clean up, then create. */
  lemma PassSteps(s: Slice, st: State, l: seq<Listed>, registered: set<string>)
    requires Admitted(s, st.clusters) && Completes(st.clusters, l)
    ensures var cm, st' := ClusterMap(st.clusters, l).value, Apply(s, st, Pass(l, registered));
      && Grows(Kept(s, st, cm), st'.gws, Order(st.clusters), BuilderOf(s, cm))
      && st'.dying == st.dying + Doomed(st.gws, st.clusters, cm, Selector(s, LastNew(st))) * st.held
  {
    var cm := ClusterMap(st.clusters, l).value;
    PassIsList(s, st.gws, st.clusters, cm, Selector(s, LastNew(st)), st.held, registered);
    WalkGrows(s, Kept(s, st, cm), st.clusters, cm);
  }

  lemma NewGatewayBuilt(s: Slice, clusters: seq<string>, cm: map<string, int>, k: GatewayKey, g: Gateway)
    requires NoDup(clusters) && Names(clusters) <= cm.Keys && Injective(cm)
    requires forall c :: c in cm ==> 0 <= cm[c] < s.maxClusters
    requires k in Order(clusters) || Rev(k) in Order(clusters)
    requires g == BuilderOf(s, cm)(k.0, k.1, g.role)
    ensures k.0 in clusters && k.1 in clusters && k.0 != k.1 && k.0 in cm && k.1 in cm
    ensures BuiltAt(s, k, g, cm[k.0], cm[k.1])
  {
    OrderFacts(clusters);
    assert k in PairsOf(clusters) || Rev(k) in PairsOf(clusters);
    assert k.0 in Names(clusters) && k.1 in Names(clusters);
  }

  lemma PassConsistent(s: Slice, st: State, l: seq<Listed>, registered: set<string>)
    requires Consistent(s, st) && Enabled(s, st, Pass(l, registered)) && Completes(st.clusters, l)
    ensures GatewaysBuilt(s, Apply(s, st, Pass(l, registered)).gws)
    ensures Apply(s, st, Pass(l, registered)).GatewayStore().Marked()
  {
    var cm, r := ClusterMap(st.clusters, l).value, Apply(s, st, Pass(l, registered)).gws;
    CleanUpAllocated(s, st.configs, st.clusters);
    PassComputes(s, CleanUp(st.configs, st.clusters), st.clusters, l);
    PassSteps(s, st, l, registered);
    var g := Kept(s, st, cm);
    assert forall k :: k in g ==> k in r && r[k] == g[k];
    assert st.held <= g.Keys;
    forall k | k in r ensures k.0 != k.1 && exists x, y :: BuiltAt(s, k, r[k], x, y) {
      if k in g {
        assert k in st.gws && r[k] == st.gws[k];
      } else {
        NewGatewayBuilt(s, st.clusters, cm, k, r[k]);
      }
    }
  }

  lemma StepConsistent(s: Slice, st: State, e: Event)
    requires Consistent(s, st) && Enabled(s, st, e)
    ensures Consistent(s, Apply(s, st, e))
  {
    StepAllocates(s, st, e);
    if e.Pass? && Completes(st.clusters, e.l) { PassConsistent(s, st, e.l, e.registered); }
    if e.Turn? { TurnedFacts(st.GatewayStore(), st.clusters, e.gateway); }
  }

  lemma {:induction false} FromConsistent(s: Slice, st: State, es: seq<Event>)
    requires Consistent(s, st) && IsRun(s, st, es)
    ensures Consistent(s, After(s, st, es))
  {
    if es != [] {
      FromConsistent(s, st, es[..|es| - 1]);
      StepConsistent(s, After(s, st, es[..|es| - 1]), es[|es| - 1]);
    }
  }

  /** Over every run each gateway was built from two different indexes below maxClusters. */
  lemma RunConsistent(s: Slice, clusters: seq<string>, es: seq<Event>)
    requires Admitted(s, clusters) && IsRun(s, Created(clusters), es)
    ensures Consistent(s, After(s, Created(clusters), es))
  {
    FromConsistent(s, Created(clusters), es);
  }

  // ----- The fate of one gateway -----

  /** Whether the clean-up lists the gateway: always, unless the pass created a config for another cluster last. */
  predicate ListedBy(created: Option<string>, k: GatewayKey) {
    created.None? || created.value == k.0
  }

  predicate BothPresent(clusters: seq<string>, k: GatewayKey) {
    k.0 in clusters && k.1 in clusters
  }

  /** Both clusters are present and the number is the one computed now. */
  predicate Suits(st: State, cm: map<string, int>, k: GatewayKey) {
    && k in st.gws && BothPresent(st.clusters, k)
    && st.gws[k].number == Number(IndexOf(cm, k.0), IndexOf(cm, k.1))
  }

  /** The clean-up deletes a gateway that it lists and that does not suit. */
  predicate Deleted(st: State, cm: map<string, int>, k: GatewayKey) {
    k in st.gws && ListedBy(LastNew(st), k) && !Suits(st, cm, k)
  }

  /** It still exists after that: it was not deleted, or a finalizer holds it. */
  predicate Survives(st: State, cm: map<string, int>, k: GatewayKey) {
    k in st.gws && (Deleted(st, cm, k) ==> k in st.held)
  }

  lemma CleanedSurvives(s: Slice, st: State, cm: map<string, int>, k: GatewayKey)
    requires GatewaysBuilt(s, st.gws) && OwnerClear(s.owner)
    ensures k in Doomed(st.gws, st.clusters, cm, Selector(s, LastNew(st))) <==> Deleted(st, cm, k)
    ensures k in Kept(s, st, cm) <==> Survives(st, cm, k)
  {
    if k in st.gws {
      var x, y :| BuiltAt(s, k, st.gws[k], x, y);
      NarrowedList(s, LastNew(st), k.0, k.1);
    }
  }

  /** A pass keeps a surviving gateway as it is, terminating from now on if it was deleted; one that does not survive is
      gone, or rebuilt from present indexes, live and without a finalizer. */
  lemma GatewayFate(s: Slice, st: State, l: seq<Listed>, registered: set<string>, k: GatewayKey)
    requires Consistent(s, st) && OwnerClear(s.owner) && Enabled(s, st, Pass(l, registered)) && Completes(st.clusters, l)
    ensures var cm, st' := ClusterMap(st.clusters, l).value, Apply(s, st, Pass(l, registered));
      && (Survives(st, cm, k) ==>
          k in st'.gws && st'.gws[k] == st.gws[k] && (k in st'.dying <==> k in st.dying || Deleted(st, cm, k)))
      && (!Survives(st, cm, k) && k in st'.gws ==>
          && BothPresent(st.clusters, k) && k.0 in cm && k.1 in cm && BuiltAt(s, k, st'.gws[k], cm[k.0], cm[k.1])
          && k !in st'.dying && k !in st'.held)
  {
    var cm, r := ClusterMap(st.clusters, l).value, Apply(s, st, Pass(l, registered)).gws;
    CleanUpAllocated(s, st.configs, st.clusters);
    PassComputes(s, CleanUp(st.configs, st.clusters), st.clusters, l);
    PassSteps(s, st, l, registered);
    CleanedSurvives(s, st, cm, k);
    if k in r && !Survives(st, cm, k) { NewGatewayBuilt(s, st.clusters, cm, k, r[k]); }
  }

  /** A pass that creates a config deletes exactly the gateways of the last created cluster that lost the other cluster or
      changed their number. */
  lemma CreatingPassRemoves(s: Slice, st: State, cm: map<string, int>, c: string, k: GatewayKey)
    requires Consistent(s, st) && OwnerClear(s.owner) && LastMissing(st.configs, st.clusters, c) && k in st.gws
    ensures LastNew(st) == Some(c)
    ensures k in Doomed(st.gws, st.clusters, cm, Selector(s, LastNew(st))) <==>
      && k.0 == c
      && !(BothPresent(st.clusters, k) && st.gws[k].number == Number(IndexOf(cm, k.0), IndexOf(cm, k.1)))
  {
    LastNewIsLast(st, c);
    CleanedSurvives(s, st, cm, k);
  }

  /** The clean-up keeps the configs of listed clusters. */
  lemma LastNewIsLast(st: State, c: string)
    ensures LastNew(st) == Some(c) <==> LastMissing(st.configs, st.clusters, c)
    ensures LastNew(st).None? <==> Names(st.clusters) <= st.configs.Keys
  {
    var base := CleanUp(st.configs, st.clusters);
    LastCreatedFacts(base, st.clusters);
    forall d | d in st.clusters ensures d in base <==> d in st.configs {}
    forall i | 0 <= i < |st.clusters|
      ensures st.clusters[i] in st.clusters && (Names(st.clusters[i + 1..]) <= base.Keys <==> Names(st.clusters[i + 1..]) <= st.configs.Keys)
    {
      assert forall d :: d in Names(st.clusters[i + 1..]) ==> d in st.clusters;
    }
  }

  /** The gateway has the blocks of its clusters' configs. */
  predicate BlocksRight(st: State, k: GatewayKey)
    requires k in st.gws
  {
    && k.0 in st.configs && st.gws[k].local.subnet == st.configs[k.0].cidr
    && k.1 in st.configs && st.gws[k].remote.subnet == st.configs[k.1].cidr
  }

  /** Different indexes have different block texts. */
  lemma PoolsDiffer(s: Slice, i: int, j: int)
    requires s.Valid() && ':' !in s.subnet && 0 <= i < s.maxClusters && 0 <= j < s.maxClusters
    ensures s.pool(i) == s.pool(j) <==> i == j
  {
    if i != j {
      IndexBlock(s, i, s.Prefix());
      IndexBlock(s, j, s.Prefix());
      PoolsInsideAndDisjoint(s.subnet, i, j, s.Prefix());
      var n := Pool(s.subnet, i, s.Prefix());
      assert InRange(n, Base(n));
    }
  }

  /** The blocks are right exactly when the gateway was built from the indexes its clusters hold now. */
  lemma BlocksRightExactly(s: Slice, st: State, k: GatewayKey, x: nat, y: nat)
    requires s.Valid() && ':' !in s.subnet && Allocated(s, st.configs)
    requires k in st.gws && BuiltAt(s, k, st.gws[k], x, y) && k.0 in st.configs && k.1 in st.configs
    ensures BlocksRight(st, k) <==> st.configs[k.0].octet == Some(x) && st.configs[k.1].octet == Some(y)
  {
    PoolsDiffer(s, x, st.configs[k.0].octet.value);
    PoolsDiffer(s, y, st.configs[k.1].octet.value);
  }

  /** A gateway between present clusters is live with wrong blocks after a pass exactly when it was live before, built from
      other indexes than they hold now, and the clean-up did not list it, or its number missed the change. */
  lemma StaleExactly(s: Slice, st: State, l: seq<Listed>, registered: set<string>, k: GatewayKey, x: nat, y: nat)
    requires s.Valid() && ':' !in s.subnet && Consistent(s, st)
    requires Enabled(s, st, Pass(l, registered)) && Completes(st.clusters, l)
    requires k in st.gws && BuiltAt(s, k, st.gws[k], x, y) && BothPresent(st.clusters, k)
    ensures var cm, st' := ClusterMap(st.clusters, l).value, Apply(s, st, Pass(l, registered));
      && k.0 in cm && cm[k.0] >= 0 && k.1 in cm && cm[k.1] >= 0
      && (k in st'.gws && k !in st'.dying && !BlocksRight(st', k) <==>
          && k !in st.dying && (x, y) != (cm[k.0], cm[k.1])
          && (!ListedBy(LastNew(st), k) || Confused(x, y, cm[k.0], cm[k.1])))
  {
    var cm, st' := ClusterMap(st.clusters, l).value, Apply(s, st, Pass(l, registered));
    ValidOwner(s);
    PassOctets(s, st, l, registered, k);
    GatewayFate(s, st, l, registered, k);
    var u, v := cm[k.0], cm[k.1];
    if (x, y) != (u, v) { MissedChange(x, y, u, v); }
    if Survives(st, cm, k) {
      BlocksRightExactly(s, st', k, x, y);
    } else if k in st'.gws {
      BlocksRightExactly(s, st', k, u, v);
    }
  }

  /** So at any moment of any run, for any gateway between present clusters and the indexes it was built from. */
  lemma StaleInRun(s: Slice, clusters: seq<string>, es: seq<Event>, l: seq<Listed>, registered: set<string>, k: GatewayKey)
      returns (x: nat, y: nat)
    requires s.Valid() && ':' !in s.subnet && Admitted(s, clusters) && IsRun(s, Created(clusters), es)
    requires var st := After(s, Created(clusters), es);
      && Enabled(s, st, Pass(l, registered)) && Completes(st.clusters, l)
      && k in st.gws && BothPresent(st.clusters, k)
    ensures var st := After(s, Created(clusters), es);
      var cm, st' := ClusterMap(st.clusters, l).value, Apply(s, st, Pass(l, registered));
      && BuiltAt(s, k, st.gws[k], x, y) && k.0 in cm && cm[k.0] >= 0 && k.1 in cm && cm[k.1] >= 0
      && (k in st'.gws && k !in st'.dying && !BlocksRight(st', k) <==>
          && k !in st.dying && (x, y) != (cm[k.0], cm[k.1])
          && (!ListedBy(LastNew(st), k) || Confused(x, y, cm[k.0], cm[k.1])))
  {
    var st := After(s, Created(clusters), es);
    RunConsistent(s, clusters, es);
    x, y :| BuiltAt(s, k, st.gws[k], x, y);
    StaleExactly(s, st, l, registered, k, x, y);
  }

  /** Present clusters hold the computed indexes after a completing pass, different ones below maxClusters. */
  lemma PassOctets(s: Slice, st: State, l: seq<Listed>, registered: set<string>, k: GatewayKey)
    requires Consistent(s, st) && Enabled(s, st, Pass(l, registered)) && Completes(st.clusters, l)
    requires BothPresent(st.clusters, k) && k.0 != k.1
    ensures var cm, configs := ClusterMap(st.clusters, l).value, Apply(s, st, Pass(l, registered)).configs;
      && Allocated(s, configs) && k.0 in configs && k.1 in configs && k.0 in cm && k.1 in cm
      && configs[k.0].octet == Some(cm[k.0]) && configs[k.1].octet == Some(cm[k.1])
      && 0 <= cm[k.0] < s.maxClusters && 0 <= cm[k.1] < s.maxClusters && cm[k.0] != cm[k.1]
  {
    CleanUpAllocated(s, st.configs, st.clusters);
    PassComputes(s, CleanUp(st.configs, st.clusters), st.clusters, l);
    PassAllocates(s, st.configs, st.clusters, l);
    assert k.0 in Names(st.clusters) && k.1 in Names(st.clusters);
  }

  /** Key rotation recomputes the subnets of a server gateway as created exactly when it was built from the indexes that
      are computed now, a cluster without one counting as index 0. */
  lemma RotationExactly(s: Slice, st: State, l: seq<Listed>, k: GatewayKey, x: nat, y: nat)
    requires s.Valid() && ':' !in s.subnet && Consistent(s, st) && Enumerates(l, st.configs)
    requires ClusterMap(st.clusters, l).Some?
    requires k in st.gws && BuiltAt(s, k, st.gws[k], x, y)
    ensures var cm := ClusterMap(st.clusters, l).value;
      var i, j := if k.0 in cm then cm[k.0] else 0, if k.1 in cm then cm[k.1] else 0;
      var a := BuildNetworkAddresses(s.subnet, i, j, s.CidrText());
      && a.Some?
      && (a.value.serverSubnet == st.gws[k].local.subnet && a.value.clientSubnet == st.gws[k].remote.subnet <==>
          (x, y) == (i, j))
  {
    var cm := ClusterMap(st.clusters, l).value;
    PassComputes(s, st.configs, st.clusters, l);
    Addresses(s, IndexOf(cm, k.0), IndexOf(cm, k.1));
    PoolsDiffer(s, x, IndexOf(cm, k.0));
    PoolsDiffer(s, y, IndexOf(cm, k.1));
  }

  /** BuildNetworkAddresses of an admitted slice, in the texts that gateways are built from. */
  lemma Addresses(s: Slice, x: int, y: int)
    requires s.Valid()
    ensures var a := BuildNetworkAddresses(s.subnet, x, y, s.CidrText());
      && a.Some? && a.value.serverSubnet == s.pool(x) && a.value.clientSubnet == s.pool(y)
      && a.value.serverVpnAddress == s.serverVpn && a.value.clientVpnAddress == s.clientVpn
  {
  }

  /** Over every run the address texts of a gateway name the blocks of two different indexes, its own cluster's first, and
      the first two addresses of the VPN network, the server's first. */
  lemma RunAddresses(s: Slice, clusters: seq<string>, es: seq<Event>, k: GatewayKey) returns (x: nat, y: nat)
    requires s.Valid() && ':' !in s.subnet && Admitted(s, clusters) && IsRun(s, Created(clusters), es)
    requires k in After(s, Created(clusters), es).gws
    ensures ParseCidr(s.subnet).Some? && 17 <= s.Prefix() <= 24 && x != y && x < s.maxClusters && y < s.maxClusters
    ensures var g := After(s, Created(clusters), es).gws[k];
      && g.number == Number(x, y) && g.local.cluster == k.0 && g.remote.cluster == k.1
      && ParseCidr(g.local.subnet) == Some(Pool(s.subnet, x, s.Prefix()))
      && ParseCidr(g.remote.subnet) == Some(Pool(s.subnet, y, s.Prefix()))
      && IsVpnText(s.subnet, g.local.vpn, if g.role == Server then 1 else 2)
      && IsVpnText(s.subnet, g.remote.vpn, if g.role == Server then 2 else 1)
  {
    RunConsistent(s, clusters, es);
    var st := After(s, Created(clusters), es);
    x, y :| BuiltAt(s, k, st.gws[k], x, y);
    BuiltNames(s, k, st.gws[k], x, y);
  }

  lemma BuiltNames(s: Slice, k: GatewayKey, g: Gateway, x: nat, y: nat)
    requires s.Valid() && ':' !in s.subnet && BuiltAt(s, k, g, x, y)
    ensures ParseCidr(s.subnet).Some? && 17 <= s.Prefix() <= 24
    ensures ParseCidr(g.local.subnet) == Some(Pool(s.subnet, x, s.Prefix()))
    ensures ParseCidr(g.remote.subnet) == Some(Pool(s.subnet, y, s.Prefix()))
    ensures IsVpnText(s.subnet, g.local.vpn, if g.role == Server then 1 else 2)
    ensures IsVpnText(s.subnet, g.remote.vpn, if g.role == Server then 2 else 1)
  {
    IndexBlock(s, x, s.Prefix());
    IndexBlock(s, y, s.Prefix());
    VpnText(s.subnet, 1);
    VpnText(s.subnet, 2);
  }

  // ----- When a pass succeeds -----

  /** The gateway step of a pass reports success exactly when a cluster is not registered yet, or, of every two present
      clusters, both gateways exist after the clean-up or neither does. */
  lemma PassSucceeds(s: Slice, st: State, cm: map<string, int>, registered: set<string>)
    requires Consistent(s, st) && OwnerClear(s.owner)
    ensures GatewayPass(s, st.gws, st.clusters, cm, Selector(s, LastNew(st)), st.held, registered).ok <==>
      || !(Names(st.clusters) <= registered)
      || forall a, b :: a in st.clusters && b in st.clusters && a != b && Survives(st, cm, (a, b)) ==>
           Survives(st, cm, (b, a))
  {
    var g := Kept(s, st, cm);
    PassIsList(s, st.gws, st.clusters, cm, Selector(s, LastNew(st)), st.held, registered);
    AddAllIsList(g, st.clusters, BuilderOf(s, cm));
    AddAllSucceeds(g, st.clusters, BuilderOf(s, cm));
    forall k ensures k in g <==> Survives(st, cm, k) { CleanedSurvives(s, st, cm, k); }
  }
}
