/** Runs in which the cluster list changes only from a settled mesh: what every pass then keeps. */
module MeshRun {
  import opened Text
  import opened Sequences
  import opened Pools
  import opened Ipam
  import opened OwnerLabel
  import opened SliceStore
  import opened Mesh
  import opened Mending
  import opened SliceRun
  import opened AnyRun

  /** The gateways that are not being deleted. */
  function Live(st: State): Gateways {
    st.gws - st.dying
  }

  /** The configs are exactly the clusters', none being deleted, and the live gateways their exact mesh. */
  ghost predicate Meshed(s: Slice, st: State) {
    && st.configs.Keys == Names(st.clusters)
    && (forall c :: c in st.configs ==> !st.configs[c].terminating)
    && Exact(s, Live(st), st.clusters, OctetMap(st.configs))
  }

  /** And no gateway is being deleted. */
  ghost predicate Settled(s: Slice, st: State) {
    Meshed(s, st) && st.dying == {}
  }

  /** A gateway of the pair k as built from the octets o. */
  ghost predicate BuiltFrom(s: Slice, k: GatewayKey, g: Gateway, o: map<string, int>) {
    k.0 in o && k.1 in o && g == Make(s, k.0, k.1, g.role, o)
  }

  /** Staying clusters keep their configs and octets; every other config belongs to a cluster that stayed or left. */
  ghost predicate ConfigsKept(st: State) {
    && (forall c :: c in st.before && c in st.clusters ==> c in st.configs && st.configs[c].octet == Some(st.before[c]))
    && (forall c :: c in st.configs && c in st.clusters ==> !st.configs[c].terminating)
  }

  /** The other gateway of the pair is there, in the opposite role. */
  predicate Whole(g: Gateways, k: GatewayKey)
    requires k in g
  {
    k.0 != k.1 && Rev(k) in g && g[Rev(k)].role != g[k].role
  }

  predicate Present(st: State, k: GatewayKey) {
    k.0 in st.clusters && k.1 in st.clusters
  }

  /** The gateways of present pairs are whole and live. */
  predicate PairsWhole(st: State) {
    forall k :: k in st.gws && Present(st, k) ==> k !in st.dying && Whole(st.gws, k)
  }

  /** Every gateway is of the old mesh, or of the present clusters with their present octets. */
  ghost predicate GatewaysKept(s: Slice, st: State) {
    && st.GatewayStore().Marked() && PairsWhole(st)
    && forall k :: k in st.gws ==>
         || BuiltFrom(s, k, st.gws[k], st.before)
         || (Present(st, k) && BuiltFrom(s, k, st.gws[k], OctetMap(st.configs)))
  }

  /** The invariant of every moment between two settled ones. */
  ghost predicate Converging(s: Slice, st: State) {
    && Allocated(s, st.configs) && Admitted(s, st.clusters)
    && ConfigsKept(st) && GatewaysKept(s, st)
  }

  /** A gateway of two present clusters agrees with their present octets. */
  lemma PresentGateway(s: Slice, st: State, k: GatewayKey)
    requires Converging(s, st) && k in st.gws && k.0 in st.clusters && k.1 in st.clusters
    ensures BuiltFrom(s, k, st.gws[k], OctetMap(st.configs))
  {
    var o := OctetMap(st.configs);
    if BuiltFrom(s, k, st.gws[k], st.before) {
      assert k.0 in o && o[k.0] == st.before[k.0];
      assert k.1 in o && o[k.1] == st.before[k.1];
    }
  }

  /** The clusters of a gateway are those of its key. */
  lemma GatewayEnds(s: Slice, st: State, k: GatewayKey)
    requires GatewaysKept(s, st) && k in st.gws
    ensures st.gws[k].local.cluster == k.0 && st.gws[k].remote.cluster == k.1
    ensures st.gws[k].labels == GatewayLabels(s, k.0, k.1)
  {
  }

  /** A present cluster without a config has no gateway yet. */
  lemma NewcomerHasNone(s: Slice, st: State, c: string, k: GatewayKey)
    requires Converging(s, st) && k in st.gws && c in st.clusters && c !in st.configs
    ensures k.0 != c && k.1 != c
  {
  }

  /** The gateways of clusters that left. */
  function Outsiders(st: State): set<GatewayKey> {
    set k | k in st.gws && !Present(st, k)
  }

  /** What the clean-up of one pass deletes: nothing if the pass created a config, else all gateways of clusters that
      left. */
  lemma CleanedGateways(s: Slice, st: State, cm: map<string, int>)
    requires Converging(s, st) && OwnerClear(s.owner) && KeepsOctets(st, cm)
    ensures Doomed(st.gws, st.clusters, cm, Selector(s, LastNew(st))) == if LastNew(st).Some? then {} else Outsiders(st)
  {
    var base := CleanUp(st.configs, st.clusters);
    LastCreatedFacts(base, st.clusters);
    forall k | k in st.gws
      ensures Obsolete(st.gws[k], st.clusters, cm) <==> !Present(st, k)
      ensures Selects(Selector(s, LastNew(st)), st.gws[k].labels) <==> LastNew(st).None?
    {
      GatewayEnds(s, st, k);
      NarrowedList(s, LastNew(st), k.0, k.1);
      if Present(st, k) { PresentGateway(s, st, k); }
      if LastNew(st).Some? { NewcomerHasNone(s, st, LastNew(st).value, k); }
    }
  }

  /** The computed map keeps the octets of present clusters, and covers them all. */
  ghost predicate KeepsOctets(st: State, cm: map<string, int>) {
    && Names(st.clusters) <= cm.Keys
    && forall c :: c in st.configs && c in st.clusters ==> st.configs[c].octet == Some(cm[c])
  }

  /** The gateways after one completing pass: present pairs whole, as built now, and of the others what was there, all of
      it or only what a finalizer holds. */
  ghost predicate Passed(st: State, r: Gateways, everything: bool, build: Builder) {
    && (forall k :: k in st.gws && k in r ==> r[k] == st.gws[k])
    && (forall k :: k in st.gws && Present(st, k) ==> k in r)
    && (forall k :: k in r && Present(st, k) ==> Whole(r, k) && r[k] == build(k.0, k.1, r[k].role))
    && (forall k :: k in r && !Present(st, k) ==> k in st.gws)
    && (forall k :: k in st.gws && !Present(st, k) ==> (k in r <==> everything || k in st.held))
  }

  /** g is what the clean-up leaves. */
  ghost predicate CleanedUp(st: State, g: Gateways, everything: bool) {
    && (forall k :: k in g ==> k in st.gws && g[k] == st.gws[k])
    && (forall k :: k in st.gws ==> (k in g <==> Present(st, k) || everything || k in st.held))
  }

  lemma CleanedPasses(st: State, g: Gateways, everything: bool, build: Builder)
    requires PairsWhole(st) && CleanedUp(st, g, everything)
    requires forall k :: k in g && Present(st, k) ==> g[k] == build(k.0, k.1, g[k].role)
    ensures Passed(st, g, everything, build)
    ensures forall p :: Present(st, p) ==> !HalfThere(g, p)
  {
    forall k | k in g && Present(st, k) ensures Whole(g, k) { assert Present(st, Rev(k)); }
    forall p | Present(st, p) ensures !HalfThere(g, p) { assert Present(st, Rev(p)) && Rev(Rev(p)) == p; }
  }

  lemma WalkOk(st: State, g: Gateways, build: Builder)
    requires NoDup(st.clusters) && forall p :: Present(st, p) ==> !HalfThere(g, p)
    ensures AddList(g, Order(st.clusters), build).ok
  {
    var ps := Order(st.clusters);
    OrderFacts(st.clusters);
    forall p | p in ps ensures !HalfThere(g, p) { assert p in PairsOf(st.clusters) && Present(st, p); }
    FirstHalfNone(g, ps);
    AddListEffect(g, ps, build);
  }

  /** Creation makes the missing pairs of present clusters. */
  lemma WalkPairs(st: State, g: Gateways, build: Builder, k: GatewayKey)
    requires NoDup(st.clusters) && KeepsRole(build) && (forall p :: Present(st, p) ==> !HalfThere(g, p))
    requires forall j :: j in g && Present(st, j) ==> Whole(g, j) && g[j] == build(j.0, j.1, g[j].role)
    requires k in PairsOf(st.clusters)
    ensures var r := AddList(g, Order(st.clusters), build).gws;
      k in r && Whole(r, k) && r[k] == build(k.0, k.1, r[k].role)
  {
    var ps := Order(st.clusters);
    OrderFacts(st.clusters);
    forall p | p in ps ensures !HalfThere(g, p) { assert p in PairsOf(st.clusters) && Present(st, p); }
    WalkOk(st, g, build);
    AddListEffect(g, ps, build);
    assert Present(st, k) && Present(st, Rev(k));
    WalkPair(g, AddList(g, ps, build).gws, build, ps, k);
  }

  lemma WalkPasses(st: State, g: Gateways, everything: bool, build: Builder)
    requires NoDup(st.clusters) && KeepsRole(build) && CleanedUp(st, g, everything) && Passed(st, g, everything, build)
    requires forall p :: Present(st, p) ==> !HalfThere(g, p)
    ensures var r := AddList(g, Order(st.clusters), build);
      r.ok && Passed(st, r.gws, everything, build) && PairsOf(st.clusters) <= r.gws.Keys
  {
    var r := AddList(g, Order(st.clusters), build).gws;
    WalkOk(st, g, build);
    forall k | k in PairsOf(st.clusters) ensures k in r && Whole(r, k) && r[k] == build(k.0, k.1, r[k].role) {
      WalkPairs(st, g, build, k);
    }
    OrderFacts(st.clusters);
    AddListBuilt(g, Order(st.clusters), build);
    forall k | k in r && k !in g ensures k in PairsOf(st.clusters) {
      assert k in PairsOf(st.clusters) || Rev(k) in PairsOf(st.clusters);
      assert k == (k.0, k.1);
    }
    forall k | k in g && Present(st, k) ensures k in PairsOf(st.clusters) { assert Whole(g, k) && k == (k.0, k.1); }
    GrownPasses(st, g, r, everything, build);
  }

  lemma GrownPasses(st: State, g: Gateways, r: Gateways, everything: bool, build: Builder)
    requires CleanedUp(st, g, everything) && Passed(st, g, everything, build)
    requires forall k :: k in g ==> k in r && r[k] == g[k]
    requires forall k :: k in r && k !in g ==> k in PairsOf(st.clusters)
    requires forall k :: k in g && Present(st, k) ==> k in PairsOf(st.clusters)
    requires forall k :: k in PairsOf(st.clusters) ==> k in r && Whole(r, k) && r[k] == build(k.0, k.1, r[k].role)
    ensures Passed(st, r, everything, build)
  {
    assert forall k :: k in PairsOf(st.clusters) ==> Present(st, k);
  }

  lemma WalkPair(g: Gateways, r: Gateways, build: Builder, ps: seq<GatewayKey>, k: GatewayKey)
    requires KeepsRole(build) && Oriented(ps) && (k in ps || Rev(k) in ps)
    requires forall p :: p in ps ==> Treated(g, r, p, build) && p in r && Rev(p) in r && !HalfThere(g, p)
    requires k in g ==> Whole(g, k) && g[k] == build(k.0, k.1, g[k].role)
    requires Rev(k) in g ==> g[Rev(k)] == build(k.1, k.0, g[Rev(k)].role)
    ensures k in r && Whole(r, k) && r[k] == build(k.0, k.1, r[k].role)
  {
    assert Rev(Rev(k)) == k;
    var p := if k in ps then k else Rev(k);
    assert Treated(g, r, p, build) && p.0 != p.1 && !HalfThere(g, p);
  }

  lemma PresentBuilt(s: Slice, st: State, cm: map<string, int>, k: GatewayKey)
    requires Converging(s, st) && KeepsOctets(st, cm) && k in st.gws && Present(st, k)
    ensures st.gws[k] == BuilderOf(s, cm)(k.0, k.1, st.gws[k].role)
  {
    PresentGateway(s, st, k);
    assert OctetMap(st.configs)[k.0] == cm[k.0] && OctetMap(st.configs)[k.1] == cm[k.1];
  }

  /** The gateway step of a completing pass. */
  lemma PassGateways(s: Slice, st: State, cm: map<string, int>, registered: set<string>)
    requires Converging(s, st) && OwnerClear(s.owner) && KeepsOctets(st, cm)
    ensures var r := GatewayPass(s, st.gws, st.clusters, cm, Selector(s, LastNew(st)), st.held, registered);
      && r.ok && Passed(st, r.gws, LastNew(st).Some?, BuilderOf(s, cm))
      && (Names(st.clusters) <= registered ==> PairsOf(st.clusters) <= r.gws.Keys)
  {
    var g, build := Kept(s, st, cm), BuilderOf(s, cm);
    CleanedGateways(s, st, cm);
    assert CleanedUp(st, g, LastNew(st).Some?);
    forall k | k in g && Present(st, k) ensures g[k] == build(k.0, k.1, g[k].role) {
      PresentBuilt(s, st, cm, k);
    }
    CleanedPasses(st, g, LastNew(st).Some?, build);
    PassIsList(s, st.gws, st.clusters, cm, Selector(s, LastNew(st)), st.held, registered);
    BuilderKeepsRole(s, cm);
    WalkPasses(st, g, LastNew(st).Some?, build);
  }

  /** What is being deleted after a pass. */
  lemma PassDeletes(s: Slice, st: State, l: seq<Listed>, registered: set<string>)
    requires Converging(s, st) && OwnerClear(s.owner) && Enabled(s, st, Pass(l, registered)) && Completes(st.clusters, l)
    ensures Apply(s, st, Pass(l, registered)).dying ==
            st.dying + if LastNew(st).Some? then {} else Outsiders(st) * st.held
    ensures st.dying <= Outsiders(st)
  {
    PassKeepsOctets(s, st, l, registered);
    CleanedGateways(s, st, ClusterMap(st.clusters, l).value);
  }

  lemma PassKeepsOctets(s: Slice, st: State, l: seq<Listed>, registered: set<string>)
    requires Converging(s, st) && Enabled(s, st, Pass(l, registered)) && Completes(st.clusters, l)
    ensures var cm := ClusterMap(st.clusters, l).value;
      && KeepsOctets(st, cm)
      && OctetMap(Apply(s, st, Pass(l, registered)).configs) == cm
  {
    var base := CleanUp(st.configs, st.clusters);
    CleanUpAllocated(s, st.configs, st.clusters);
    PassComputes(s, base, st.clusters, l);
    PassAllocates(s, st.configs, st.clusters, l);
    var cm := ClusterMap(st.clusters, l).value;
    forall c | c in st.configs && c in st.clusters ensures st.configs[c].octet == Some(cm[c]) {
      assert c in base && base[c] == st.configs[c];
    }
  }

  lemma PassKeepsConfigs(s: Slice, st: State, l: seq<Listed>, registered: set<string>)
    requires Converging(s, st) && Enabled(s, st, Pass(l, registered))
    ensures ConfigsKept(Apply(s, st, Pass(l, registered)))
    ensures Allocated(s, Apply(s, st, Pass(l, registered)).configs)
  {
    PassAllocates(s, st.configs, st.clusters, l);
    if Completes(st.clusters, l) { PassKeepsOctets(s, st, l, registered); }
  }

  /** Gateways of the old mesh or of present pairs stay good when present octets do not change. */
  lemma GatewaysStayKept(s: Slice, st: State, configs: Configs)
    requires GatewaysKept(s, st)
    requires forall c :: c in OctetMap(st.configs) && c in st.clusters ==>
      c in OctetMap(configs) && OctetMap(configs)[c] == OctetMap(st.configs)[c]
    ensures GatewaysKept(s, st.(configs := configs))
  {
  }

  lemma PassedKept(s: Slice, st: State, g: Gateways, everything: bool, cm: map<string, int>, k: GatewayKey)
    requires GatewaysKept(s, st) && Names(st.clusters) <= cm.Keys && Passed(st, g, everything, BuilderOf(s, cm)) && k in g
    ensures BuiltFrom(s, k, g[k], st.before) || (Present(st, k) && BuiltFrom(s, k, g[k], cm))
  {
    if Present(st, k) {
      assert k.0 in Names(st.clusters) && k.1 in Names(st.clusters);
    } else {
      assert k in st.gws && g[k] == st.gws[k];
    }
  }

  lemma PassConverges(s: Slice, st: State, l: seq<Listed>, registered: set<string>)
    requires Converging(s, st) && OwnerClear(s.owner) && Enabled(s, st, Pass(l, registered))
    ensures Converging(s, Apply(s, st, Pass(l, registered)))
  {
    PassKeepsConfigs(s, st, l, registered);
    if Completes(st.clusters, l) {
      PassKeepsGateways(s, st, l, registered);
    } else {
      GatewaysStayKept(s, st, Apply(s, st, Pass(l, registered)).configs);
    }
  }

  /** After a pass finalizers are on gateways that exist, and present pairs are whole and live. */
  lemma PassedWhole(st: State, st': State, everything: bool, build: Builder)
    requires st.GatewayStore().Marked() && Passed(st, st'.gws, everything, build) && st.dying <= Outsiders(st)
    requires st'.clusters == st.clusters && st'.held == st.held
    requires st'.dying == st.dying + if everything then {} else Outsiders(st) * st.held
    ensures st'.GatewayStore().Marked() && PairsWhole(st')
  {
    forall k | k in st.held ensures k in st'.gws { assert Present(st, k) || k in Outsiders(st); }
    forall k | k in st'.gws && Present(st', k) ensures k !in st'.dying && Whole(st'.gws, k) {
      assert Present(st, k) && k !in Outsiders(st);
    }
  }

  lemma PassKeepsGateways(s: Slice, st: State, l: seq<Listed>, registered: set<string>)
    requires Converging(s, st) && OwnerClear(s.owner) && Enabled(s, st, Pass(l, registered)) && Completes(st.clusters, l)
    ensures GatewaysKept(s, Apply(s, st, Pass(l, registered)))
  {
    var st', cm := Apply(s, st, Pass(l, registered)), ClusterMap(st.clusters, l).value;
    PassKeepsOctets(s, st, l, registered);
    PassGateways(s, st, cm, registered);
    PassDeletes(s, st, l, registered);
    PassedWhole(st, st', LastNew(st).Some?, BuilderOf(s, cm));
    forall k | k in st'.gws
      ensures BuiltFrom(s, k, st'.gws[k], st'.before) || (Present(st', k) && BuiltFrom(s, k, st'.gws[k], OctetMap(st'.configs)))
    {
      PassedKept(s, st, st'.gws, LastNew(st).Some?, cm, k);
    }
  }

  // ----- When the mesh is exact -----

  /** The live gateways are those of present pairs, and if everything was kept the others that are not being deleted. */
  ghost predicate LiveAfter(st: State, live: Gateways, r: Gateways, everything: bool) {
    && (forall k :: k in live ==> k in r && live[k] == r[k])
    && forall k :: k in r ==>
         (k in live <==> Present(st, k) || (everything && k in st.gws && k !in st.dying))
  }

  lemma LivePair(st: State, live: Gateways, r: Gateways, everything: bool, build: Builder, k: GatewayKey)
    requires Passed(st, r, everything, build) && LiveAfter(st, live, r, everything) && k in live && Present(st, k)
    ensures k in PairsOf(st.clusters) && live[k] == build(k.0, k.1, live[k].role)
    ensures (k.1, k.0) in live && live[(k.1, k.0)].role != live[k].role
  {
    assert Whole(r, k) && Rev(k) == (k.1, k.0) && k == (k.0, k.1) && Present(st, Rev(k));
  }

  lemma LiveExact(s: Slice, st: State, live: Gateways, r: Gateways, everything: bool, cm: map<string, int>)
    requires Passed(st, r, everything, BuilderOf(s, cm)) && PairsOf(st.clusters) <= r.Keys
    requires LiveAfter(st, live, r, everything) && forall k :: k in live ==> Present(st, k)
    ensures Exact(s, live, st.clusters, cm)
  {
    forall k | k in live
      ensures k in PairsOf(st.clusters) && live[k] == Make(s, k.0, k.1, live[k].role, cm) && k.0 != k.1
      ensures (k.1, k.0) in live && live[(k.1, k.0)].role != live[k].role
    {
      LivePair(st, live, r, everything, BuilderOf(s, cm), k);
    }
    assert live.Keys == PairsOf(st.clusters) by {
      forall k | k in PairsOf(st.clusters) ensures k in live { assert Present(st, k); }
    }
  }

  /** One completing pass leaves the exact live mesh exactly when it had no config to create or no live gateway to delete. */
  lemma OnePassExact(s: Slice, st: State, l: seq<Listed>, registered: set<string>)
    requires Converging(s, st) && OwnerClear(s.owner) && Enabled(s, st, Pass(l, registered))
    requires Completes(st.clusters, l) && Names(st.clusters) <= registered
    ensures var st' := Apply(s, st, Pass(l, registered));
      Exact(s, Live(st'), st.clusters, OctetMap(st'.configs)) <==>
      Names(st.clusters) <= st.configs.Keys || forall k :: k in st.gws && k !in st.dying ==> Present(st, k)
  {
    var cm, st' := ClusterMap(st.clusters, l).value, Apply(s, st, Pass(l, registered));
    PassKeepsOctets(s, st, l, registered);
    PassGateways(s, st, cm, registered);
    PassDeletes(s, st, l, registered);
    LastCreatedFacts(CleanUp(st.configs, st.clusters), st.clusters);
    PassedLive(st, st', LastNew(st).Some?, BuilderOf(s, cm));
    if forall k :: k in Live(st') ==> Present(st, k) {
      LiveExact(s, st, Live(st'), st'.gws, LastNew(st).Some?, cm);
    } else {
      var k :| k in Live(st') && !Present(st, k);
      assert k !in PairsOf(st.clusters);
    }
  }

  lemma PassedLive(st: State, st': State, everything: bool, build: Builder)
    requires Passed(st, st'.gws, everything, build) && st.dying <= Outsiders(st)
    requires st'.dying == st.dying + if everything then {} else Outsiders(st) * st.held
    ensures LiveAfter(st, Live(st'), st'.gws, everything)
    ensures (forall k :: k in Live(st') ==> Present(st, k)) <==>
            !everything || forall k :: k in st.gws && k !in st.dying ==> Present(st, k)
  {
    forall k | k in st'.gws
      ensures k in Live(st') <==> Present(st, k) || (everything && k in st.gws && k !in st.dying)
    {
      assert Present(st, k) || k in Outsiders(st);
    }
    assert everything ==> forall k :: k in st.gws ==> k in st'.gws;
  }

  /** With every config in place no index is dealt, so the free list cannot run out. */
  lemma NothingToDeal(s: Slice, configs: Configs, clusters: seq<string>, l: seq<Listed>)
    requires Allocated(s, configs) && Admitted(s, clusters) && Enumerates(l, configs) && Names(clusters) <= configs.Keys
    ensures Completes(clusters, l)
  {
    PassComputes(s, configs, clusters, l);
    EnumeratedOctets(l, configs);
    ScanAgrees(l);
    FreshFacts(clusters, l);
    assert forall c :: c in clusters ==> c in Names(clusters) && c in configs && c in OctetMap(configs);
    assert Numbered(clusters, l) == Names(clusters);
    ElemsSize(clusters);
  }

  /** With deletions completing, a first pass leaves the configs exactly the clusters'. */
  lemma FirstPassConfigs(s: Slice, st: State, l: seq<Listed>, registered: set<string>)
    requires Converging(s, st) && Enabled(s, st, Pass(l, registered)) && Released(st)
    ensures Apply(s, st, Pass(l, registered)).configs.Keys == Names(st.clusters)
    ensures Completes(st.clusters, l)
  {
    PassPanics(s, st, l, registered);
  }

  /** With deletions of configs completing, two passes mesh every slice whose clusters are registered. */
  lemma TwoPassesMesh(s: Slice, st: State, l: seq<Listed>, l': seq<Listed>, r: set<string>, r': set<string>)
    requires Converging(s, st) && OwnerClear(s.owner) && Released(st)
    requires Enabled(s, st, Pass(l, r)) && Enabled(s, Apply(s, st, Pass(l, r)), Pass(l', r'))
    requires Names(st.clusters) <= r'
    ensures Meshed(s, Apply(s, Apply(s, st, Pass(l, r)), Pass(l', r')))
  {
    var mid := Apply(s, st, Pass(l, r));
    FirstPassConfigs(s, st, l, r);
    PassConverges(s, st, l, r);
    QuietPassMeshes(s, mid, l', r');
  }

  /** A pass that finds every config in place, and none lingering, meshes the slice. */
  lemma QuietPassMeshes(s: Slice, st: State, l: seq<Listed>, registered: set<string>)
    requires Converging(s, st) && OwnerClear(s.owner) && Enabled(s, st, Pass(l, registered))
    requires st.configs.Keys == Names(st.clusters) && Names(st.clusters) <= registered
    ensures Meshed(s, Apply(s, st, Pass(l, registered)))
  {
    CleanUpAllocated(s, st.configs, st.clusters);
    NothingToDeal(s, CleanUp(st.configs, st.clusters), st.clusters, l);
    OnePassExact(s, st, l, registered);
    PassKeepsConfigs(s, st, l, registered);
    FirstPassConfigs(s, st, l, registered);
  }

  // ----- Whole runs -----

  /** The list changes only while the mesh is settled; everything else may happen at any time. */
  ghost predicate MeshEnabled(s: Slice, st: State, e: Event) {
    Enabled(s, st, e) && (e.Update? ==> Settled(s, st))
  }

  ghost predicate IsMeshRun(s: Slice, st: State, es: seq<Event>) {
    es == [] || (IsMeshRun(s, st, es[..|es| - 1]) && MeshEnabled(s, After(s, st, es[..|es| - 1]), es[|es| - 1]))
  }

  lemma SettledGateways(s: Slice, st: State, clusters: seq<string>)
    requires Converging(s, st) && Settled(s, st)
    ensures GatewaysKept(s, Apply(s, st, Update(clusters)))
  {
    assert Live(st) == st.gws;
    ExactWhole(s, st.gws, st.clusters, OctetMap(st.configs));
    forall k | k in st.gws ensures BuiltFrom(s, k, st.gws[k], OctetMap(st.configs)) {
      assert k in PairsOf(st.clusters);
      PresentGateway(s, st, k);
    }
  }

  /** A settled mesh keeps converging under any new list. */
  lemma SettledUpdate(s: Slice, st: State, clusters: seq<string>)
    requires Converging(s, st) && Settled(s, st) && Admitted(s, clusters)
    ensures Converging(s, Apply(s, st, Update(clusters)))
  {
    SettledGateways(s, st, clusters);
  }

  lemma ExactWhole(s: Slice, g: Gateways, clusters: seq<string>, o: map<string, int>)
    requires Exact(s, g, clusters, o)
    ensures forall k :: k in g ==> Whole(g, k) && k in PairsOf(clusters)
  {
    forall k | k in g ensures Whole(g, k) { assert Rev(k) == (k.1, k.0); }
  }

  /** A turn leaves the gateways of present pairs alone, except for a finalizer. */
  lemma TurnSpares(st: State, x: Store, k: GatewayKey, j: GatewayKey)
    requires PairsWhole(st) && st.GatewayStore().Marked() && x == Turned(st.GatewayStore(), st.clusters, k)
    requires Present(st, j)
    ensures j in x.gws <==> j in st.gws
    ensures j in st.gws ==> x.gws[j] == st.gws[j] && j !in x.dying
  {
    assert Rev(Rev(k)) == k;
    if k in st.dying { assert !Present(st, k) && !Present(st, Rev(k)); }
  }

  lemma TurnKept(s: Slice, st: State, k: GatewayKey)
    requires Converging(s, st)
    ensures Converging(s, Apply(s, st, Turn(k)))
    ensures forall j :: j in st.gws && Present(st, j) ==>
      j in Apply(s, st, Turn(k)).gws && Apply(s, st, Turn(k)).gws[j] == st.gws[j]
  {
    var x := Turned(st.GatewayStore(), st.clusters, k);
    TurnedFacts(st.GatewayStore(), st.clusters, k);
    forall j | Present(st, j)
      ensures j in x.gws <==> j in st.gws
      ensures j in st.gws ==> x.gws[j] == st.gws[j] && j !in x.dying
    {
      TurnSpares(st, x, k, j);
    }
    TurnWhole(st, x);
  }

  lemma TurnWhole(st: State, x: Store)
    requires PairsWhole(st)
    requires forall j :: Present(st, j) ==>
      (j in x.gws <==> j in st.gws) && (j in st.gws ==> x.gws[j] == st.gws[j] && j !in x.dying)
    ensures forall j :: j in x.gws && Present(st, j) ==> j !in x.dying && Whole(x.gws, j)
  {
    forall j | j in x.gws && Present(st, j) ensures Whole(x.gws, j) {
      assert Whole(st.gws, j) && Present(st, Rev(j));
    }
  }

  lemma StepConverges(s: Slice, st: State, e: Event)
    requires Converging(s, st) && OwnerClear(s.owner) && MeshEnabled(s, st, e)
    ensures Converging(s, Apply(s, st, e))
  {
    StepAllocates(s, st, e);
    match e
    case Update(clusters) => SettledUpdate(s, st, clusters);
    case Pass(l, registered) => PassConverges(s, st, l, registered);
    case Hold(c) => GatewaysStayKept(s, st, Apply(s, st, e).configs);
    case Finish(c) => GatewaysStayKept(s, st, Apply(s, st, e).configs);
    case Turn(k) => TurnKept(s, st, k);
  }

  /** Over every such run the slice keeps converging: staying clusters keep index and gateways, pairs stay whole. */
  lemma {:induction false} RunConverges(s: Slice, st: State, es: seq<Event>)
    requires OwnerClear(s.owner) && Converging(s, st) && IsMeshRun(s, st, es)
    ensures Converging(s, After(s, st, es))
  {
    if es != [] {
      RunConverges(s, st, es[..|es| - 1]);
      StepConverges(s, After(s, st, es[..|es| - 1]), es[|es| - 1]);
    }
  }

  /** A created slice starts out converging. */
  lemma CreatedConverges(s: Slice, clusters: seq<string>)
    requires Admitted(s, clusters)
    ensures Converging(s, Created(clusters))
  {
  }

  /** The exact mesh: n(n-1) live gateways, and every pair of clusters connected. */
  ghost predicate MeshInPlace(st: State) {
    && st.configs.Keys == Names(st.clusters) && |Live(st)| == |st.clusters| * (|st.clusters| - 1)
    && forall a, b :: a in st.clusters && b in st.clusters && a != b ==> PairInPlace(st, a, b)
  }

  /** Two passes with the config lists and registered clusters they saw. */
  function TwoPasses(s: Slice, st: State, l: seq<Listed>, l': seq<Listed>, r: set<string>, r': set<string>): State {
    Apply(s, Apply(s, st, Pass(l, r)), Pass(l', r'))
  }

  ghost predicate TwoPassesEnabled(s: Slice, st: State, l: seq<Listed>, l': seq<Listed>, r: set<string>, r': set<string>) {
    && Released(st) && Names(st.clusters) <= r'
    && Enabled(s, st, Pass(l, r)) && Enabled(s, Apply(s, st, Pass(l, r)), Pass(l', r'))
  }

  lemma TwoPassesConverge(s: Slice, st: State, l: seq<Listed>, l': seq<Listed>, r: set<string>, r': set<string>)
    requires Converging(s, st) && OwnerClear(s.owner) && TwoPassesEnabled(s, st, l, l', r, r')
    ensures Converging(s, TwoPasses(s, st, l, l', r, r'))
  {
    PassConverges(s, st, l, r);
    PassConverges(s, Apply(s, st, Pass(l, r)), l', r');
  }

  lemma TurnedDying(x: Store, clusters: seq<string>, k: GatewayKey)
    requires x.Marked() && k in x.dying && (Rev(k) in x.gws ==> Rev(k) in x.dying)
    ensures Turned(x, clusters, k) == Store(x.gws - {k}, x.held - {k}, x.dying - {k})
  {
  }

  /** In a meshed slice all gateways of clusters that left are being deleted. */
  lemma OutsidersDying(s: Slice, st: State, k: GatewayKey)
    requires Meshed(s, st) && k in st.gws && !Present(st, k)
    ensures k in st.dying
  {
    assert k !in PairsOf(st.clusters);
    assert k !in Live(st);
  }

  /** There the turn of a gateway being deleted takes it away, and nothing else. */
  lemma TurnTakes(s: Slice, st: State, k: GatewayKey)
    requires Converging(s, st) && Meshed(s, st) && k in st.dying
    ensures var x := Turned(st.GatewayStore(), st.clusters, k);
      x.dying == st.dying - {k} && x.gws == st.gws - {k}
  {
    assert !Present(st, k) && !Present(st, Rev(k));
    if Rev(k) in st.gws { OutsidersDying(s, st, Rev(k)); }
    TurnedDying(st.GatewayStore(), st.clusters, k);
  }

  lemma OneGone(s: Slice, st: State, st': State, k: GatewayKey)
    requires Meshed(s, st) && k in st.dying && st'.clusters == st.clusters && st'.configs == st.configs
    requires st'.gws == st.gws - {k} && st'.dying == st.dying - {k}
    ensures Meshed(s, st') && |st'.dying| == |st.dying| - 1
  {
    assert Live(st') == Live(st);
  }

  lemma TurnMeshed(s: Slice, st: State, k: GatewayKey)
    requires Converging(s, st) && Meshed(s, st) && k in st.dying
    ensures Meshed(s, Apply(s, st, Turn(k))) && |Apply(s, st, Turn(k)).dying| == |st.dying| - 1
  {
    TurnTakes(s, st, k);
    OneGone(s, st, Apply(s, st, Turn(k)), k);
  }

  /** The turns ts, one for each gateway being deleted, settle the mesh. */
  ghost predicate SettledBy(s: Slice, st: State, ts: seq<Event>) {
    && OnlyTurns(ts) && |ts| == |st.dying| && IsRun(s, st, ts)
    && Converging(s, After(s, st, ts)) && Settled(s, After(s, st, ts))
  }

  lemma {:induction false} TurnsSettle(s: Slice, st: State) returns (ts: seq<Event>)
    requires Converging(s, st) && Meshed(s, st)
    ensures SettledBy(s, st, ts)
    decreases |st.dying|
  {
    if st.dying == {} {
      ts := [];
    } else {
      var k :| k in st.dying;
      TurnKept(s, st, k);
      TurnMeshed(s, st, k);
      var rest := TurnsSettle(s, Apply(s, st, Turn(k)));
      ts := OneMoreTurn(s, st, k, rest);
    }
  }

  lemma OneMoreTurn(s: Slice, st: State, k: GatewayKey, rest: seq<Event>) returns (ts: seq<Event>)
    requires SettledBy(s, Apply(s, st, Turn(k)), rest) && |Apply(s, st, Turn(k)).dying| == |st.dying| - 1
    ensures SettledBy(s, st, ts)
  {
    RunPrepend(s, st, Turn(k), rest);
    ts := [Turn(k)] + rest;
  }

  /** At any moment of any such run two passes, deletions of configs completing, bring about the exact live mesh of the
      present list, and then one turn of each gateway being deleted settles it. */
  lemma MeshOfRun(s: Slice, clusters: seq<string>, es: seq<Event>,
                  l: seq<Listed>, l': seq<Listed>, r: set<string>, r': set<string>) returns (ts: seq<Event>)
    requires s.Valid() && Admitted(s, clusters) && IsMeshRun(s, Created(clusters), es)
    requires TwoPassesEnabled(s, After(s, Created(clusters), es), l, l', r, r')
    ensures var st := TwoPasses(s, After(s, Created(clusters), es), l, l', r, r');
      && MeshInPlace(st)
      && OnlyTurns(ts) && |ts| == |st.dying| && IsRun(s, st, ts)
      && MeshInPlace(After(s, st, ts)) && After(s, st, ts).dying == {}
  {
    ValidOwner(s);
    CreatedConverges(s, clusters);
    RunConverges(s, Created(clusters), es);
    var st0 := After(s, Created(clusters), es);
    var st := TwoPasses(s, st0, l, l', r, r');
    TwoPassesMesh(s, st0, l, l', r, r');
    TwoPassesConverge(s, st0, l, l', r, r');
    MeshedPairs(s, st);
    ts := TurnsSettle(s, st);
    MeshedPairs(s, After(s, st, ts));
  }

  /** The gateways between two clusters: live, opposite roles, one number, each end with its cluster's block, and
      mirrored. */
  ghost predicate PairInPlace(st: State, a: string, b: string) {
    && (a, b) in Live(st) && (b, a) in Live(st) && a in st.configs && b in st.configs
    && var g, h := st.gws[(a, b)], st.gws[(b, a)];
       && {g.role, h.role} == {Server, Client} && g.number == h.number
       && g.local == h.remote && g.remote == h.local
       && g.local.subnet == st.configs[a].cidr && g.remote.subnet == st.configs[b].cidr
  }

  lemma MeshedPairs(s: Slice, st: State)
    requires Converging(s, st) && Meshed(s, st)
    ensures MeshInPlace(st)
  {
    ExactMeshFacts(s, Live(st), st.clusters, OctetMap(st.configs));
    forall a, b | a in st.clusters && b in st.clusters && a != b ensures PairInPlace(st, a, b) {
      assert (a, b) in Live(st);
      SubnetsAgree(s, st, (a, b));
    }
  }

  /** No step changes a gateway whose two clusters are both in the list afterwards. */
  lemma StepKeepsGateway(s: Slice, st: State, e: Event, k: GatewayKey)
    requires Converging(s, st) && OwnerClear(s.owner) && MeshEnabled(s, st, e)
    requires k in st.gws && Present(Apply(s, st, e), k)
    ensures k in Apply(s, st, e).gws && Apply(s, st, e).gws[k] == st.gws[k]
  {
    if e.Pass? && Completes(st.clusters, e.l) {
      PassKeepsOctets(s, st, e.l, e.registered);
      PassGateways(s, st, ClusterMap(st.clusters, e.l).value, e.registered);
    }
    if e.Turn? { TurnKept(s, st, e.gateway); }
  }

  ghost predicate AlwaysPresent(s: Slice, st: State, es: seq<Event>, k: GatewayKey) {
    Present(After(s, st, es), k) && (es == [] || AlwaysPresent(s, st, es[..|es| - 1], k))
  }

  /** As long as two clusters stay in the list, in whatever order, their gateway keeps its role and all its data. */
  lemma {:induction false} RunKeepsGateway(s: Slice, st: State, es: seq<Event>, k: GatewayKey)
    requires OwnerClear(s.owner) && Converging(s, st) && IsMeshRun(s, st, es)
    requires k in st.gws && AlwaysPresent(s, st, es, k)
    ensures k in After(s, st, es).gws && After(s, st, es).gws[k] == st.gws[k]
  {
    if es != [] {
      var front := es[..|es| - 1];
      RunKeepsGateway(s, st, front, k);
      RunConverges(s, st, front);
      StepKeepsGateway(s, After(s, st, front), es[|es| - 1], k);
    }
  }

  /** Each end of a gateway between present clusters has the block of that cluster's config. */
  lemma SubnetsAgree(s: Slice, st: State, k: GatewayKey)
    requires Converging(s, st) && k in st.gws && Present(st, k)
    ensures k.0 in st.configs && k.1 in st.configs
    ensures st.gws[k].local.subnet == st.configs[k.0].cidr && st.gws[k].remote.subnet == st.configs[k.1].cidr
  {
    PresentGateway(s, st, k);
  }

  lemma RotationMap(s: Slice, st: State, l: seq<Listed>, k: GatewayKey)
    requires Converging(s, st) && Enumerates(l, st.configs) && k in st.gws && Present(st, k)
    requires ClusterMap(st.clusters, l).Some?
    ensures var cm := ClusterMap(st.clusters, l).value;
      && k.0 in cm && k.1 in cm
      && st.gws[k].local.subnet == s.pool(cm[k.0]) && st.gws[k].remote.subnet == s.pool(cm[k.1])
      && (st.gws[k].role == Server ==> st.gws[k].local.vpn == s.serverVpn && st.gws[k].remote.vpn == s.clientVpn)
  {
    PassComputes(s, st.configs, st.clusters, l);
    PresentGateway(s, st, k);
  }

  /** BuildNetworkAddresses under cm gives the subnets and VPN addresses of the gateway. */
  predicate Recomputed(s: Slice, g: Gateway, cm: map<string, int>, k: GatewayKey) {
    var a := BuildNetworkAddresses(s.subnet, IndexOf(cm, k.0), IndexOf(cm, k.1), s.CidrText());
    && a.Some?
    && a.value.serverSubnet == g.local.subnet && a.value.clientSubnet == g.remote.subnet
    && a.value.serverVpnAddress == g.local.vpn && a.value.clientVpnAddress == g.remote.vpn
  }

  /** The addresses recomputed when keys are rotated are the ones the server gateway was created with. */
  lemma RotationRecomputes(s: Slice, st: State, l: seq<Listed>, k: GatewayKey)
    requires s.Valid() && Converging(s, st) && Enumerates(l, st.configs)
    requires k in st.gws && Present(st, k) && st.gws[k].role == Server
    requires Names(st.clusters) <= st.configs.Keys
    ensures ClusterMap(st.clusters, l).Some?
    ensures Recomputed(s, st.gws[k], ClusterMap(st.clusters, l).value, k)
  {
    NothingToDeal(s, st.configs, st.clusters, l);
    RotationMap(s, st, l, k);
    var cm := ClusterMap(st.clusters, l).value;
    Addresses(s, cm[k.0], cm[k.1]);
  }

  /** Over every mesh run of an admitted slice: the ends of a gateway between present clusters have their blocks ... */
  lemma SubnetsOfRun(s: Slice, clusters: seq<string>, es: seq<Event>, k: GatewayKey)
    requires s.Valid() && Admitted(s, clusters) && IsMeshRun(s, Created(clusters), es)
    requires k in After(s, Created(clusters), es).gws && Present(After(s, Created(clusters), es), k)
    ensures var st := After(s, Created(clusters), es);
      && k.0 in st.configs && st.gws[k].local.subnet == st.configs[k.0].cidr
      && k.1 in st.configs && st.gws[k].remote.subnet == st.configs[k.1].cidr
  {
    ValidOwner(s);
    CreatedConverges(s, clusters);
    RunConverges(s, Created(clusters), es);
    SubnetsAgree(s, After(s, Created(clusters), es), k);
  }

  /** ... and key rotation recomputes the addresses a server was created with. */
  lemma RotationOfRun(s: Slice, clusters: seq<string>, es: seq<Event>, l: seq<Listed>, k: GatewayKey)
    requires s.Valid() && Admitted(s, clusters) && IsMeshRun(s, Created(clusters), es)
    requires var st := After(s, Created(clusters), es);
      && Enumerates(l, st.configs) && Names(st.clusters) <= st.configs.Keys
      && k in st.gws && Present(st, k) && st.gws[k].role == Server
    ensures var st := After(s, Created(clusters), es);
      && ClusterMap(st.clusters, l).Some?
      && Recomputed(s, st.gws[k], ClusterMap(st.clusters, l).value, k)
  {
    ValidOwner(s);
    CreatedConverges(s, clusters);
    RunConverges(s, Created(clusters), es);
    RotationRecomputes(s, After(s, Created(clusters), es), l, k);
  }
}
