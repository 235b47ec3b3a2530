/** From any moment of any run: exactly when passes and the turns of the gateways bring about the mesh, and how soon. */
module Reconnect {
  import opened Text
  import opened Sequences
  import opened Ipam
  import opened OwnerLabel
  import opened SliceStore
  import opened Mesh
  import opened Mending
  import opened SliceRun
  import opened AnyRun
  import opened PairStates

  /** The configs are the clusters', and the gateways their exact mesh, none of them being deleted. */
  ghost predicate Connected(s: Slice, st: State) {
    && st.configs.Keys == Names(st.clusters) && st.dying == {}
    && Exact(s, st.gws, st.clusters, OctetMap(st.configs))
  }

  /** Not obsolete. */
  function Fit(clusters: seq<string>, cm: map<string, int>): Test {
    g => !Obsolete(g, clusters, cm)
  }

  lemma BuilderFits(s: Slice, clusters: seq<string>, cm: map<string, int>)
    requires NoDup(clusters)
    ensures BuildsFit(Order(clusters), BuilderOf(s, cm), Fit(clusters, cm))
    ensures Oriented(Order(clusters)) && KeepsRole(BuilderOf(s, cm))
  {
    OrderFacts(clusters);
    BuilderKeepsRole(s, cm);
    forall p | p in Order(clusters) ensures p.0 in clusters && p.1 in clusters { assert p in PairsOf(clusters); }
  }

  lemma FitInside(s: Slice, gws: Gateways, clusters: seq<string>, cm: map<string, int>, k: GatewayKey)
    requires GatewaysBuilt(s, gws) && k in gws && Fit(clusters, cm)(gws[k])
    ensures k in PairsOf(clusters)
  {
    var x, y :| BuiltAt(s, k, gws[k], x, y);
    assert k == (k.0, k.1);
  }

  /** Without a new config the clean-up lists every gateway. */
  lemma OwnerDooms(s: Slice, st: State, cm: map<string, int>)
    requires GatewaysBuilt(s, st.gws) && OwnerClear(s.owner) && LastNew(st).None?
    ensures Doomed(st.gws, st.clusters, cm, Selector(s, LastNew(st))) == Unfit(st.GatewayStore(), Fit(st.clusters, cm))
  {
    forall k | k in st.gws ensures Selects(Selector(s, None), st.gws[k].labels) {
      var x, y :| BuiltAt(s, k, st.gws[k], x, y);
      NarrowedList(s, None, k.0, k.1);
    }
  }

  // ----- The configs -----

  /** Whatever list of configs a pass sees, it computes cm. */
  ghost predicate Computing(st: State, cm: map<string, int>) {
    forall l :: Enumerates(l, CleanUp(st.configs, st.clusters)) ==> ClusterMap(st.clusters, l) == Some(cm)
  }

  /** A moment after the list changed for the last time, deletions of configs completing; passes will compute cm. */
  ghost predicate Underway(s: Slice, st: State, cm: map<string, int>) {
    && Consistent(s, st) && Released(st) && cm.Keys == Names(st.clusters) && Computing(st, cm)
    && (InPlace(st) ==> OctetMap(st.configs) == cm)
  }

  /** The configs are the clusters'. */
  ghost predicate InPlace(st: State) {
    st.configs.Keys == Names(st.clusters)
  }

  lemma FirstConfigs(s: Slice, st: State, l: seq<Listed>, registered: set<string>)
    requires Consistent(s, st) && Released(st) && Enabled(s, st, Pass(l, registered))
    ensures Completes(st.clusters, l) && ClusterMap(st.clusters, l).value.Keys == Names(st.clusters)
    ensures var st' := Apply(s, st, Pass(l, registered));
      InPlace(st') && OctetMap(st'.configs) == ClusterMap(st.clusters, l).value
  {
    PassPanics(s, st, l, registered);
    CleanUpAllocated(s, st.configs, st.clusters);
    PassComputes(s, CleanUp(st.configs, st.clusters), st.clusters, l);
    PassAllocates(s, st.configs, st.clusters, l);
  }

  lemma NothingWritten(s: Slice, configs: Configs, clusters: seq<string>)
    requires Allocated(s, configs) && configs.Keys == Names(clusters)
    ensures CleanUp(configs, clusters) == configs
    ensures OctetMap(configs).Keys == Names(clusters) && Written(s, configs, clusters, OctetMap(configs)) == configs
  {
  }

  lemma QuietMap(s: Slice, configs: Configs, clusters: seq<string>, l: seq<Listed>)
    requires Allocated(s, configs) && Admitted(s, clusters) && configs.Keys == Names(clusters) && Enumerates(l, configs)
    requires Completes(clusters, l)
    ensures ClusterMap(clusters, l).value == OctetMap(configs)
  {
    PassComputes(s, configs, clusters, l);
    var cm := ClusterMap(clusters, l).value;
    assert cm.Keys == OctetMap(configs).Keys;
  }

  lemma QuietConfigs(s: Slice, st: State, l: seq<Listed>, registered: set<string>)
    requires Consistent(s, st) && InPlace(st) && Enabled(s, st, Pass(l, registered))
    ensures Completes(st.clusters, l) && ClusterMap(st.clusters, l).value == OctetMap(st.configs)
    ensures Apply(s, st, Pass(l, registered)).configs == st.configs
  {
    NothingWritten(s, st.configs, st.clusters);
    FirstConfigs(s, st, l, registered);
    QuietMap(s, st.configs, st.clusters, l);
  }

  lemma QuietComputing(s: Slice, st: State)
    requires Consistent(s, st) && InPlace(st)
    ensures Computing(st, OctetMap(st.configs))
  {
    forall l | Enumerates(l, CleanUp(st.configs, st.clusters)) ensures ClusterMap(st.clusters, l) == Some(OctetMap(st.configs)) {
      QuietConfigs(s, st, l, {});
    }
  }

  /** Every such moment has its map. */
  lemma SomeMap(s: Slice, st: State) returns (cm: map<string, int>)
    requires Consistent(s, st) && Released(st)
    ensures Underway(s, st, cm)
  {
    var l := SomeEnumeration(CleanUp(st.configs, st.clusters));
    FirstConfigs(s, st, l, {});
    cm := ClusterMap(st.clusters, l).value;
    forall l' | Enumerates(l', CleanUp(st.configs, st.clusters)) ensures ClusterMap(st.clusters, l') == Some(cm) {
      EnumeratedOctets(l, CleanUp(st.configs, st.clusters));
      EnumeratedOctets(l', CleanUp(st.configs, st.clusters));
      OrderDoesNotMatter(st.clusters, l', l);
    }
    if InPlace(st) { QuietConfigs(s, st, l, {}); }
  }

  // ----- Steps -----

  /** A turn of a gateway, or a pass that sees every cluster registered. */
  predicate Step(clusters: seq<string>, e: Event) {
    e.Turn? || (e.Pass? && Names(clusters) <= e.registered)
  }

  predicate OnlySteps(clusters: seq<string>, es: seq<Event>) {
    forall i :: 0 <= i < |es| ==> Step(clusters, es[i])
  }

  /** Passes and turns, in any order and number. */
  ghost predicate StepRun(s: Slice, st: State, es: seq<Event>) {
    IsRun(s, st, es) && OnlySteps(st.clusters, es)
  }

  /** What a pass deletes. */
  function Dropped(s: Slice, st: State, cm: map<string, int>): set<GatewayKey> {
    Doomed(st.gws, st.clusters, cm, Selector(s, LastNew(st)))
  }

  lemma PassStore(s: Slice, st: State, cm: map<string, int>, l: seq<Listed>, registered: set<string>)
    requires Underway(s, st, cm) && Enabled(s, st, Pass(l, registered)) && Names(st.clusters) <= registered
    ensures var x, st' := st.GatewayStore(), Apply(s, st, Pass(l, registered));
      && Completes(st.clusters, l) && ClusterMap(st.clusters, l) == Some(cm) && st'.clusters == st.clusters
      && InPlace(st') && OctetMap(st'.configs) == cm && (InPlace(st) ==> st'.configs == st.configs)
      && st'.GatewayStore() == Passed(x, Dropped(s, st, cm), Order(st.clusters), BuilderOf(s, cm))
      && Drops(x, Fit(st.clusters, cm), Dropped(s, st, cm))
  {
    FirstConfigs(s, st, l, registered);
    PassIsList(s, st.gws, st.clusters, cm, Selector(s, LastNew(st)), st.held, registered);
    if InPlace(st) { QuietConfigs(s, st, l, registered); }
  }

  /** With the configs in place a pass deletes all that is obsolete. */
  lemma QuietDrops(s: Slice, st: State, cm: map<string, int>)
    requires Consistent(s, st) && OwnerClear(s.owner) && InPlace(st)
    ensures LastNew(st).None? && Dropped(s, st, cm) == Unfit(st.GatewayStore(), Fit(st.clusters, cm))
  {
    assert CleanUp(st.configs, st.clusters) == st.configs;
    LastCreatedFacts(st.configs, st.clusters);
    OwnerDooms(s, st, cm);
  }

  lemma StepUnderway(s: Slice, st: State, cm: map<string, int>, e: Event)
    requires Underway(s, st, cm) && Step(st.clusters, e) && Enabled(s, st, e)
    ensures var st' := Apply(s, st, e);
      Underway(s, st', cm) && st'.clusters == st.clusters && (InPlace(st) || e.Pass? ==> InPlace(st'))
  {
    StepConsistent(s, st, e);
    if e.Pass? {
      PassStore(s, st, cm, e.l, e.registered);
      QuietComputing(s, Apply(s, st, e));
    }
  }

  lemma {:induction false} StepsUnderway(s: Slice, st: State, cm: map<string, int>, es: seq<Event>)
    requires Underway(s, st, cm) && StepRun(s, st, es)
    ensures Underway(s, After(s, st, es), cm) && After(s, st, es).clusters == st.clusters
    ensures InPlace(st) ==> InPlace(After(s, st, es))
  {
    if es != [] {
      StepsUnderway(s, st, cm, es[..|es| - 1]);
      StepUnderway(s, After(s, st, es[..|es| - 1]), cm, es[|es| - 1]);
    }
  }

  // ----- Wedged for good -----

  predicate WedgedAt(s: Slice, st: State, cm: map<string, int>, p: GatewayKey) {
    Wedged(st.GatewayStore(), Fit(st.clusters, cm), BuilderOf(s, cm), p)
  }

  ghost predicate WedgeFree(s: Slice, st: State, cm: map<string, int>) {
    forall p :: p in Order(st.clusters) ==> !WedgedAt(s, st, cm, p)
  }

  lemma WedgedStep(s: Slice, st: State, cm: map<string, int>, e: Event, p: GatewayKey)
    requires Underway(s, st, cm) && Step(st.clusters, e) && Enabled(s, st, e)
    requires p in Order(st.clusters) && WedgedAt(s, st, cm, p)
    ensures WedgedAt(s, Apply(s, st, e), cm, p)
  {
    var x, fit, build := st.GatewayStore(), Fit(st.clusters, cm), BuilderOf(s, cm);
    BuilderFits(s, st.clusters, cm);
    if e.Pass? {
      PassStore(s, st, cm, e.l, e.registered);
      WedgedPass(x, fit, Dropped(s, st, cm), Order(st.clusters), build, p);
    } else {
      WedgedTurn(x, st.clusters, fit, build, e.gateway, p);
    }
  }

  lemma ConnectedWedgeFree(s: Slice, st: State, cm: map<string, int>)
    requires Underway(s, st, cm) && Connected(s, st)
    ensures WedgeFree(s, st, cm)
  {
    OrderFacts(st.clusters);
    forall p | p in Order(st.clusters) ensures Sound(st.gws, BuilderOf(s, cm), p) {
      assert p in PairsOf(st.clusters) && p in st.gws && (p.1, p.0) in st.gws;
    }
  }

  lemma {:induction false} WedgedRun(s: Slice, st: State, cm: map<string, int>, es: seq<Event>, p: GatewayKey)
    requires Underway(s, st, cm) && StepRun(s, st, es) && p in Order(st.clusters) && WedgedAt(s, st, cm, p)
    ensures WedgedAt(s, After(s, st, es), cm, p)
  {
    if es != [] {
      var front, e := es[..|es| - 1], es[|es| - 1];
      WedgedRun(s, st, cm, front, p);
      StepsUnderway(s, st, cm, front);
      WedgedStep(s, After(s, st, front), cm, e, p);
    }
  }

  /** Whatever passes and turns follow, a wedged pair stays wedged, and the slice apart. */
  lemma WedgedForGood(s: Slice, st: State, cm: map<string, int>, es: seq<Event>, p: GatewayKey)
    requires Underway(s, st, cm) && StepRun(s, st, es) && p in Order(st.clusters) && WedgedAt(s, st, cm, p)
    ensures WedgedAt(s, After(s, st, es), cm, p) && !Connected(s, After(s, st, es))
  {
    WedgedRun(s, st, cm, es, p);
    StepsUnderway(s, st, cm, es);
    if Connected(s, After(s, st, es)) { ConnectedWedgeFree(s, After(s, st, es), cm); }
  }

  // ----- Steps come to rest -----

  /** A list of names that begins with the present clusters and has both clusters of every gateway. */
  predicate Spans(names: seq<string>, st: State) {
    NoDup(names) && st.clusters <= names && forall k :: k in st.gws ==> k.0 in names && k.1 in names
  }

  lemma {:induction false} OrderPrefix(cs: seq<string>, more: seq<string>, p: GatewayKey)
    requires NoDup(cs + more) && p in Order(cs)
    ensures p in Order(cs + more)
    decreases cs
  {
    var a, rest := cs[0], cs[1..];
    assert (cs + more)[1..] == rest + more && (cs + more)[0] == a;
    NoDupRest(cs + more);
    NoDupFront(rest, more);
    RowOrderFacts(a, rest);
    RowOrderFacts(a, rest + more);
    if p !in RowOrder(a, rest) { OrderPrefix(rest, more, p); }
  }

  /** The pairs of a longer list visit those of the shorter one the same way round. */
  lemma SpanOrder(names: seq<string>, clusters: seq<string>, p: GatewayKey)
    requires NoDup(names) && clusters <= names && p in Order(names)
    ensures p.0 != p.1 && (p in Order(clusters) || Rev(p) !in Order(clusters))
  {
    OrderFacts(names);
    assert names == clusters + names[|clusters|..];
    if Rev(p) in Order(clusters) {
      OrderPrefix(clusters, names[|clusters|..], Rev(p));
    }
  }

  lemma SpanCovers(s: Slice, names: seq<string>, st: State)
    requires Spans(names, st) && GatewaysBuilt(s, st.gws)
    ensures Covers(Order(names), st.GatewayStore())
  {
    OrderFacts(names);
    forall k | k in st.gws ensures k in Order(names) || Rev(k) in Order(names) {
      assert k in PairsOf(names) by { assert k == (k.0, k.1); }
    }
  }

  lemma WalkInside(s: Slice, g: Gateways, clusters: seq<string>, cm: map<string, int>)
    requires NoDup(clusters)
    ensures AddList(g, Order(clusters), BuilderOf(s, cm)).gws.Keys <= g.Keys + PairsOf(clusters)
  {
    WalkGrows(s, g, clusters, cm);
    OrderFacts(clusters);
    var r := AddList(g, Order(clusters), BuilderOf(s, cm)).gws;
    forall k | k in r && k !in g ensures k in PairsOf(clusters) {
      assert k in PairsOf(clusters) || Rev(k) in PairsOf(clusters);
      assert k == (k.0, k.1);
    }
  }

  lemma SpanPairs(names: seq<string>, clusters: seq<string>)
    requires clusters <= names
    ensures forall k :: k in PairsOf(clusters) ==> k.0 in names && k.1 in names
  {
    assert forall c :: c in clusters ==> c in names;
  }

  lemma SpanStep(s: Slice, names: seq<string>, st: State, cm: map<string, int>, e: Event)
    requires Underway(s, st, cm) && Step(st.clusters, e) && Enabled(s, st, e) && Spans(names, st)
    ensures Spans(names, Apply(s, st, e))
  {
    if e.Pass? {
      PassStore(s, st, cm, e.l, e.registered);
      WalkInside(s, Swept(st.GatewayStore(), Dropped(s, st, cm)).gws, st.clusters, cm);
      SpanPairs(names, st.clusters);
    } else {
      TurnedFacts(st.GatewayStore(), st.clusters, e.gateway);
    }
  }

  /** How far the gateways are from rest. */
  function Distance(st: State, cm: map<string, int>, names: seq<string>): nat {
    Total(st.GatewayStore(), Fit(st.clusters, cm), Order(names))
  }

  lemma StepCloser(s: Slice, names: seq<string>, st: State, cm: map<string, int>, e: Event)
    requires Underway(s, st, cm) && Step(st.clusters, e) && Enabled(s, st, e) && Spans(names, st)
    ensures Closer(st.GatewayStore(), Apply(s, st, e).GatewayStore(), Fit(st.clusters, cm), Order(names))
  {
    BuilderFits(s, st.clusters, cm);
    if e.Pass? { PassStore(s, st, cm, e.l, e.registered); }
    var x, fit := st.GatewayStore(), Fit(st.clusters, cm);
    var y := Apply(s, st, e).GatewayStore();
    forall p | p in Order(names) ensures SameView(x, y, fit, p) || PairRank(y, fit, p) < PairRank(x, fit, p) {
      SpanOrder(names, st.clusters, p);
      if e.Pass? {
        PassCloser(x, fit, Dropped(s, st, cm), Order(st.clusters), BuilderOf(s, cm), p);
      } else {
        TurnCloser(x, st.clusters, fit, e.gateway, p);
      }
    }
  }

  /** Every step that changes a gateway brings the gateways closer to rest. */
  lemma StepDistance(s: Slice, names: seq<string>, st: State, cm: map<string, int>, e: Event)
    requires Underway(s, st, cm) && Step(st.clusters, e) && Enabled(s, st, e) && Spans(names, st)
    ensures var st' := Apply(s, st, e);
      Distance(st', cm, names) < Distance(st, cm, names) || st'.GatewayStore() == st.GatewayStore()
  {
    var x, y, fit, qs := st.GatewayStore(), Apply(s, st, e).GatewayStore(), Fit(st.clusters, cm), Order(names);
    StepUnderway(s, st, cm, e);
    StepCloser(s, names, st, cm, e);
    TotalDrops(x, y, fit, qs);
    SpanStep(s, names, st, cm, e);
    SpanCovers(s, names, st);
    SpanCovers(s, names, Apply(s, st, e));
    if Total(y, fit, qs) == Total(x, fit, qs) { SameStore(s, names, st, cm, e); }
  }

  lemma SameStore(s: Slice, names: seq<string>, st: State, cm: map<string, int>, e: Event)
    requires Underway(s, st, cm) && Step(st.clusters, e) && Enabled(s, st, e)
    requires Covers(Order(names), st.GatewayStore()) && Covers(Order(names), Apply(s, st, e).GatewayStore())
    requires forall p :: p in Order(names) ==>
      SameView(st.GatewayStore(), Apply(s, st, e).GatewayStore(), Fit(st.clusters, cm), p)
    ensures Apply(s, st, e).GatewayStore() == st.GatewayStore()
  {
    var x, fit := st.GatewayStore(), Fit(st.clusters, cm);
    if e.Pass? {
      PassStore(s, st, cm, e.l, e.registered);
      BuilderFits(s, st.clusters, cm);
      PassSame(x, fit, Dropped(s, st, cm), Order(st.clusters), BuilderOf(s, cm), Order(names));
    } else {
      TurnSame(x, st.clusters, fit, e.gateway, Order(names));
    }
  }

  /** How many steps of a run changed a gateway. */
  function Changes(s: Slice, st: State, es: seq<Event>): nat {
    if es == [] then 0
    else
      var front := es[..|es| - 1];
      Changes(s, st, front) +
      (if After(s, st, es).GatewayStore() == After(s, st, front).GatewayStore() then 0 else 1)
  }

  lemma {:induction false} ChangesBounded(s: Slice, names: seq<string>, st: State, cm: map<string, int>, es: seq<Event>)
    requires Underway(s, st, cm) && StepRun(s, st, es) && Spans(names, st)
    ensures var end := After(s, st, es);
      && Underway(s, end, cm) && end.clusters == st.clusters && Spans(names, end)
      && Changes(s, st, es) + Distance(end, cm, names) <= Distance(st, cm, names)
  {
    if es != [] {
      var front, e := es[..|es| - 1], es[|es| - 1];
      ChangesBounded(s, names, st, cm, front);
      var mid := After(s, st, front);
      StepUnderway(s, mid, cm, e);
      SpanStep(s, names, mid, cm, e);
      StepDistance(s, names, mid, cm, e);
    }
  }

  /** Over any passes and turns, in any order and number, at most 20 n (n - 1) of them change a gateway, where n counts the
      clusters that are listed or that a gateway names. */
  lemma FewChanges(s: Slice, names: seq<string>, st: State, cm: map<string, int>, es: seq<Event>)
    requires Underway(s, st, cm) && StepRun(s, st, es) && Spans(names, st)
    ensures Changes(s, st, es) <= 20 * (|names| * (|names| - 1))
  {
    ChangesBounded(s, names, st, cm, es);
    TotalBound(st.GatewayStore(), Fit(st.clusters, cm), Order(names));
    OrderLength(names);
  }

  /** No step changes anything any more. */
  ghost predicate Still(s: Slice, st: State) {
    forall e :: Step(st.clusters, e) && Enabled(s, st, e) ==> Apply(s, st, e) == st
  }

  lemma StillPass(s: Slice, st: State, cm: map<string, int>)
    requires Underway(s, st, cm) && OwnerClear(s.owner) && Still(s, st)
    ensures var x, fit := st.GatewayStore(), Fit(st.clusters, cm);
      InPlace(st) && Passed(x, Unfit(x, fit), Order(st.clusters), BuilderOf(s, cm)) == x
  {
    var l := SomeEnumeration(CleanUp(st.configs, st.clusters));
    var e := Pass(l, Names(st.clusters));
    assert Step(st.clusters, e) && Apply(s, st, e) == st;
    PassStore(s, st, cm, l, Names(st.clusters));
    QuietDrops(s, st, cm);
  }

  lemma StillLive(s: Slice, st: State)
    requires Consistent(s, st) && Still(s, st)
    ensures st.dying == {}
  {
    forall k ensures k !in st.dying {
      var e := Turn(k);
      assert Step(st.clusters, e) && Apply(s, st, e) == st;
      TurnedGone(st.GatewayStore(), st.clusters, k);
    }
  }

  lemma TurnedGone(x: Store, clusters: seq<string>, k: GatewayKey)
    requires x.Marked()
    ensures k in x.dying ==> k !in Turned(x, clusters, k).gws
  {
  }

  /** At rest every gateway is live and fit, and creation has nothing to add. */
  lemma StillStore(s: Slice, st: State, cm: map<string, int>)
    requires Underway(s, st, cm) && OwnerClear(s.owner) && Still(s, st)
    ensures InPlace(st) && st.dying == {} && Unfit(st.GatewayStore(), Fit(st.clusters, cm)) == {}
    ensures AddList(st.gws, Order(st.clusters), BuilderOf(s, cm)).gws == st.gws
  {
    StillPass(s, st, cm);
    StillLive(s, st);
    StillFits(s, st, cm);
    assert Swept(st.GatewayStore(), {}) == st.GatewayStore();
  }

  lemma StillFits(s: Slice, st: State, cm: map<string, int>)
    requires Consistent(s, st) && st.dying == {}
    requires var x, fit := st.GatewayStore(), Fit(st.clusters, cm);
      Passed(x, Unfit(x, fit), Order(st.clusters), BuilderOf(s, cm)) == x
    ensures Unfit(st.GatewayStore(), Fit(st.clusters, cm)) == {}
  {
    var x, fit, ps, build := st.GatewayStore(), Fit(st.clusters, cm), Order(st.clusters), BuilderOf(s, cm);
    BuilderFits(s, st.clusters, cm);
    GuardedKept(x, fit, Unfit(x, fit), ps, build);
    assert Unfit(x, fit) <= x.held && Unfit(x, fit) * x.held <= x.dying;
  }

  /** At rest the slice is connected exactly when no pair is wedged. */
  lemma StillConnected(s: Slice, st: State, cm: map<string, int>)
    requires Underway(s, st, cm) && OwnerClear(s.owner) && Still(s, st)
    ensures Connected(s, st) <==> WedgeFree(s, st, cm)
  {
    StillStore(s, st, cm);
    if Connected(s, st) {
      ConnectedWedgeFree(s, st, cm);
    }
    if WedgeFree(s, st, cm) {
      StillExact(s, st, cm);
    }
  }

  lemma AllInside(s: Slice, st: State, cm: map<string, int>)
    requires Consistent(s, st) && Unfit(st.GatewayStore(), Fit(st.clusters, cm)) == {}
    ensures st.gws.Keys <= PairsOf(st.clusters)
  {
    forall k | k in st.gws ensures k in PairsOf(st.clusters) {
      assert k !in Unfit(st.GatewayStore(), Fit(st.clusters, cm));
      FitInside(s, st.gws, st.clusters, cm, k);
    }
  }

  lemma RestingSound(x: Store, fit: Test, build: Builder, p: GatewayKey)
    requires x.dying == {} && Unfit(x, fit) == {} && !Wedged(x, fit, build, p)
    ensures Sound(x.gws, build, p)
  {
    assert forall k :: k in x.gws ==> k !in Unfit(x, fit);
  }

  lemma SoundBuilt(g: Gateways, cs: seq<string>, build: Builder)
    requires NoDup(cs) && g.Keys <= PairsOf(cs) && forall p :: p in Order(cs) ==> Sound(g, build, p)
    ensures Mendable(g, Order(cs), build)
  {
    OrderFacts(cs);
    forall k | k in g ensures g[k] == build(k.0, k.1, g[k].role) {
      assert Rev(Rev(k)) == k;
      assert Sound(g, build, if k in Order(cs) then k else Rev(k));
    }
  }

  lemma StillExact(s: Slice, st: State, cm: map<string, int>)
    requires Consistent(s, st) && WedgeFree(s, st, cm) && st.dying == {}
    requires Unfit(st.GatewayStore(), Fit(st.clusters, cm)) == {}
    requires AddList(st.gws, Order(st.clusters), BuilderOf(s, cm)).gws == st.gws
    ensures Exact(s, st.gws, st.clusters, cm)
  {
    var g, ps, build := st.gws, Order(st.clusters), BuilderOf(s, cm);
    AllInside(s, st, cm);
    forall p | p in ps ensures Sound(g, build, p) {
      assert !WedgedAt(s, st, cm, p);
      RestingSound(st.GatewayStore(), Fit(st.clusters, cm), build, p);
    }
    SoundBuilt(g, st.clusters, build);
    OrderFacts(st.clusters);
    NothingToAdd(g, ps, build);
    ExactIsMended(s, g, st.clusters, cm);
  }

  lemma NothingToAdd(g: Gateways, ps: seq<GatewayKey>, build: Builder)
    requires Oriented(ps) && AddList(g, ps, build).gws == g && forall p :: p in ps ==> Sound(g, build, p)
    ensures Missing(g, ps) == {}
  {
    AddListEffect(g, ps, build);
    FirstHalfNone(g, ps);
  }

  /** One step before others. */
  lemma StepFirst(s: Slice, st: State, e: Event, rest: seq<Event>) returns (es: seq<Event>)
    requires Step(st.clusters, e) && Enabled(s, st, e)
    requires Apply(s, st, e).clusters == st.clusters && StepRun(s, Apply(s, st, e), rest)
    ensures StepRun(s, st, es) && After(s, st, es) == After(s, Apply(s, st, e), rest)
  {
    RunPrepend(s, st, e, rest);
    es := [e] + rest;
  }

  /** Some steps bring the slice to rest. */
  lemma {:induction false} Settle(s: Slice, names: seq<string>, st: State, cm: map<string, int>) returns (es: seq<Event>)
    requires Underway(s, st, cm) && Spans(names, st)
    ensures StepRun(s, st, es) && Still(s, After(s, st, es))
    decreases Distance(st, cm, names), if InPlace(st) then 0 else 1
  {
    if Still(s, st) {
      es := [];
    } else {
      var e :| Step(st.clusters, e) && Enabled(s, st, e) && Apply(s, st, e) != st;
      var st' := Apply(s, st, e);
      StepUnderway(s, st, cm, e);
      SpanStep(s, names, st, cm, e);
      StepDistance(s, names, st, cm, e);
      if e.Pass? { PassStore(s, st, cm, e.l, e.registered); }
      var rest := Settle(s, names, st', cm);
      es := StepFirst(s, st, e, rest);
    }
  }

  lemma {:induction false} WithNames(cs: seq<string>, more: set<string>) returns (names: seq<string>)
    requires NoDup(cs)
    ensures NoDup(names) && cs <= names && forall x :: x in more ==> x in names
    decreases more
  {
    if more == {} {
      names := cs;
    } else {
      var c :| c in more;
      names := WithNames(cs, more - {c});
      if c !in names { names := names + [c]; }
      forall x | x in more ensures x in names { assert x == c || x in more - {c}; }
    }
  }

  /** There is such a list of names. */
  lemma SomeSpan(s: Slice, st: State) returns (names: seq<string>)
    requires Consistent(s, st)
    ensures Spans(names, st)
  {
    names := WithNames(st.clusters, (set k | k in st.gws :: k.0) + (set k | k in st.gws :: k.1));
  }
}
