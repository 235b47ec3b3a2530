/** Tools for concrete runs: configs without finalizers, indexes dealt in order, turns of gateways in between. */
module PlainRuns {
  import opened Text
  import opened Sequences
  import opened Ipam
  import opened GatewayNumber
  import opened SliceStore
  import opened Mesh
  import opened Mending
  import opened SliceRun
  import opened AnyRun
  import opened Reconnect

  // ----- Indexes -----

  /** Without listed configs the names get 0, 1, 2 and so on. */
  lemma EmptyMap(names: seq<string>) returns (cm: map<string, int>)
    requires NoDup(names)
    ensures ClusterMap(names, []) == Some(cm) && cm.Keys == Names(names)
    ensures forall i :: 0 <= i < |names| ==> cm[names[i]] == i
  {
    AllFresh(names);
    AllFree(|names|);
    cm := DealInOrder(names, Free(|names|, {}));
  }

  lemma {:induction false} AllFresh(names: seq<string>)
    ensures Fresh(names, []) == names
  {
    if names != [] {
      AllFresh(names[..|names| - 1]);
      assert names == names[..|names| - 1] + [names[|names| - 1]];
    }
  }

  lemma {:induction false} AllFree(n: nat)
    ensures |Free(n, {})| == n && forall i :: 0 <= i < n ==> Free(n, {})[i] == i
  {
    if n > 0 { AllFree(n - 1); }
  }

  lemma {:induction false} DealInOrder(names: seq<string>, free: seq<int>) returns (cm: map<string, int>)
    requires NoDup(names) && |names| <= |free| && forall i :: 0 <= i < |free| ==> free[i] == i
    ensures cm == Deal(map[], names, free) && cm.Keys == Names(names)
    ensures forall i :: 0 <= i < |names| ==> cm[names[i]] == i
  {
    cm := Deal(map[], names, free);
    if names != [] {
      var n := |names| - 1;
      var before := DealInOrder(names[..n], free);
      assert names == names[..n] + [names[n]];
      forall i | 0 <= i < |names| ensures cm[names[i]] == i {
        if i < n { assert names[..n][i] == names[i] && names[i] != names[n]; }
      }
    }
  }

  /** One newcomer beside clusters holding all lower indexes gets the next index. */
  lemma NextIndex(names: seq<string>, l: seq<Listed>, x: string)
    requires NoDup(names) && OnePerCluster(l) && Injective(Octets(l)) && x in names
    requires Octets(l).Keys == Names(names) - {x}
    requires forall v :: 0 <= v < |names| - 1 ==> v in Octets(l).Values
    ensures ClusterMap(names, l) == Some(Octets(l)[x := |names| - 1])
  {
    assert LeavingBelow(names, Octets(l)) == {};
    StaysInsideFreeList(names, l);
    ClusterMapFacts(names, l);
    var r := ClusterMap(names, l).value;
    assert x in Names(names);
    forall c | c in Octets(l) ensures Octets(l)[c] != r[x] { assert r[c] == Octets(l)[c]; }
    assert r[x] !in Octets(l).Values;
    assert r == Octets(l)[x := |names| - 1];
  }

  // ----- Configs -----

  /** Exactly the configs of the clusters in o, with those octets, held by no finalizer. */
  ghost predicate ConfigsAt(s: Slice, configs: Configs, o: map<string, int>) {
    && configs.Keys == o.Keys
    && forall c :: c in o ==> configs[c] == Config(Some(o[c]), s.pool(o[c]), false, false)
  }

  function Staying(o: map<string, int>, clusters: seq<string>): map<string, int> {
    map c | c in o && c in clusters :: o[c]
  }

  lemma PlainCleanUp(s: Slice, configs: Configs, o: map<string, int>, clusters: seq<string>)
    requires ConfigsAt(s, configs, o)
    ensures ConfigsAt(s, CleanUp(configs, clusters), Staying(o, clusters))
    ensures OctetMap(CleanUp(configs, clusters)) == Staying(o, clusters)
  {
  }

  /** A list of these configs, in any order. */
  ghost predicate ListsExactly(l: seq<Listed>, o: map<string, int>) {
    OnePerCluster(l) && forall x :: x in l <==> x.cluster in o && x.octet == Some(o[x.cluster])
  }

  lemma ListsEnumerate(s: Slice, configs: Configs, o: map<string, int>, l: seq<Listed>)
    requires ConfigsAt(s, configs, o) && ListsExactly(l, o)
    ensures Enumerates(l, configs)
  {
  }

  /** A pass over such configs leaves such configs. */
  lemma PlainPass(s: Slice, st: State, o: map<string, int>, l: seq<Listed>, r: set<string>, cm: map<string, int>)
    requires ConfigsAt(s, st.configs, o) && ListsExactly(l, Staying(o, st.clusters))
    requires ClusterMap(st.clusters, l) == Some(cm) && cm.Keys == Names(st.clusters)
    ensures Enabled(s, st, Pass(l, r)) && Completes(st.clusters, l)
    ensures Octets(l) == Staying(o, st.clusters)
    ensures ConfigsAt(s, Apply(s, st, Pass(l, r)).configs, cm)
  {
    var base := CleanUp(st.configs, st.clusters);
    PlainCleanUp(s, st.configs, o, st.clusters);
    ListsEnumerate(s, base, Staying(o, st.clusters), l);
    EnumeratedOctets(l, base);
    assert ConfigsAt(s, Written(s, base, st.clusters, cm), cm);
  }

  /** The map a pass over such configs computes is the map they have. */
  lemma PlainUnderway(s: Slice, st: State, o: map<string, int>)
    requires Consistent(s, st) && ConfigsAt(s, st.configs, o) && o.Keys == Names(st.clusters)
    ensures Underway(s, st, o) && InPlace(st)
  {
    assert OctetMap(st.configs) == o;
    QuietComputing(s, st);
  }

  lemma ListedOctets(l: seq<Listed>, o: map<string, int>)
    requires ListsExactly(l, o)
    ensures Octets(l) == o
  {
    OctetsAreListed(l);
    ListedAreOctets(l);
    forall c | c in o ensures c in Octets(l) && Octets(l)[c] == o[c] { assert Listed(c, Some(o[c])) in l; }
  }

  // ----- The first pass of a slice -----

  /** It connects the slice, with indexes in list order. */
  lemma FreshPass(s: Slice, clusters: seq<string>, r: set<string>) returns (cm: map<string, int>)
    requires Admitted(s, clusters) && Names(clusters) <= r
    ensures ClusterMap(clusters, []) == Some(cm) && cm.Keys == Names(clusters)
    ensures forall i :: 0 <= i < |clusters| ==> cm[clusters[i]] == i
    ensures IsRun(s, Created(clusters), [Pass([], r)])
    ensures var st := After(s, Created(clusters), [Pass([], r)]);
      && st.clusters == clusters && ConfigsAt(s, st.configs, cm)
      && Exact(s, st.gws, clusters, cm) && st.held == {} && st.dying == {}
  {
    cm := EmptyMap(clusters);
    var st := Created(clusters);
    PlainPass(s, st, map[], [], r, cm);
    RunOne(s, st, Pass([], r));
    NothingThere(s, clusters, cm);
    PassIsList(s, map[], clusters, cm, Selector(s, LastNew(st)), {}, r);
    AddAllIsList(map[], clusters, BuilderOf(s, cm));
  }

  lemma NothingThere(s: Slice, clusters: seq<string>, cm: map<string, int>)
    requires NoDup(clusters)
    ensures Exact(s, AddAll(map[], clusters, BuilderOf(s, cm)).gws, clusters, cm)
  {
    SucceedsExactly(s, map[], clusters, cm);
  }

  /** Every gateway of an exact mesh was built from the indexes of its clusters. */
  lemma ExactBuilt(s: Slice, g: Gateways, clusters: seq<string>, cm: map<string, int>, k: GatewayKey)
    requires Exact(s, g, clusters, cm) && k in PairsOf(clusters) && cm.Keys == Names(clusters) && NoDup(clusters)
    requires |clusters| <= s.maxClusters && forall i :: 0 <= i < |clusters| ==> cm[clusters[i]] == i
    ensures k in g && k.0 in cm && k.1 in cm && BuiltAt(s, k, g[k], cm[k.0], cm[k.1])
  {
    var i :| 0 <= i < |clusters| && clusters[i] == k.0;
    var j :| 0 <= j < |clusters| && clusters[j] == k.1;
  }

  // ----- One gateway along a run -----

  predicate Different(a: string, b: string, c: string, d: string) {
    a != b && a != c && a != d && b != c && b != d && c != d
  }

  /** A live gateway and the indexes it was built from. */
  ghost predicate LiveAt(s: Slice, st: State, k: GatewayKey, x: int, y: int) {
    k in st.gws && k !in st.dying && BuiltAt(s, k, st.gws[k], x, y)
  }

  /** A moment of a run: the list, the octets, and the two gateways of a pair, live, with the indexes they were built
      from. */
  ghost predicate Tracked(s: Slice, st: State, clusters: seq<string>, o: map<string, int>, k: GatewayKey, x: int, y: int) {
    && Consistent(s, st) && st.clusters == clusters && ConfigsAt(s, st.configs, o)
    && LiveAt(s, st, k, x, y) && LiveAt(s, st, Rev(k), y, x)
  }

  lemma TrackFirst(s: Slice, clusters: seq<string>, r: set<string>, k: GatewayKey) returns (cm: map<string, int>)
    requires Admitted(s, clusters) && Names(clusters) <= r && k in PairsOf(clusters)
    ensures cm.Keys == Names(clusters) && forall i :: 0 <= i < |clusters| ==> cm[clusters[i]] == i
    ensures IsRun(s, Created(clusters), [Pass([], r)])
    ensures k.0 in cm && k.1 in cm
    ensures Tracked(s, After(s, Created(clusters), [Pass([], r)]), clusters, cm, k, cm[k.0], cm[k.1])
  {
    cm := FreshPass(s, clusters, r);
    RunConsistent(s, clusters, [Pass([], r)]);
    ExactBuilt(s, After(s, Created(clusters), [Pass([], r)]).gws, clusters, cm, k);
    assert Rev(k) in PairsOf(clusters) by { assert k == (k.0, k.1); }
    ExactBuilt(s, After(s, Created(clusters), [Pass([], r)]).gws, clusters, cm, Rev(k));
  }

  lemma TrackUpdate(s: Slice, st: State, was: seq<string>, clusters: seq<string>, o: map<string, int>, k: GatewayKey, x: int, y: int)
    requires Tracked(s, st, was, o, k, x, y) && Admitted(s, clusters)
    ensures Enabled(s, st, Update(clusters)) && Tracked(s, Apply(s, st, Update(clusters)), clusters, o, k, x, y)
  {
  }

  /** What a pass over the octets o computes. */
  ghost predicate Computes(clusters: seq<string>, o: map<string, int>, l: seq<Listed>, cm: map<string, int>) {
    ListsExactly(l, Staying(o, clusters)) && ClusterMap(clusters, l) == Some(cm) && cm.Keys == Names(clusters)
  }

  /** A pass spares a gateway if the last cluster is new and not its source, or if its number is as it was. */
  lemma PassSpares(s: Slice, st: State, clusters: seq<string>, o: map<string, int>, k: GatewayKey, x: int, y: int,
                   l: seq<Listed>, r: set<string>, cm: map<string, int>)
    requires OwnerClear(s.owner) && Consistent(s, st) && st.clusters == clusters && ConfigsAt(s, st.configs, o)
    requires Enabled(s, st, Pass(l, r)) && Completes(clusters, l) && ClusterMap(clusters, l) == Some(cm)
    requires LiveAt(s, st, k, x, y) && Spared(clusters, o, cm, k, x, y)
    ensures LiveAt(s, Apply(s, st, Pass(l, r)), k, x, y)
  {
    LastIsNew(st);
    GatewayFate(s, st, l, r, k);
  }

  lemma TrackPass(s: Slice, st: State, clusters: seq<string>, o: map<string, int>, k: GatewayKey, x: int, y: int,
                  l: seq<Listed>, r: set<string>, cm: map<string, int>)
    requires OwnerClear(s.owner) && Tracked(s, st, clusters, o, k, x, y) && Computes(clusters, o, l, cm)
    requires Spared(clusters, o, cm, k, x, y)
    ensures Enabled(s, st, Pass(l, r)) && Tracked(s, Apply(s, st, Pass(l, r)), clusters, cm, k, x, y)
  {
    PlainPass(s, st, o, l, r, cm);
    StepConsistent(s, st, Pass(l, r));
    PassSpares(s, st, clusters, o, k, x, y, l, r, cm);
    NumberSymmetric(x, y);
    NumberSymmetric(IndexOf(cm, k.0), IndexOf(cm, k.1));
    PassSpares(s, st, clusters, o, Rev(k), y, x, l, r, cm);
  }

  /** A turn, of whatever gateway, leaves a live pair where it is. */
  lemma TurnSparesPair(x: Store, clusters: seq<string>, j: GatewayKey, k: GatewayKey)
    requires k in x.gws && k !in x.dying && Rev(k) !in x.dying
    ensures var y := Turned(x, clusters, j); k in y.gws && y.gws[k] == x.gws[k] && k !in y.dying
  {
    assert Rev(Rev(j)) == j;
  }

  lemma TrackTurn(s: Slice, st: State, clusters: seq<string>, o: map<string, int>, k: GatewayKey, x: int, y: int, j: GatewayKey)
    requires Tracked(s, st, clusters, o, k, x, y)
    ensures Tracked(s, Apply(s, st, Turn(j)), clusters, o, k, x, y)
  {
    StepConsistent(s, st, Turn(j));
    assert Rev(Rev(k)) == k;
    TurnSparesPair(st.GatewayStore(), st.clusters, j, k);
    TurnSparesPair(st.GatewayStore(), st.clusters, j, Rev(k));
  }

  lemma LastIsNew(st: State)
    ensures st.clusters != [] && st.clusters[|st.clusters| - 1] !in st.configs ==>
      LastNew(st) == Some(st.clusters[|st.clusters| - 1])
  {
  }

  /** The run es of a slice created with this list leads to such a moment. */
  ghost predicate Reached(s: Slice, start: seq<string>, es: seq<Event>,
                          clusters: seq<string>, o: map<string, int>, k: GatewayKey, x: int, y: int) {
    IsRun(s, Created(start), es) && Tracked(s, After(s, Created(start), es), clusters, o, k, x, y)
  }

  lemma ReachUpdate(s: Slice, start: seq<string>, es: seq<Event>, was: seq<string>, clusters: seq<string>,
                    o: map<string, int>, k: GatewayKey, x: int, y: int)
    requires Reached(s, start, es, was, o, k, x, y) && Admitted(s, clusters)
    ensures Reached(s, start, es + [Update(clusters)], clusters, o, k, x, y)
  {
    TrackUpdate(s, After(s, Created(start), es), was, clusters, o, k, x, y);
    RunAppend(s, Created(start), es, Update(clusters));
  }

  lemma ReachPass(s: Slice, start: seq<string>, es: seq<Event>, clusters: seq<string>, o: map<string, int>,
                  k: GatewayKey, x: int, y: int, l: seq<Listed>, r: set<string>, cm: map<string, int>)
    requires OwnerClear(s.owner) && Reached(s, start, es, clusters, o, k, x, y) && Computes(clusters, o, l, cm)
    requires Spared(clusters, o, cm, k, x, y)
    ensures Reached(s, start, es + [Pass(l, r)], clusters, cm, k, x, y)
  {
    TrackPass(s, After(s, Created(start), es), clusters, o, k, x, y, l, r, cm);
    RunAppend(s, Created(start), es, Pass(l, r));
  }

  /** Whether a pass leaves a pair alone: the last cluster is new and of another pair, or the number is as it was. */
  predicate Spared(clusters: seq<string>, o: map<string, int>, cm: map<string, int>, k: GatewayKey, x: int, y: int) {
    || (clusters != [] && clusters[|clusters| - 1] !in o && clusters[|clusters| - 1] != k.0 && clusters[|clusters| - 1] != k.1)
    || (BothPresent(clusters, k) && Number(x, y) == Number(IndexOf(cm, k.0), IndexOf(cm, k.1)))
  }

  lemma {:induction false} TrackTurns(s: Slice, st: State, ts: seq<Event>, clusters: seq<string>, o: map<string, int>,
                                      k: GatewayKey, x: int, y: int)
    requires Tracked(s, st, clusters, o, k, x, y) && OnlyTurns(ts)
    ensures IsRun(s, st, ts) && Tracked(s, After(s, st, ts), clusters, o, k, x, y)
  {
    if ts != [] {
      var front, e := ts[..|ts| - 1], ts[|ts| - 1];
      TrackTurns(s, st, front, clusters, o, k, x, y);
      TrackTurn(s, After(s, st, front), clusters, o, k, x, y, e.gateway);
    }
  }

  lemma ReachTurns(s: Slice, start: seq<string>, es: seq<Event>, ts: seq<Event>,
                   clusters: seq<string>, o: map<string, int>, k: GatewayKey, x: int, y: int)
    requires Reached(s, start, es, clusters, o, k, x, y) && OnlyTurns(ts)
    ensures Reached(s, start, es + ts, clusters, o, k, x, y)
  {
    TrackTurns(s, After(s, Created(start), es), ts, clusters, o, k, x, y);
    RunConcat(s, Created(start), es, ts);
  }

  /** A change to an admitted list, after which a pass computes cm and spares the pair. */
  ghost predicate ListChange(s: Slice, clusters: seq<string>, o: map<string, int>, k: GatewayKey, x: int, y: int,
                          l: seq<Listed>, cm: map<string, int>) {
    Admitted(s, clusters) && Computes(clusters, o, l, cm) && Spared(clusters, o, cm, k, x, y)
  }

  /** Turns, a list change and a pass. */
  lemma ReachChange(s: Slice, start: seq<string>, es: seq<Event>, ts: seq<Event>, was: seq<string>, clusters: seq<string>,
                    o: map<string, int>, k: GatewayKey, x: int, y: int, l: seq<Listed>, r: set<string>, cm: map<string, int>)
    requires OwnerClear(s.owner) && Reached(s, start, es, was, o, k, x, y) && OnlyTurns(ts)
    requires ListChange(s, clusters, o, k, x, y, l, cm)
    ensures Reached(s, start, es + ts + [Update(clusters)] + [Pass(l, r)], clusters, cm, k, x, y)
  {
    ReachTurns(s, start, es, ts, was, o, k, x, y);
    ReachUpdate(s, start, es + ts, was, clusters, o, k, x, y);
    ReachPass(s, start, es + ts + [Update(clusters)], clusters, o, k, x, y, l, r, cm);
  }

  /** A new slice is connected, with indexes in list order. */
  lemma ReachFresh(s: Slice, start: seq<string>, r: set<string>, o: map<string, int>, k: GatewayKey)
    requires Admitted(s, start) && Names(start) <= r && k in PairsOf(start)
    requires o.Keys == Names(start) && forall i :: 0 <= i < |start| ==> o[start[i]] == i
    ensures k.0 in o && k.1 in o && Reached(s, start, [Pass([], r)], start, o, k, o[k.0], o[k.1])
  {
    var cm := TrackFirst(s, start, r, k);
    forall c | c in o ensures cm[c] == o[c] {
      var i :| 0 <= i < |start| && start[i] == c;
    }
    assert cm == o;
  }

  /** A new slice of two clusters. */
  lemma ReachTwo(s: Slice, a: string, b: string, r: set<string>)
    requires s.maxClusters >= 2 && {a, b} <= r && a != b
    ensures Reached(s, [a, b], [Pass([], r)], [a, b], map[a := 0, b := 1], (a, b), 0, 1)
  {
    assert (a, b) in PairsOf([a, b]);
    ReachFresh(s, [a, b], r, map[a := 0, b := 1], (a, b));
  }
}
