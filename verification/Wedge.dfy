/** A run after which no pass ever succeeds: a cluster returns before the mesh settled and before its gateways were first
    reconciled, and the narrowed list lets the loops create one half of a pair beside a stale other half. */
module Wedge {
  import opened Text
  import opened Ipam
  import opened GatewayNumber
  import opened SliceStore
  import opened Mesh
  import opened Mending
  import opened SliceRun
  import opened AnyRun
  import opened PairStates
  import opened Reconnect
  import opened Convergence
  import opened PassOutcomes
  import opened PlainRuns

  // ----- Gateways that were never built -----

  /** No list of the run has both clusters. */
  predicate NeverTogether(start: seq<string>, es: seq<Event>, k: GatewayKey) {
    !BothPresent(start, k) && forall i :: 0 <= i < |es| && es[i].Update? ==> !BothPresent(es[i].clusters, k)
  }

  lemma {:induction false} NeverBuilt(s: Slice, start: seq<string>, es: seq<Event>, k: GatewayKey)
    requires OwnerClear(s.owner) && Admitted(s, start) && IsRun(s, Created(start), es) && NeverTogether(start, es, k)
    ensures k !in After(s, Created(start), es).gws && !BothPresent(After(s, Created(start), es).clusters, k)
  {
    if es != [] {
      var front, e := es[..|es| - 1], es[|es| - 1];
      NeverBuilt(s, start, front, k);
      RunConsistent(s, start, front);
      NotBuiltNow(s, After(s, Created(start), front), e, k);
    }
  }

  lemma NotBuiltNow(s: Slice, st: State, e: Event, k: GatewayKey)
    requires OwnerClear(s.owner) && Consistent(s, st) && Enabled(s, st, e)
    requires k !in st.gws && !BothPresent(st.clusters, k) && (e.Update? ==> !BothPresent(e.clusters, k))
    ensures k !in Apply(s, st, e).gws && !BothPresent(Apply(s, st, e).clusters, k)
  {
    if e.Pass? && Completes(st.clusters, e.l) { GatewayFate(s, st, e.l, e.registered, k); }
    if e.Turn? { TurnedFacts(st.GatewayStore(), st.clusters, e.gateway); }
  }

  /** Without turns no gateway has a finalizer. */
  lemma {:induction false} NoFinalizers(s: Slice, st: State, es: seq<Event>)
    requires st.held == {} && forall i :: 0 <= i < |es| ==> !es[i].Turn?
    ensures After(s, st, es).held == {}
  {
    if es != [] { NoFinalizers(s, st, es[..|es| - 1]); }
  }

  // ----- The failing pass -----

  /** At a pair whose forward gateway is missing while the other one is there the loops create it and stop. */
  lemma StopsAtFirst(g: Gateways, ps: seq<GatewayKey>, build: Builder)
    requires ps != [] && ps[0] !in g && Rev(ps[0]) in g && ps[0].0 != ps[0].1
    ensures AddList(g, ps, build) == Outcome(g[ps[0] := build(ps[0].0, ps[0].1, Server)], false)
  {
  }

  lemma OrderFirst(clusters: seq<string>)
    requires |clusters| >= 2
    ensures Order(clusters) != [] && Order(clusters)[0] == (clusters[0], clusters[1])
  {
  }

  /** The state before the pass: the first cluster is the only new one, both gateways to the second were built from its
      old index x and have no finalizer, and the number tells that from its new one. */
  ghost predicate Returning(s: Slice, st: State, cm: map<string, int>, p: GatewayKey, x: int, y: int) {
    && Consistent(s, st) && |st.clusters| >= 2 && p == (st.clusters[0], st.clusters[1])
    && LastNew(st) == Some(p.0) && st.held == {}
    && p in st.gws && BuiltAt(s, p, st.gws[p], x, y)
    && Rev(p) in st.gws && BuiltAt(s, Rev(p), st.gws[Rev(p)], y, x)
    && p.0 in cm && p.1 in cm && Number(x, y) != Number(cm[p.0], cm[p.1])
  }

  lemma ReturnKeeps(s: Slice, st: State, cm: map<string, int>, p: GatewayKey, x: int, y: int)
    requires OwnerClear(s.owner) && Returning(s, st, cm, p, x, y)
    ensures p !in Kept(s, st, cm) && Rev(p) in Kept(s, st, cm) && Kept(s, st, cm)[Rev(p)] == st.gws[Rev(p)]
    ensures p.0 != p.1 && Kept(s, st, cm).Keys <= st.gws.Keys
  {
    CleanedSurvives(s, st, cm, p);
    CleanedSurvives(s, st, cm, Rev(p));
  }

  /** The pass deletes the forward gateway, keeps the stale other one, creates the forward one again, and fails. */
  lemma ReturnFails(s: Slice, st: State, cm: map<string, int>, r: set<string>, p: GatewayKey, x: int, y: int)
    requires OwnerClear(s.owner) && Returning(s, st, cm, p, x, y) && Names(st.clusters) <= r
    ensures GatewayPass(s, st.gws, st.clusters, cm, Selector(s, LastNew(st)), st.held, r) ==
            Outcome(Kept(s, st, cm)[p := Make(s, p.0, p.1, Server, cm)], false)
  {
    ReturnKeeps(s, st, cm, p, x, y);
    PassIsList(s, st.gws, st.clusters, cm, Selector(s, LastNew(st)), st.held, r);
    OrderFirst(st.clusters);
    StopsAtFirst(Kept(s, st, cm), Order(st.clusters), BuilderOf(s, cm));
  }

  /** After it the forward gateway of that pair is new beside the old other one. */
  lemma ReturnLeaves(s: Slice, st: State, l: seq<Listed>, r: set<string>, cm: map<string, int>, p: GatewayKey, x: int, y: int)
    requires OwnerClear(s.owner) && Returning(s, st, cm, p, x, y) && Names(st.clusters) <= r
    requires Completes(st.clusters, l) && ClusterMap(st.clusters, l) == Some(cm)
    ensures var end := Apply(s, st, Pass(l, r));
      && p in end.gws && end.gws[p] == Make(s, p.0, p.1, Server, cm)
      && Rev(p) in end.gws && end.gws[Rev(p)] == st.gws[Rev(p)]
      && forall k :: k in end.gws && k != p ==> k in st.gws
  {
    ReturnKeeps(s, st, cm, p, x, y);
    ReturnFails(s, st, cm, r, p, x, y);
    OneAdded(Kept(s, st, cm), st.gws, p, Make(s, p.0, p.1, Server, cm));
  }

  lemma OneAdded(g: Gateways, was: Gateways, p: GatewayKey, v: Gateway)
    requires p.0 != p.1 && Rev(p) in g && g.Keys <= was.Keys
    ensures var r := g[p := v];
      p in r && r[p] == v && Rev(p) in r && r[Rev(p)] == g[Rev(p)] && forall k :: k in r && k != p ==> k in was
  {
  }

  lemma ReturnMarks(s: Slice, st: State, l: seq<Listed>, r: set<string>)
    requires st.held == {} && st.dying == {}
    ensures var end := Apply(s, st, Pass(l, r)); end.clusters == st.clusters && end.held == {} && end.dying == {}
  {
  }

  lemma ReturnHalves(s: Slice, st: State, l: seq<Listed>, r: set<string>, cm: map<string, int>, p: GatewayKey, x: int, y: int)
    requires OwnerClear(s.owner) && Returning(s, st, cm, p, x, y) && Names(st.clusters) <= r
    requires Completes(st.clusters, l) && ClusterMap(st.clusters, l) == Some(cm)
    ensures var end := Apply(s, st, Pass(l, r));
      && StatusAt(end, cm, p) == Fresh && StatusAt(end, cm, Rev(p)) == Stale
      && forall k :: k in end.gws && k != p ==> k in st.gws
  {
    ReturnLeaves(s, st, l, r, cm, p, x, y);
    ReturnMarks(s, st, l, r);
    HalfFits(s, Apply(s, st, Pass(l, r)).gws, st.clusters, cm, p, x, y);
  }

  lemma HalfFits(s: Slice, g: Gateways, clusters: seq<string>, cm: map<string, int>, p: GatewayKey, x: int, y: int)
    requires p in g && g[p] == Make(s, p.0, p.1, Server, cm) && BothPresent(clusters, p) && p.0 in cm && p.1 in cm
    requires Rev(p) in g && BuiltAt(s, Rev(p), g[Rev(p)], y, x) && Number(x, y) != Number(cm[p.0], cm[p.1])
    ensures Fit(clusters, cm)(g[p]) && !Fit(clusters, cm)(g[Rev(p)])
  {
    NumberSymmetric(x, y);
    NumberSymmetric(cm[p.0], cm[p.1]);
  }

  // ----- The run -----

  function FirstList(a: string, d: string): seq<Listed> {
    [Listed(a, Some(0)), Listed(d, Some(1))]
  }

  function SecondList(a: string, c: string, d: string): seq<Listed> {
    [Listed(a, Some(0)), Listed(d, Some(1)), Listed(c, Some(2))]
  }

  function ThirdList(a: string, b: string, c: string, d: string): seq<Listed> {
    [Listed(a, Some(0)), Listed(d, Some(1)), Listed(c, Some(2)), Listed(b, Some(3))]
  }

  /** b, of a slice a, d, b, is replaced by c, and comes back at the front. */
  function LeaveRun(a: string, c: string, d: string, r: set<string>): seq<Event> {
    [Pass([], r)] + [] + [Update([a, d, c])] + [Pass(FirstList(a, d), r)]
  }

  function BackRun(a: string, b: string, c: string, d: string, r: set<string>): seq<Event> {
    LeaveRun(a, c, d, r) + [Update([b, d, c, a])]
  }

  function WedgeRun(a: string, b: string, c: string, d: string, r: set<string>): seq<Event> {
    BackRun(a, b, c, d, r) + [Pass(SecondList(a, c, d), r)] + [Pass(ThirdList(a, b, c, d), r)]
  }

  lemma LeaveComputes(a: string, b: string, c: string, d: string)
    requires Different(a, b, c, d)
    ensures Computes([a, d, c], map[a := 0, d := 1, b := 2], FirstList(a, d), map[a := 0, d := 1, c := 2])
  {
    var l := FirstList(a, d);
    assert Staying(map[a := 0, d := 1, b := 2], [a, d, c]) == map[a := 0, d := 1];
    ListedOctets(l, map[a := 0, d := 1]);
    assert Octets(l)[a] == 0 && Octets(l)[d] == 1;
    NextIndex([a, d, c], l, c);
  }

  lemma ReturnComputes(a: string, b: string, c: string, d: string)
    requires Different(a, b, c, d)
    ensures Computes([b, d, c, a], map[a := 0, d := 1, c := 2], SecondList(a, c, d), map[a := 0, d := 1, c := 2, b := 3])
  {
    var l, o := SecondList(a, c, d), map[a := 0, d := 1, c := 2];
    assert Staying(o, [b, d, c, a]) == o;
    ThreeListed(a, c, d);
    ListedOctets(l, o);
    assert Octets(l)[a] == 0 && Octets(l)[d] == 1 && Octets(l)[c] == 2;
    NextIndex([b, d, c, a], l, b);
  }

  lemma ThreeListed(a: string, c: string, d: string)
    requires a != c && a != d && c != d
    ensures ListsExactly(SecondList(a, c, d), map[a := 0, d := 1, c := 2])
  {
  }

  lemma LeaveChanges(s: Slice, a: string, b: string, c: string, d: string)
    requires s.maxClusters >= 4 && Different(a, b, c, d)
    ensures ListChange(s, [a, d, c], map[a := 0, d := 1, b := 2], (b, d), 2, 1, FirstList(a, d), map[a := 0, d := 1, c := 2])
  {
    LeaveComputes(a, b, c, d);
  }

  lemma ReachThree(s: Slice, a: string, d: string, b: string, r: set<string>)
    requires s.maxClusters >= 3 && {a, b, d} <= r && a != b && a != d && b != d
    ensures Reached(s, [a, d, b], [Pass([], r)], [a, d, b], map[a := 0, d := 1, b := 2], (b, d), 2, 1)
  {
    assert (b, d) in PairsOf([a, d, b]);
    ReachFresh(s, [a, d, b], r, map[a := 0, d := 1, b := 2], (b, d));
  }

  /** b left, with both its gateways to d still there. */
  lemma LeaveReached(s: Slice, a: string, b: string, c: string, d: string, r: set<string>)
    requires OwnerClear(s.owner) && s.maxClusters >= 4 && {a, b, c, d} <= r && Different(a, b, c, d)
    ensures Reached(s, [a, d, b], LeaveRun(a, c, d, r), [a, d, c], map[a := 0, d := 1, c := 2], (b, d), 2, 1)
  {
    ReachThree(s, a, d, b, r);
    LeaveChanges(s, a, b, c, d);
    ReachChange(s, [a, d, b], [Pass([], r)], [], [a, d, b], [a, d, c], map[a := 0, d := 1, b := 2], (b, d), 2, 1,
                FirstList(a, d), r, map[a := 0, d := 1, c := 2]);
  }

  lemma FourAdmitted(s: Slice, a: string, b: string, c: string, d: string)
    requires s.maxClusters >= 4 && Different(a, b, c, d)
    ensures Admitted(s, [b, d, c, a]) && Admitted(s, [a, d, b])
  {
  }

  /** b is back in the list. */
  lemma BackReached(s: Slice, a: string, b: string, c: string, d: string, r: set<string>)
    requires OwnerClear(s.owner) && s.maxClusters >= 4 && {a, b, c, d} <= r && Different(a, b, c, d)
    ensures Reached(s, [a, d, b], BackRun(a, b, c, d, r), [b, d, c, a], map[a := 0, d := 1, c := 2], (b, d), 2, 1)
  {
    LeaveReached(s, a, b, c, d, r);
    FourAdmitted(s, a, b, c, d);
    ReachUpdate(s, [a, d, b], LeaveRun(a, c, d, r), [a, d, c], [b, d, c, a], map[a := 0, d := 1, c := 2], (b, d), 2, 1);
  }

  lemma LeaveApart(a: string, b: string, c: string, d: string, r: set<string>)
    requires Different(a, b, c, d)
    ensures NeverTogether([a, d, b], LeaveRun(a, c, d, r), (b, c))
  {
  }

  lemma BackTurnless(a: string, b: string, c: string, d: string, r: set<string>)
    ensures forall i :: 0 <= i < |BackRun(a, b, c, d, r)| ==> !BackRun(a, b, c, d, r)[i].Turn?
  {
  }

  lemma LeaveBuildsNone(s: Slice, a: string, b: string, c: string, d: string, r: set<string>)
    requires OwnerClear(s.owner) && s.maxClusters >= 4 && {a, b, c, d} <= r && Different(a, b, c, d)
    ensures IsRun(s, Created([a, d, b]), LeaveRun(a, c, d, r))
    ensures (b, c) !in After(s, Created([a, d, b]), LeaveRun(a, c, d, r)).gws
  {
    LeaveReached(s, a, b, c, d, r);
    LeaveApart(a, b, c, d, r);
    FourAdmitted(s, a, b, c, d);
    NeverBuilt(s, [a, d, b], LeaveRun(a, c, d, r), (b, c));
  }

  /** It has no gateway to c, and no gateway has a finalizer. */
  lemma BackBuildsNone(s: Slice, a: string, b: string, c: string, d: string, r: set<string>)
    requires OwnerClear(s.owner) && s.maxClusters >= 4 && {a, b, c, d} <= r && Different(a, b, c, d)
    ensures (b, c) !in After(s, Created([a, d, b]), BackRun(a, b, c, d, r)).gws
    ensures After(s, Created([a, d, b]), BackRun(a, b, c, d, r)).held == {}
  {
    LeaveBuildsNone(s, a, b, c, d, r);
    BackTurnless(a, b, c, d, r);
    NoFinalizers(s, Created([a, d, b]), BackRun(a, b, c, d, r));
    FourAdmitted(s, a, b, c, d);
    RunAppend(s, Created([a, d, b]), LeaveRun(a, c, d, r), Update([b, d, c, a]));
  }

  lemma BackIsNew(s: Slice, st: State, a: string, b: string, c: string, d: string)
    requires Different(a, b, c, d) && st.clusters == [b, d, c, a] && ConfigsAt(s, st.configs, map[a := 0, d := 1, c := 2])
    ensures LastNew(st) == Some(b) && Released(st)
  {
    OnlyFirstNew(CleanUp(st.configs, st.clusters), a, b, c, d);
  }

  lemma TrackedReturns(s: Slice, st: State, a: string, b: string, c: string, d: string)
    requires Different(a, b, c, d) && st.held == {}
    requires Tracked(s, st, [b, d, c, a], map[a := 0, d := 1, c := 2], (b, d), 2, 1)
    ensures Returning(s, st, map[a := 0, d := 1, c := 2, b := 3], (b, d), 2, 1)
  {
    BackIsNew(s, st, a, b, c, d);
    assert Number(2, 1) == 1 && Number(3, 1) == 2;
  }

  lemma OnlyFirstNew(base: Configs, a: string, b: string, c: string, d: string)
    requires a in base && c in base && d in base && b !in base
    ensures LastCreated(base, [b, d, c, a]) == Some(b)
  {
    assert [b, d, c, a][..3] == [b, d, c] && [b, d, c][..2] == [b, d] && [b, d][..1] == [b];
    assert LastCreated(base, [b]) == Some(b) == LastCreated(base, [b, d]) == LastCreated(base, [b, d, c]);
  }

  /** The first pass after the return: half a pair is new, the other half stale. */
  lemma FirstBack(s: Slice, st: State, a: string, b: string, c: string, d: string, r: set<string>)
    requires OwnerClear(s.owner) && {a, b, c, d} <= r && Different(a, b, c, d) && (b, c) !in st.gws && st.held == {}
    requires Tracked(s, st, [b, d, c, a], map[a := 0, d := 1, c := 2], (b, d), 2, 1)
    ensures Enabled(s, st, Pass(SecondList(a, c, d), r))
    ensures Halved(s, Apply(s, st, Pass(SecondList(a, c, d), r)), a, b, c, d)
  {
    var l, cm := SecondList(a, c, d), map[a := 0, d := 1, c := 2, b := 3];
    ReturnComputes(a, b, c, d);
    PlainPass(s, st, map[a := 0, d := 1, c := 2], l, r, cm);
    TrackedReturns(s, st, a, b, c, d);
    ReturnHalves(s, st, l, r, cm, (b, d), 2, 1);
    StepConsistent(s, st, Pass(l, r));
  }

  /** b and d have a fresh gateway and a stale one, b and c none. */
  ghost predicate Halved(s: Slice, st: State, a: string, b: string, c: string, d: string) {
    var cm := map[a := 0, d := 1, c := 2, b := 3];
    && Consistent(s, st) && st.clusters == [b, d, c, a] && ConfigsAt(s, st.configs, cm) && (b, c) !in st.gws
    && StatusAt(st, cm, (b, d)) == Fresh && StatusAt(st, cm, (d, b)) == Stale
  }

  /** The slice is stuck at b and d, and b has no gateway to c. */
  ghost predicate StuckApart(s: Slice, st: State, a: string, b: string, c: string, d: string) {
    var cm := map[a := 0, d := 1, c := 2, b := 3];
    && Underway(s, st, cm) && InPlace(st) && st.clusters == [b, d, c, a] && Stuck(st, cm, (b, d)) && (b, c) !in st.gws
  }

  lemma WedgeOrder(a: string, b: string, c: string, d: string)
    ensures (b, d) in Order([b, d, c, a]) && Precedes(Order([b, d, c, a]), (b, d), (b, c))
  {
    var ps := Order([b, d, c, a]);
    assert [b, d, c, a][1..] == [d, c, a] && [d, c, a][1..] == [c, a];
    assert RowOrder(b, [c, a]) == [(b, c)] + RowOrder(b, [c, a][1..]);
    assert RowOrder(b, [d, c, a]) == [(b, d)] + RowOrder(b, [c, a]);
    assert ps[0] == (b, d) && ps[1] == (b, c);
  }

  lemma HalfThenStuck(s: Slice, st: State, cm: map<string, int>, l: seq<Listed>, r: set<string>, q: GatewayKey, p: GatewayKey)
    requires Underway(s, st, cm) && OwnerClear(s.owner) && InPlace(st) && Precedes(Order(st.clusters), q, p)
    requires StatusAt(st, cm, q) == Fresh && StatusAt(st, cm, Rev(q)) == Stale && p !in st.gws
    requires Enabled(s, st, Pass(l, r)) && Names(st.clusters) <= r
    ensures var st' := Apply(s, st, Pass(l, r));
      Underway(s, st', cm) && InPlace(st') && st'.clusters == st.clusters && Stuck(st', cm, q) && p !in st'.gws
  {
    StaleHalfWedges(s, st, cm, l, r, q);
    StepUnderway(s, st, cm, Pass(l, r));
  }

  /** The next one takes the stale half away, and leaves the other one alone. */
  lemma SecondBack(s: Slice, st: State, a: string, b: string, c: string, d: string, r: set<string>)
    requires OwnerClear(s.owner) && {a, b, c, d} <= r && Different(a, b, c, d) && Halved(s, st, a, b, c, d)
    ensures Enabled(s, st, Pass(ThirdList(a, b, c, d), r))
    ensures StuckApart(s, Apply(s, st, Pass(ThirdList(a, b, c, d), r)), a, b, c, d)
  {
    var l, cm := ThirdList(a, b, c, d), map[a := 0, d := 1, c := 2, b := 3];
    PlainUnderway(s, st, cm);
    ThirdListed(s, st, a, b, c, d);
    WedgeOrder(a, b, c, d);
    HalfThenStuck(s, st, cm, l, r, (b, d), (b, c));
  }

  lemma FourListed(a: string, b: string, c: string, d: string)
    requires Different(a, b, c, d)
    ensures ListsExactly(ThirdList(a, b, c, d), map[a := 0, d := 1, c := 2, b := 3])
  {
  }

  lemma ThirdListed(s: Slice, st: State, a: string, b: string, c: string, d: string)
    requires Different(a, b, c, d) && st.clusters == [b, d, c, a]
    requires ConfigsAt(s, st.configs, map[a := 0, d := 1, c := 2, b := 3])
    ensures Enumerates(ThirdList(a, b, c, d), CleanUp(st.configs, st.clusters))
  {
    FourListed(a, b, c, d);
    assert CleanUp(st.configs, st.clusters) == st.configs;
    ListsEnumerate(s, st.configs, map[a := 0, d := 1, c := 2, b := 3], ThirdList(a, b, c, d));
  }

  /** The slice of a, d, b, after the run. */
  lemma WedgeReached(s: Slice, a: string, b: string, c: string, d: string, r: set<string>)
    requires OwnerClear(s.owner) && s.maxClusters >= 4 && {a, b, c, d} <= r && Different(a, b, c, d)
    ensures IsRun(s, Created([a, d, b]), WedgeRun(a, b, c, d, r))
    ensures StuckApart(s, After(s, Created([a, d, b]), WedgeRun(a, b, c, d, r)), a, b, c, d)
  {
    BackReached(s, a, b, c, d, r);
    BackBuildsNone(s, a, b, c, d, r);
    TwoBack(s, BackRun(a, b, c, d, r), a, b, c, d, r);
  }

  lemma TwoBack(s: Slice, es: seq<Event>, a: string, b: string, c: string, d: string, r: set<string>)
    requires OwnerClear(s.owner) && {a, b, c, d} <= r && Different(a, b, c, d)
    requires Reached(s, [a, d, b], es, [b, d, c, a], map[a := 0, d := 1, c := 2], (b, d), 2, 1)
    requires (b, c) !in After(s, Created([a, d, b]), es).gws && After(s, Created([a, d, b]), es).held == {}
    ensures var es' := es + [Pass(SecondList(a, c, d), r)] + [Pass(ThirdList(a, b, c, d), r)];
      IsRun(s, Created([a, d, b]), es') && StuckApart(s, After(s, Created([a, d, b]), es'), a, b, c, d)
  {
    var start, mid := Created([a, d, b]), es + [Pass(SecondList(a, c, d), r)];
    FirstBack(s, After(s, start, es), a, b, c, d, r);
    RunAppend(s, start, es, Pass(SecondList(a, c, d), r));
    SecondBack(s, After(s, start, mid), a, b, c, d, r);
    RunAppend(s, start, mid, Pass(ThirdList(a, b, c, d), r));
  }

  /** Whatever passes and turns follow, b keeps its one gateway to d and gets none to c, and the slice stays apart. */
  lemma WedgedAfterReturn(s: Slice, a: string, b: string, c: string, d: string, r: set<string>, es: seq<Event>)
    requires s.Valid() && s.maxClusters >= 4 && {a, b, c, d} <= r && Different(a, b, c, d)
    requires StepRun(s, After(s, Created([a, d, b]), WedgeRun(a, b, c, d, r)), es)
    ensures IsRun(s, Created([a, d, b]), WedgeRun(a, b, c, d, r))
    ensures var end := After(s, After(s, Created([a, d, b]), WedgeRun(a, b, c, d, r)), es);
      (b, d) in end.gws && (d, b) !in end.gws && (b, c) !in end.gws && !Connected(s, end)
  {
    ValidOwner(s);
    WedgeReached(s, a, b, c, d, r);
    StaysApart(s, After(s, Created([a, d, b]), WedgeRun(a, b, c, d, r)), a, b, c, d, es);
  }

  /** A stuck pair, and nothing created behind it. */
  lemma StaysStuck(s: Slice, st: State, cm: map<string, int>, es: seq<Event>, q: GatewayKey, p: GatewayKey)
    requires Underway(s, st, cm) && StepRun(s, st, es) && Precedes(Order(st.clusters), q, p)
    requires Stuck(st, cm, q) && p !in st.gws
    ensures var end := After(s, st, es); q in end.gws && Rev(q) !in end.gws && p !in end.gws && !Connected(s, end)
  {
    StuckForGood(s, st, cm, es, q);
    NothingBehind(s, st, cm, es, q, p, p);
  }

  lemma StuckForGood(s: Slice, st: State, cm: map<string, int>, es: seq<Event>, q: GatewayKey)
    requires Underway(s, st, cm) && StepRun(s, st, es) && q in Order(st.clusters) && Stuck(st, cm, q)
    ensures var end := After(s, st, es); q in end.gws && Rev(q) !in end.gws && !Connected(s, end)
  {
    ForwardStays(s, st, cm, es, q);
    HalfIs(After(s, st, es), cm, q);
    HalfApart(s, After(s, st, es), q);
  }

  lemma HalfApart(s: Slice, st: State, q: GatewayKey)
    requires q in st.gws && Rev(q) !in st.gws
    ensures !Connected(s, st)
  {
    assert Rev(q) == (q.1, q.0);
  }

  lemma StaysApart(s: Slice, st: State, a: string, b: string, c: string, d: string, es: seq<Event>)
    requires StuckApart(s, st, a, b, c, d) && StepRun(s, st, es)
    ensures var end := After(s, st, es);
      (b, d) in end.gws && (d, b) !in end.gws && (b, c) !in end.gws && !Connected(s, end)
  {
    WedgeOrder(a, b, c, d);
    StaysStuck(s, st, map[a := 0, d := 1, c := 2, b := 3], es, (b, d), (b, c));
  }
}
