/** Single passes and short runs: when one pass connects a slice, and how a stale half under a finalizer is repaired. */
module PassOutcomes {
  import opened Sequences
  import opened Ipam
  import opened SliceStore
  import opened Mesh
  import opened Mending
  import opened SliceRun
  import opened AnyRun
  import opened PairStates
  import opened Reconnect
  import opened Convergence

  // ----- When one pass connects the slice -----

  /** Creation over what a clean-up left succeeds with the exact mesh. */
  lemma WalkConnects(s: Slice, g: Gateways, clusters: seq<string>, cm: map<string, int>)
    requires NoDup(clusters)
    ensures var r := AddList(g, Order(clusters), BuilderOf(s, cm));
      r.ok && Exact(s, r.gws, clusters, cm) <==>
      g.Keys <= PairsOf(clusters) && WholePairs(g, Order(clusters), BuilderOf(s, cm))
  {
    AddAllIsList(g, clusters, BuilderOf(s, cm));
    if g.Keys <= PairsOf(clusters) {
      SucceedsExactly(s, g, clusters, cm);
    } else {
      WalkGrows(s, g, clusters, cm);
      var k :| k in g && k !in PairsOf(clusters);
      assert k in AddList(g, Order(clusters), BuilderOf(s, cm)).gws;
    }
  }

  /** Any pass, creating configs or not, succeeds and leaves the exact mesh exactly when the gateways that its clean-up
      keeps are all of present clusters, in whole pairs, opposite in role and built from the computed indexes. */
  lemma OnePassConnects(s: Slice, st: State, cm: map<string, int>, registered: set<string>)
    requires Consistent(s, st) && Names(st.clusters) <= registered
    ensures var g := Kept(s, st, cm);
      var r := GatewayPass(s, st.gws, st.clusters, cm, Selector(s, LastNew(st)), st.held, registered);
      r.ok && Exact(s, r.gws, st.clusters, cm) <==>
      g.Keys <= PairsOf(st.clusters) && WholePairs(g, Order(st.clusters), BuilderOf(s, cm))
  {
    PassIsList(s, st.gws, st.clusters, cm, Selector(s, LastNew(st)), st.held, registered);
    WalkConnects(s, Kept(s, st, cm), st.clusters, cm);
  }

  /** With the configs in place: exactly when the clean-up leaves nothing that is being deleted, and whole pairs of present
      clusters, opposite in role and built from present indexes. */
  lemma QuietPassConnects(s: Slice, st: State, cm: map<string, int>, l: seq<Listed>, registered: set<string>)
    requires Underway(s, st, cm) && OwnerClear(s.owner) && InPlace(st)
    requires Enabled(s, st, Pass(l, registered)) && Names(st.clusters) <= registered
    ensures var t := Tidy(st.GatewayStore(), Fit(st.clusters, cm));
      GatewayPass(s, st.gws, st.clusters, cm, Selector(s, LastNew(st)), st.held, registered).ok
      && Connected(s, Apply(s, st, Pass(l, registered)))
      <==>
      t.dying == {} && t.gws.Keys <= PairsOf(st.clusters) && WholePairs(t.gws, Order(st.clusters), BuilderOf(s, cm))
  {
    PassStore(s, st, cm, l, registered);
    QuietDrops(s, st, cm);
    PassIsList(s, st.gws, st.clusters, cm, Selector(s, LastNew(st)), st.held, registered);
    WalkConnects(s, Kept(s, st, cm), st.clusters, cm);
  }

  /** So from any moment of any run, deletions of configs completing: after a pass and any further steps, the last pass
      succeeds and connects the slice exactly when its clean-up leaves that. */
  lemma LastPassConnectsExactly(s: Slice, st: State, first: Event, es: seq<Event>, l: seq<Listed>, r: set<string>)
      returns (cm: map<string, int>)
    requires Consistent(s, st) && OwnerClear(s.owner) && Released(st)
    requires first.Pass? && Step(st.clusters, first) && Enabled(s, st, first) && StepRun(s, Apply(s, st, first), es)
    requires Enabled(s, After(s, Apply(s, st, first), es), Pass(l, r)) && Names(st.clusters) <= r
    ensures var mid := After(s, Apply(s, st, first), es);
      var t := Tidy(mid.GatewayStore(), Fit(mid.clusters, cm));
      && OctetMap(mid.configs) == cm
      && (GatewayPass(s, mid.gws, mid.clusters, cm, Selector(s, LastNew(mid)), mid.held, r).ok
          && Connected(s, Apply(s, mid, Pass(l, r)))
          <==>
          t.dying == {} && t.gws.Keys <= PairsOf(mid.clusters) && WholePairs(t.gws, Order(mid.clusters), BuilderOf(s, cm)))
  {
    cm := SomeMap(s, st);
    StepUnderway(s, st, cm, first);
    StepsUnderway(s, Apply(s, st, first), cm, es);
    QuietPassConnects(s, After(s, Apply(s, st, first), es), cm, l, r);
  }

  // ----- The repair of a stale half -----

  /** Apart from p every pair is there or not, with live and fit gateways. */
  predicate OthersRest(x: Store, fit: Test, ps: seq<GatewayKey>, p: GatewayKey) {
    forall q :: q in ps && q != p ==>
      Resting(StatusOf(x, fit, q)) && Resting(StatusOf(x, fit, Rev(q))) && !HalfThere(x.gws, q)
  }

  lemma OthersSwept(x: Store, fit: Test, ps: seq<GatewayKey>, p: GatewayKey)
    requires x.Marked() && OthersRest(x, fit, ps, p) && !HalfThere(Tidy(x, fit).gws, p)
    ensures FirstHalf(Tidy(x, fit).gws, ps).None?
  {
    FirstHalfNone(Tidy(x, fit).gws, ps);
    forall q | q in ps ensures !HalfThere(Tidy(x, fit).gws, q) {
      if q != p { assert q !in Unfit(x, fit) && Rev(q) !in Unfit(x, fit); }
    }
  }

  lemma OthersPass(x: Store, fit: Test, ps: seq<GatewayKey>, build: Builder, p: GatewayKey)
    requires x.Marked() && Oriented(ps) && BuildsFit(ps, build, fit)
    requires OthersRest(x, fit, ps, p) && !HalfThere(Tidy(x, fit).gws, p)
    ensures OthersRest(Passed(x, Unfit(x, fit), ps, build), fit, ps, p)
    ensures p in ps ==> p in Passed(x, Unfit(x, fit), ps, build).gws && Rev(p) in Passed(x, Unfit(x, fit), ps, build).gws
  {
    OthersSwept(x, fit, ps, p);
    AddListEffect(Tidy(x, fit).gws, ps, build);
    forall q | q in ps && q != p
      ensures Resting(StatusOf(Passed(x, Unfit(x, fit), ps, build), fit, q))
      ensures Resting(StatusOf(Passed(x, Unfit(x, fit), ps, build), fit, Rev(q)))
    {
      PassView(x, fit, Unfit(x, fit), ps, build, q);
    }
  }

  lemma OthersTurn(x: Store, clusters: seq<string>, fit: Test, ps: seq<GatewayKey>, p: GatewayKey, k: GatewayKey)
    requires Oriented(ps) && p in ps && k in {p, Rev(p)} && OthersRest(x, fit, ps, p)
    ensures OthersRest(Turned(x, clusters, k), fit, ps, p)
  {
    var y := Turned(x, clusters, k);
    forall q | q in ps && q != p
      ensures StatusOf(y, fit, q) == StatusOf(x, fit, q) && StatusOf(y, fit, Rev(q)) == StatusOf(x, fit, Rev(q))
    {
      assert Rev(Rev(p)) == p && Rev(Rev(q)) == q && q != Rev(p);
      TurnViewAway(x, clusters, fit, k, q);
      TurnViewAway(x, clusters, fit, k, Rev(q));
    }
  }

  /** The pass deletes the stale half, */
  lemma HalfPass(x: Store, fit: Test, ps: seq<GatewayKey>, build: Builder, p: GatewayKey)
    requires x.Marked() && Oriented(ps) && BuildsFit(ps, build, fit) && KeepsRole(build) && p in ps
    requires StatusOf(x, fit, p) in {Fresh, Firm} && StatusOf(x, fit, Rev(p)) == Owed && OthersRest(x, fit, ps, p)
    ensures var y := Passed(x, Unfit(x, fit), ps, build);
      && y.Marked() && StatusOf(y, fit, p) in {Fresh, Firm} && StatusOf(y, fit, Rev(p)) == Dying
      && OthersRest(y, fit, ps, p)
  {
    PassView(x, fit, Unfit(x, fit), ps, build, p);
    AddListBuilt(Tidy(x, fit).gws, ps, build);
    OthersPass(x, fit, ps, build, p);
  }

  /** and its turn takes both gateways away. */
  lemma HalfTurns(x: Store, clusters: seq<string>, fit: Test, ps: seq<GatewayKey>, p: GatewayKey)
    requires x.Marked() && Oriented(ps) && p in ps && p.1 in clusters && OthersRest(x, fit, ps, p)
    requires StatusOf(x, fit, p) in {Fresh, Firm} && StatusOf(x, fit, Rev(p)) == Dying
    ensures var y := Turned(Turned(x, clusters, Rev(p)), clusters, p);
      y.Marked() && p !in y.gws && Rev(p) !in y.gws && OthersRest(y, fit, ps, p)
  {
    var x' := Turned(x, clusters, Rev(p));
    assert Rev(Rev(p)) == p && p.0 != p.1;
    TurnedFacts(x, clusters, Rev(p));
    TurnView(x, clusters, fit, Rev(p));
    OthersTurn(x, clusters, fit, ps, p, Rev(p));
    TurnedFacts(x', clusters, p);
    TurnView(x', clusters, fit, p);
    OthersTurn(x', clusters, fit, ps, p, p);
  }

  /** The next pass makes the pair anew. */
  lemma AnewPass(x: Store, fit: Test, ps: seq<GatewayKey>, build: Builder, p: GatewayKey)
    requires x.Marked() && Oriented(ps) && BuildsFit(ps, build, fit) && p in ps
    requires p !in x.gws && Rev(p) !in x.gws && OthersRest(x, fit, ps, p)
    ensures var y := Passed(x, Unfit(x, fit), ps, build);
      && p in y.gws && y.gws[p] == build(p.0, p.1, Server) && p !in y.dying
      && Rev(p) in y.gws && y.gws[Rev(p)] == build(p.1, p.0, Client) && Rev(p) !in y.dying
  {
    OthersPass(x, fit, ps, build, p);
    PassView(x, fit, Unfit(x, fit), ps, build, p);
  }

  /** A pass, and the turns of the two gateways of a pair. */
  function AfterTurns(s: Slice, st: State, l: seq<Listed>, r: set<string>, p: GatewayKey): State {
    Apply(s, Apply(s, Apply(s, st, Pass(l, r)), Turn(Rev(p))), Turn(p))
  }

  lemma TurnsTake(s: Slice, st: State, cm: map<string, int>, l: seq<Listed>, r: set<string>, p: GatewayKey)
    requires Underway(s, st, cm) && OwnerClear(s.owner) && InPlace(st) && p in Order(st.clusters)
    requires StatusAt(st, cm, p) in {Fresh, Firm} && StatusAt(st, cm, Rev(p)) == Owed
    requires OthersRest(st.GatewayStore(), Fit(st.clusters, cm), Order(st.clusters), p)
    requires Enabled(s, st, Pass(l, r)) && Names(st.clusters) <= r
    ensures var mid := AfterTurns(s, st, l, r, p);
      && Underway(s, mid, cm) && mid.clusters == st.clusters && InPlace(mid)
      && p !in mid.gws && Rev(p) !in mid.gws
      && OthersRest(mid.GatewayStore(), Fit(st.clusters, cm), Order(st.clusters), p)
  {
    var st1 := Apply(s, st, Pass(l, r));
    var st2 := Apply(s, st1, Turn(Rev(p)));
    PassStore(s, st, cm, l, r);
    QuietDrops(s, st, cm);
    StepUnderway(s, st, cm, Pass(l, r));
    StepUnderway(s, st1, cm, Turn(Rev(p)));
    StepUnderway(s, st2, cm, Turn(p));
    OrderFacts(st.clusters);
    assert p in PairsOf(st.clusters);
    BuilderFits(s, st.clusters, cm);
    HalfPass(st.GatewayStore(), Fit(st.clusters, cm), Order(st.clusters), BuilderOf(s, cm), p);
    HalfTurns(st1.GatewayStore(), st.clusters, Fit(st.clusters, cm), Order(st.clusters), p);
  }

  /** A pair with its forward gateway beside an obsolete other one that has its finalizer: after a pass, the turns of the
      two and another pass it is whole, both gateways live and built from present indexes, if no other pair is half. */
  lemma StaleHalfHeals(s: Slice, st: State, cm: map<string, int>, l: seq<Listed>, l': seq<Listed>, r: set<string>,
                       p: GatewayKey)
    requires Underway(s, st, cm) && OwnerClear(s.owner) && InPlace(st) && p in Order(st.clusters)
    requires StatusAt(st, cm, p) in {Fresh, Firm} && StatusAt(st, cm, Rev(p)) == Owed
    requires OthersRest(st.GatewayStore(), Fit(st.clusters, cm), Order(st.clusters), p)
    requires Enabled(s, st, Pass(l, r)) && Enabled(s, AfterTurns(s, st, l, r, p), Pass(l', r)) && Names(st.clusters) <= r
    ensures var end := Apply(s, AfterTurns(s, st, l, r, p), Pass(l', r));
      && p in end.gws && end.gws[p] == Make(s, p.0, p.1, Server, cm) && p !in end.dying
      && Rev(p) in end.gws && end.gws[Rev(p)] == Make(s, p.1, p.0, Client, cm) && Rev(p) !in end.dying
  {
    TurnsTake(s, st, cm, l, r, p);
    var mid := AfterTurns(s, st, l, r, p);
    PassStore(s, mid, cm, l', r);
    QuietDrops(s, mid, cm);
    BuilderFits(s, st.clusters, cm);
    AnewPass(mid.GatewayStore(), Fit(st.clusters, cm), Order(st.clusters), BuilderOf(s, cm), p);
  }

  lemma StalePass(x: Store, fit: Test, ps: seq<GatewayKey>, build: Builder, p: GatewayKey)
    requires x.Marked() && Oriented(ps) && BuildsFit(ps, build, fit) && p in ps
    requires StatusOf(x, fit, p) in {Fresh, Firm} && StatusOf(x, fit, Rev(p)) == Stale
    ensures HalfThere(Tidy(x, fit).gws, p)
    ensures var y := Passed(x, Unfit(x, fit), ps, build);
      StatusOf(y, fit, p) == StatusOf(x, fit, p) && StatusOf(y, fit, Rev(p)) == Absent
  {
    assert Rev(p) in Unfit(x, fit) && p !in Unfit(x, fit);
    assert StatusOf(Tidy(x, fit), fit, Rev(p)) == Absent && StatusOf(Tidy(x, fit), fit, p) == StatusOf(x, fit, p);
    SweptStatus(x, fit, Unfit(x, fit), p);
    FilledStatus(Tidy(x, fit), fit, ps, build, p);
  }

  /** If the obsolete one has no finalizer yet, the next pass takes it away at once, leaves the forward one alone, and
      creates nothing behind it. */
  lemma StaleHalfWedges(s: Slice, st: State, cm: map<string, int>, l: seq<Listed>, r: set<string>, p: GatewayKey)
    requires Underway(s, st, cm) && OwnerClear(s.owner) && InPlace(st) && p in Order(st.clusters)
    requires StatusAt(st, cm, p) in {Fresh, Firm} && StatusAt(st, cm, Rev(p)) == Stale
    requires Enabled(s, st, Pass(l, r)) && Names(st.clusters) <= r
    ensures Stuck(Apply(s, st, Pass(l, r)), cm, p)
    ensures forall q :: Precedes(Order(st.clusters), p, q) && q !in st.gws ==> q !in Apply(s, st, Pass(l, r)).gws
  {
    var x, fit := st.GatewayStore(), Fit(st.clusters, cm);
    PassStore(s, st, cm, l, r);
    QuietDrops(s, st, cm);
    BuilderFits(s, st.clusters, cm);
    StalePass(x, fit, Order(st.clusters), BuilderOf(s, cm), p);
    forall q | Precedes(Order(st.clusters), p, q) && q !in st.gws ensures q !in Apply(s, st, Pass(l, r)).gws {
      AbsentPass(x, Unfit(x, fit), Order(st.clusters), BuilderOf(s, cm), p, q, q);
    }
  }
}
