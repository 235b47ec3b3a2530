/** What becomes of a slice once its list stays as it is: which states passes and turns connect in some order, which in
    every order, and which half pairs stay. */
module Convergence {
  import opened Text
  import opened Ipam
  import opened SliceStore
  import opened Mesh
  import opened Mending
  import opened SliceRun
  import opened AnyRun
  import opened PairStates
  import opened Reconnect

  // ----- In some order -----

  predicate GuardedAt(st: State, cm: map<string, int>) {
    Guarded(st.GatewayStore(), Fit(st.clusters, cm))
  }

  /** Turns give every obsolete gateway its finalizer, and wedge nothing. */
  lemma {:induction false} HoldAll(s: Slice, st: State, cm: map<string, int>) returns (es: seq<Event>)
    requires Underway(s, st, cm)
    ensures StepRun(s, st, es)
    ensures var end := After(s, st, es);
      && Underway(s, end, cm) && end.clusters == st.clusters && GuardedAt(end, cm)
      && (forall p :: p in Order(st.clusters) && WedgedAt(s, end, cm, p) ==> WedgedAt(s, st, cm, p))
    decreases st.gws.Keys - st.held
  {
    if GuardedAt(st, cm) {
      es := [];
    } else {
      var k :| k in st.gws && !Fit(st.clusters, cm)(st.gws[k]) && k !in st.held;
      var e := Turn(k);
      var st' := Apply(s, st, e);
      StepUnderway(s, st, cm, e);
      assert st' == st.(held := st.held + {k});
      var rest := HoldAll(s, st', cm);
      forall p | p in Order(st.clusters) && WedgedAt(s, st', cm, p) ensures WedgedAt(s, st, cm, p) {
        TurnNotWedges(s, st, cm, k, p);
      }
      es := StepFirst(s, st, e, rest);
    }
  }

  lemma TurnNotWedges(s: Slice, st: State, cm: map<string, int>, k: GatewayKey, p: GatewayKey)
    requires Underway(s, st, cm) && p in Order(st.clusters)
    ensures WedgedAt(s, Apply(s, st, Turn(k)), cm, p) ==> WedgedAt(s, st, cm, p)
  {
    OrderFacts(st.clusters);
    assert p in PairsOf(st.clusters);
    TurnUnwedged(st.GatewayStore(), st.clusters, Fit(st.clusters, cm), BuilderOf(s, cm), k, p);
  }

  /** With a finalizer on every obsolete gateway no step wedges a pair. */
  lemma GuardedStep(s: Slice, st: State, cm: map<string, int>, e: Event, p: GatewayKey)
    requires Underway(s, st, cm) && Step(st.clusters, e) && Enabled(s, st, e) && GuardedAt(st, cm)
    requires p in Order(st.clusters)
    ensures GuardedAt(Apply(s, st, e), cm)
    ensures WedgedAt(s, Apply(s, st, e), cm, p) ==> WedgedAt(s, st, cm, p)
  {
    var x, fit, build := st.GatewayStore(), Fit(st.clusters, cm), BuilderOf(s, cm);
    if e.Pass? {
      BuilderFits(s, st.clusters, cm);
      PassStore(s, st, cm, e.l, e.registered);
      GuardedKept(x, fit, Dropped(s, st, cm), Order(st.clusters), build);
      GuardedPass(x, fit, Dropped(s, st, cm), Order(st.clusters), build, p);
    } else {
      GuardedTurn(x, st.clusters, fit, e.gateway);
      TurnNotWedges(s, st, cm, e.gateway, p);
    }
  }

  lemma {:induction false} GuardedRun(s: Slice, st: State, cm: map<string, int>, es: seq<Event>, p: GatewayKey)
    requires Underway(s, st, cm) && GuardedAt(st, cm) && StepRun(s, st, es) && p in Order(st.clusters)
    ensures var end := After(s, st, es);
      && Underway(s, end, cm) && end.clusters == st.clusters && GuardedAt(end, cm)
      && (WedgedAt(s, end, cm, p) ==> WedgedAt(s, st, cm, p))
  {
    if es != [] {
      var front, e := es[..|es| - 1], es[|es| - 1];
      GuardedRun(s, st, cm, front, p);
      StepUnderway(s, After(s, st, front), cm, e);
      GuardedStep(s, After(s, st, front), cm, e, p);
    }
  }

  /** So once every obsolete gateway has its finalizer, whatever order the steps come in: if no pair is wedged none ever is,
      and the slice is connected whenever it comes to rest. */
  lemma GuardedConnects(s: Slice, st: State, cm: map<string, int>, es: seq<Event>)
    requires Underway(s, st, cm) && OwnerClear(s.owner) && GuardedAt(st, cm) && WedgeFree(s, st, cm)
    requires StepRun(s, st, es)
    ensures var end := After(s, st, es); WedgeFree(s, end, cm) && (Still(s, end) ==> Connected(s, end))
  {
    StepsUnderway(s, st, cm, es);
    forall p | p in Order(st.clusters) ensures !WedgedAt(s, After(s, st, es), cm, p) {
      GuardedRun(s, st, cm, es, p);
    }
    if Still(s, After(s, st, es)) { StillConnected(s, After(s, st, es), cm); }
  }

  /** Some passes and turns. */
  ghost predicate CanConnect(s: Slice, st: State) {
    exists es :: StepRun(s, st, es) && Connected(s, After(s, st, es))
  }

  lemma ConnectingRun(s: Slice, st: State, cm: map<string, int>)
    requires Underway(s, st, cm) && OwnerClear(s.owner) && WedgeFree(s, st, cm)
    ensures CanConnect(s, st)
  {
    var es := HoldAll(s, st, cm);
    var mid := After(s, st, es);
    var names := SomeSpan(s, mid);
    var fs := Settle(s, names, mid, cm);
    GuardedConnects(s, mid, cm, fs);
    var all := Joined(s, st, es, fs);
  }

  /** Some passes and turns connect the slice exactly when no pair is wedged. */
  lemma ConnectsExactly(s: Slice, st: State, cm: map<string, int>)
    requires Underway(s, st, cm) && OwnerClear(s.owner)
    ensures CanConnect(s, st) <==> WedgeFree(s, st, cm)
  {
    if WedgeFree(s, st, cm) {
      ConnectingRun(s, st, cm);
    } else {
      var p :| p in Order(st.clusters) && WedgedAt(s, st, cm, p);
      forall es | StepRun(s, st, es) ensures !Connected(s, After(s, st, es)) {
        WedgedForGood(s, st, cm, es, p);
      }
    }
  }

  // ----- In every order -----

  /** No pair is wedged after the next clean-up. */
  ghost predicate Safe(s: Slice, st: State, cm: map<string, int>) {
    forall p :: p in Order(st.clusters) ==>
      !Wedged(Tidy(st.GatewayStore(), Fit(st.clusters, cm)), Fit(st.clusters, cm), BuilderOf(s, cm), p)
  }

  lemma SafeStep(s: Slice, st: State, cm: map<string, int>, e: Event)
    requires Underway(s, st, cm) && OwnerClear(s.owner) && InPlace(st) && Step(st.clusters, e) && Enabled(s, st, e)
    requires Safe(s, st, cm)
    ensures Safe(s, Apply(s, st, e), cm)
  {
    var x, fit, build := st.GatewayStore(), Fit(st.clusters, cm), BuilderOf(s, cm);
    BuilderFits(s, st.clusters, cm);
    if e.Pass? {
      PassStore(s, st, cm, e.l, e.registered);
      QuietDrops(s, st, cm);
    }
    OrderFacts(st.clusters);
    forall p | p in Order(st.clusters) ensures !Wedged(Tidy(Apply(s, st, e).GatewayStore(), fit), fit, build, p) {
      assert p in PairsOf(st.clusters) && !Wedged(Tidy(x, fit), fit, build, p);
      if e.Pass? { TidyPass(x, fit, Order(st.clusters), build, p); } else { TidyTurn(x, st.clusters, fit, build, e.gateway, p); }
    }
  }

  lemma {:induction false} SafeKept(s: Slice, st: State, cm: map<string, int>, es: seq<Event>)
    requires Underway(s, st, cm) && OwnerClear(s.owner) && InPlace(st) && Safe(s, st, cm) && StepRun(s, st, es)
    ensures var end := After(s, st, es);
      Underway(s, end, cm) && end.clusters == st.clusters && InPlace(end) && Safe(s, end, cm)
  {
    if es != [] {
      var front, e := es[..|es| - 1], es[|es| - 1];
      SafeKept(s, st, cm, front);
      StepUnderway(s, After(s, st, front), cm, e);
      SafeStep(s, After(s, st, front), cm, e);
    }
  }

  lemma SafeStill(s: Slice, st: State, cm: map<string, int>)
    requires Underway(s, st, cm) && OwnerClear(s.owner) && Safe(s, st, cm) && Still(s, st)
    ensures Connected(s, st)
  {
    StillStore(s, st, cm);
    TidySame(st.GatewayStore(), Fit(st.clusters, cm));
    StillConnected(s, st, cm);
  }

  /** Every run of passes and turns that comes to rest leaves the slice connected. */
  ghost predicate MustConnect(s: Slice, st: State) {
    forall es :: StepRun(s, st, es) && Still(s, After(s, st, es)) ==>
      Connected(s, After(s, st, es))
  }

  /** The next pass, whatever list it sees. */
  lemma NextPass(s: Slice, st: State, cm: map<string, int>) returns (e: Event)
    requires Underway(s, st, cm) && OwnerClear(s.owner) && InPlace(st)
    ensures Step(st.clusters, e) && Enabled(s, st, e)
    ensures var x, fit, st' := st.GatewayStore(), Fit(st.clusters, cm), Apply(s, st, e);
      && Underway(s, st', cm) && st'.clusters == st.clusters && InPlace(st')
      && st'.GatewayStore() == Passed(x, Unfit(x, fit), Order(st.clusters), BuilderOf(s, cm))
  {
    var l := SomeEnumeration(CleanUp(st.configs, st.clusters));
    e := Pass(l, Names(st.clusters));
    StepUnderway(s, st, cm, e);
    PassStore(s, st, cm, l, Names(st.clusters));
    QuietDrops(s, st, cm);
  }

  lemma UnsafePass(s: Slice, st: State, cm: map<string, int>, p: GatewayKey) returns (e: Event)
    requires Underway(s, st, cm) && OwnerClear(s.owner) && InPlace(st) && p in Order(st.clusters)
    requires Wedged(Tidy(st.GatewayStore(), Fit(st.clusters, cm)), Fit(st.clusters, cm), BuilderOf(s, cm), p)
    ensures Step(st.clusters, e) && Enabled(s, st, e)
    ensures var st' := Apply(s, st, e); Underway(s, st', cm) && st'.clusters == st.clusters && WedgedAt(s, st', cm, p)
  {
    e := NextPass(s, st, cm);
    BuilderFits(s, st.clusters, cm);
    TidyPass(st.GatewayStore(), Fit(st.clusters, cm), Order(st.clusters), BuilderOf(s, cm), p);
  }

  /** A pass over an unsafe state wedges a pair, and so may lead to a rest apart. */
  lemma UnsafeRun(s: Slice, st: State, cm: map<string, int>, p: GatewayKey) returns (es: seq<Event>)
    requires Underway(s, st, cm) && OwnerClear(s.owner) && InPlace(st) && p in Order(st.clusters)
    requires Wedged(Tidy(st.GatewayStore(), Fit(st.clusters, cm)), Fit(st.clusters, cm), BuilderOf(s, cm), p)
    ensures StepRun(s, st, es)
    ensures Still(s, After(s, st, es)) && !Connected(s, After(s, st, es))
  {
    var e := UnsafePass(s, st, cm, p);
    var rest := RestApart(s, Apply(s, st, e), cm, p);
    es := StepFirst(s, st, e, rest);
  }

  lemma RestApart(s: Slice, st: State, cm: map<string, int>, p: GatewayKey) returns (es: seq<Event>)
    requires Underway(s, st, cm) && p in Order(st.clusters) && WedgedAt(s, st, cm, p)
    ensures StepRun(s, st, es)
    ensures Still(s, After(s, st, es)) && !Connected(s, After(s, st, es))
  {
    var names := SomeSpan(s, st);
    es := Settle(s, names, st, cm);
    WedgedForGood(s, st, cm, es, p);
  }

  /** With the configs in place, passes and turns connect the slice in whatever order they come exactly when the next
      clean-up leaves no pair wedged. */
  lemma MustConnectExactly(s: Slice, st: State, cm: map<string, int>)
    requires Underway(s, st, cm) && OwnerClear(s.owner) && InPlace(st)
    ensures MustConnect(s, st) <==> Safe(s, st, cm)
  {
    if Safe(s, st, cm) {
      forall es | StepRun(s, st, es) && Still(s, After(s, st, es))
        ensures Connected(s, After(s, st, es))
      {
        SafeKept(s, st, cm, es);
        SafeStill(s, After(s, st, es), cm);
      }
    } else {
      var p :| p in Order(st.clusters) &&
        Wedged(Tidy(st.GatewayStore(), Fit(st.clusters, cm)), Fit(st.clusters, cm), BuilderOf(s, cm), p);
      var es := UnsafeRun(s, st, cm, p);
    }
  }

  /** At any moment of any run of an admitted slice, deletions of configs completing. */
  lemma RunConnects(s: Slice, clusters: seq<string>, es: seq<Event>) returns (cm: map<string, int>)
    requires s.Valid() && Admitted(s, clusters) && IsRun(s, Created(clusters), es)
    requires Released(After(s, Created(clusters), es))
    ensures var st := After(s, Created(clusters), es);
      && Underway(s, st, cm)
      && (CanConnect(s, st) <==> WedgeFree(s, st, cm))
      && (InPlace(st) ==> (MustConnect(s, st) <==> Safe(s, st, cm)))
  {
    var st := After(s, Created(clusters), es);
    ValidOwner(s);
    RunConsistent(s, clusters, es);
    cm := SomeMap(s, st);
    ConnectsExactly(s, st, cm);
    if InPlace(st) { MustConnectExactly(s, st, cm); }
  }

  // ----- Half pairs -----

  function StatusAt(st: State, cm: map<string, int>, k: GatewayKey): Status {
    StatusOf(st.GatewayStore(), Fit(st.clusters, cm), k)
  }

  /** The forward gateway of the pair is live and fit, and the other one is not there. */
  predicate Stuck(st: State, cm: map<string, int>, q: GatewayKey) {
    StatusAt(st, cm, q) in {Fresh, Firm} && StatusAt(st, cm, Rev(q)) == Absent
  }

  /** The one gateway of the pair is live and fit, and it is the forward one, or an earlier pair stops the loops. */
  ghost predicate HalfStuck(st: State, cm: map<string, int>, p: GatewayKey) {
    && HalfThere(st.gws, p) && Resting(StatusAt(st, cm, p)) && Resting(StatusAt(st, cm, Rev(p)))
    && (p in st.gws || exists q :: Precedes(Order(st.clusters), q, p) && Stuck(st, cm, q))
  }

  lemma StuckPass(x: Store, fit: Test, dropped: set<GatewayKey>, ps: seq<GatewayKey>, build: Builder, q: GatewayKey)
    requires x.Marked() && Drops(x, fit, dropped) && Oriented(ps) && BuildsFit(ps, build, fit) && q in ps
    requires StatusOf(x, fit, q) in {Fresh, Firm} && StatusOf(x, fit, Rev(q)) == Absent
    ensures SameView(x, Passed(x, dropped, ps, build), fit, q)
  {
    PassView(x, fit, dropped, ps, build, q);
  }

  /** A turn leaves resting gateways where they are. */
  lemma RestingTurn(x: Store, clusters: seq<string>, fit: Test, j: GatewayKey, k: GatewayKey)
    requires x.Marked() && k.0 != k.1 && Resting(StatusOf(x, fit, k)) && Resting(StatusOf(x, fit, Rev(k)))
    ensures StatusOf(Turned(x, clusters, j), fit, k) in {StatusOf(x, fit, k), Finalized(StatusOf(x, fit, k))}
  {
    assert Rev(Rev(k)) == k && Rev(Rev(j)) == j;
    if j == k || j == Rev(k) { TurnView(x, clusters, fit, j); } else { TurnViewAway(x, clusters, fit, j, k); }
  }

  lemma StuckStep(s: Slice, st: State, cm: map<string, int>, e: Event, q: GatewayKey)
    requires Underway(s, st, cm) && Step(st.clusters, e) && Enabled(s, st, e)
    requires q in Order(st.clusters) && Stuck(st, cm, q)
    ensures Stuck(Apply(s, st, e), cm, q)
  {
    var x, fit := st.GatewayStore(), Fit(st.clusters, cm);
    BuilderFits(s, st.clusters, cm);
    if e.Pass? {
      PassStore(s, st, cm, e.l, e.registered);
      StuckPass(x, fit, Dropped(s, st, cm), Order(st.clusters), BuilderOf(s, cm), q);
    } else {
      assert Rev(Rev(q)) == q;
      RestingTurn(x, st.clusters, fit, e.gateway, q);
      RestingTurn(x, st.clusters, fit, e.gateway, Rev(q));
    }
  }

  /** The pair has its backward gateway only, live and fit. */
  predicate Backward(st: State, cm: map<string, int>, p: GatewayKey) {
    StatusAt(st, cm, p) == Absent && StatusAt(st, cm, Rev(p)) in {Fresh, Firm}
  }

  lemma BehindPass(x: Store, fit: Test, dropped: set<GatewayKey>, ps: seq<GatewayKey>, build: Builder,
                   q: GatewayKey, p: GatewayKey)
    requires x.Marked() && Drops(x, fit, dropped) && Oriented(ps) && BuildsFit(ps, build, fit) && Precedes(ps, q, p)
    requires StatusOf(x, fit, q) in {Fresh, Firm} && StatusOf(x, fit, Rev(q)) == Absent
    requires StatusOf(x, fit, p) == Absent && StatusOf(x, fit, Rev(p)) in {Fresh, Firm}
    ensures SameView(x, Passed(x, dropped, ps, build), fit, p)
  {
    var g := Swept(x, dropped).gws;
    assert HalfThere(g, q) && p !in g && Rev(p) in g;
    AddListStops(g, ps, build, q, p);
    PassView(x, fit, dropped, ps, build, p);
  }

  /** The backward half of a pair behind a stuck one stays alone. */
  lemma BehindStep(s: Slice, st: State, cm: map<string, int>, e: Event, q: GatewayKey, p: GatewayKey)
    requires Underway(s, st, cm) && Step(st.clusters, e) && Enabled(s, st, e)
    requires Precedes(Order(st.clusters), q, p) && Stuck(st, cm, q) && Backward(st, cm, p)
    ensures Backward(Apply(s, st, e), cm, p)
  {
    var x, fit, ps, build := st.GatewayStore(), Fit(st.clusters, cm), Order(st.clusters), BuilderOf(s, cm);
    BuilderFits(s, st.clusters, cm);
    if e.Pass? {
      PassStore(s, st, cm, e.l, e.registered);
      BehindPass(x, fit, Dropped(s, st, cm), ps, build, q, p);
    } else {
      assert Rev(Rev(p)) == p && p in ps && p.0 != p.1;
      RestingTurn(x, st.clusters, fit, e.gateway, p);
      RestingTurn(x, st.clusters, fit, e.gateway, Rev(p));
    }
  }

  /** A pass creates nothing behind a pair that its clean-up leaves half. */
  lemma AbsentPass(x: Store, dropped: set<GatewayKey>, ps: seq<GatewayKey>, build: Builder,
                   q: GatewayKey, p: GatewayKey, k: GatewayKey)
    requires Oriented(ps) && Precedes(ps, q, p) && HalfThere(Swept(x, dropped).gws, q)
    requires k in {p, Rev(p)} && k !in x.gws
    ensures k !in Passed(x, dropped, ps, build).gws
  {
    AddListStops(Swept(x, dropped).gws, ps, build, q, p);
  }

  lemma StuckSwept(x: Store, fit: Test, dropped: set<GatewayKey>, q: GatewayKey)
    requires Drops(x, fit, dropped) && StatusOf(x, fit, q) in {Fresh, Firm} && StatusOf(x, fit, Rev(q)) == Absent
    ensures HalfThere(Swept(x, dropped).gws, q)
  {
  }

  lemma AbsentStep(s: Slice, st: State, cm: map<string, int>, e: Event, q: GatewayKey, p: GatewayKey, k: GatewayKey)
    requires Underway(s, st, cm) && Step(st.clusters, e) && Enabled(s, st, e)
    requires Precedes(Order(st.clusters), q, p) && Stuck(st, cm, q) && k in {p, Rev(p)} && k !in st.gws
    ensures k !in Apply(s, st, e).gws
  {
    if e.Pass? {
      BuilderFits(s, st.clusters, cm);
      PassStore(s, st, cm, e.l, e.registered);
      StuckSwept(st.GatewayStore(), Fit(st.clusters, cm), Dropped(s, st, cm), q);
      AbsentPass(st.GatewayStore(), Dropped(s, st, cm), Order(st.clusters), BuilderOf(s, cm), q, p, k);
    } else {
      TurnedFacts(st.GatewayStore(), st.clusters, e.gateway);
    }
  }

  /** Behind a stuck pair no gateway is ever created. */
  lemma {:induction false} NothingBehind(s: Slice, st: State, cm: map<string, int>, es: seq<Event>,
                                         q: GatewayKey, p: GatewayKey, k: GatewayKey)
    requires Underway(s, st, cm) && StepRun(s, st, es)
    requires Precedes(Order(st.clusters), q, p) && Stuck(st, cm, q) && k in {p, Rev(p)} && k !in st.gws
    ensures k !in After(s, st, es).gws
  {
    if es != [] {
      var front, e := es[..|es| - 1], es[|es| - 1];
      NothingBehind(s, st, cm, front, q, p, k);
      ForwardStays(s, st, cm, front, q);
      AbsentStep(s, After(s, st, front), cm, e, q, p, k);
    }
  }

  /** Whatever the order of the steps, only one gateway of the pair is ever there. */
  ghost predicate StaysHalf(s: Slice, st: State, p: GatewayKey) {
    forall es :: StepRun(s, st, es) ==> HalfThere(After(s, st, es).gws, p)
  }

  lemma {:induction false} ForwardStays(s: Slice, st: State, cm: map<string, int>, es: seq<Event>, p: GatewayKey)
    requires Underway(s, st, cm) && StepRun(s, st, es)
    requires p in Order(st.clusters) && Stuck(st, cm, p)
    ensures var end := After(s, st, es); Underway(s, end, cm) && end.clusters == st.clusters && Stuck(end, cm, p)
  {
    if es != [] {
      var front, e := es[..|es| - 1], es[|es| - 1];
      ForwardStays(s, st, cm, front, p);
      StepUnderway(s, After(s, st, front), cm, e);
      StuckStep(s, After(s, st, front), cm, e, p);
    }
  }

  lemma {:induction false} BehindStays(s: Slice, st: State, cm: map<string, int>, es: seq<Event>,
                                       q: GatewayKey, p: GatewayKey)
    requires Underway(s, st, cm) && StepRun(s, st, es)
    requires Precedes(Order(st.clusters), q, p) && Stuck(st, cm, q) && Backward(st, cm, p)
    ensures Backward(After(s, st, es), cm, p)
  {
    if es != [] {
      var front, e := es[..|es| - 1], es[|es| - 1];
      BehindStays(s, st, cm, front, q, p);
      ForwardStays(s, st, cm, front, q);
      BehindStep(s, After(s, st, front), cm, e, q, p);
    }
  }

  lemma HalfIs(st: State, cm: map<string, int>, p: GatewayKey)
    ensures Stuck(st, cm, p) <==> p in st.gws && Rev(p) !in st.gws && Resting(StatusAt(st, cm, p))
    ensures Backward(st, cm, p) <==> p !in st.gws && Rev(p) in st.gws && Resting(StatusAt(st, cm, Rev(p)))
  {
  }

  lemma HalfStuckStays(s: Slice, st: State, cm: map<string, int>, es: seq<Event>, p: GatewayKey)
    requires Underway(s, st, cm) && p in Order(st.clusters) && HalfStuck(st, cm, p)
    requires StepRun(s, st, es)
    ensures HalfThere(After(s, st, es).gws, p)
  {
    HalfIs(st, cm, p);
    HalfIs(After(s, st, es), cm, p);
    if p in st.gws {
      ForwardStays(s, st, cm, es, p);
    } else {
      var q :| Precedes(Order(st.clusters), q, p) && Stuck(st, cm, q);
      BehindStays(s, st, cm, es, q, p);
    }
  }

  // A half pair whose gateway is obsolete or being deleted can be emptied.

  /** The turn of the one gateway that is being deleted empties the pair. */
  lemma DyingTurn(s: Slice, st: State, cm: map<string, int>, k: GatewayKey)
    requires Underway(s, st, cm) && k.0 != k.1 && StatusAt(st, cm, k) == Dying && Rev(k) !in st.gws
    ensures var st' := Apply(s, st, Turn(k)); k !in st'.gws && Rev(k) !in st'.gws
  {
    TurnView(st.GatewayStore(), st.clusters, Fit(st.clusters, cm), k);
  }

  /** After a pass over a pair whose one gateway is obsolete it is no longer half, or that gateway is being deleted. */
  lemma ObsoletePass(x: Store, fit: Test, ps: seq<GatewayKey>, build: Builder, p: GatewayKey, k: GatewayKey)
    requires x.Marked() && Oriented(ps) && BuildsFit(ps, build, fit) && p in ps && k in {p, Rev(p)}
    requires StatusOf(x, fit, k) in {Stale, Owed} && Rev(k) !in x.gws
    ensures var y := Passed(x, Unfit(x, fit), ps, build);
      !HalfThere(y.gws, p) || (StatusOf(y, fit, k) == Dying && Rev(k) !in y.gws)
  {
    PassView(x, fit, Unfit(x, fit), ps, build, p);
    assert Rev(Rev(p)) == p && k in Unfit(x, fit) && p.0 != p.1;
  }

  lemma DyingRun(s: Slice, st: State, cm: map<string, int>, p: GatewayKey, k: GatewayKey) returns (es: seq<Event>)
    requires Underway(s, st, cm) && p.0 != p.1 && k in {p, Rev(p)} && Rev(k) !in st.gws && StatusAt(st, cm, k) == Dying
    ensures StepRun(s, st, es) && !HalfThere(After(s, st, es).gws, p)
  {
    DyingTurn(s, st, cm, k);
    RunOne(s, st, Turn(k));
    assert Rev(Rev(p)) == p;
    es := [Turn(k)];
  }

  /** The pass that finds a half pair with an obsolete gateway. */
  lemma ObsoleteStep(s: Slice, st: State, cm: map<string, int>, p: GatewayKey, k: GatewayKey) returns (e: Event)
    requires Underway(s, st, cm) && OwnerClear(s.owner) && InPlace(st) && p in Order(st.clusters)
    requires k in {p, Rev(p)} && Rev(k) !in st.gws && StatusAt(st, cm, k) in {Stale, Owed}
    ensures Step(st.clusters, e) && Enabled(s, st, e)
    ensures var st' := Apply(s, st, e);
      && Underway(s, st', cm) && st'.clusters == st.clusters
      && (!HalfThere(st'.gws, p) || (StatusAt(st', cm, k) == Dying && Rev(k) !in st'.gws))
  {
    e := NextPass(s, st, cm);
    BuilderFits(s, st.clusters, cm);
    ObsoletePass(st.GatewayStore(), Fit(st.clusters, cm), Order(st.clusters), BuilderOf(s, cm), p, k);
  }

  lemma EmptyingRun(s: Slice, st: State, cm: map<string, int>, p: GatewayKey, k: GatewayKey) returns (es: seq<Event>)
    requires Underway(s, st, cm) && OwnerClear(s.owner) && InPlace(st) && p in Order(st.clusters)
    requires k in {p, Rev(p)} && Rev(k) !in st.gws && StatusAt(st, cm, k) in {Stale, Owed}
    ensures StepRun(s, st, es) && !HalfThere(After(s, st, es).gws, p)
  {
    var e := ObsoleteStep(s, st, cm, p, k);
    OrderFacts(st.clusters);
    if HalfThere(Apply(s, st, e).gws, p) {
      var rest := DyingRun(s, Apply(s, st, e), cm, p, k);
      es := StepFirst(s, st, e, rest);
    } else {
      RunOne(s, st, e);
      es := [e];
    }
  }

  // A half pair with its backward gateway only is completed once the loops reach it.

  lemma {:induction false} BackStays(s: Slice, st: State, cm: map<string, int>, es: seq<Event>, q: GatewayKey)
    requires Underway(s, st, cm) && StepRun(s, st, es) && q in Order(st.clusters)
    requires WedgedAt(s, st, cm, q) && Rev(q) in st.gws
    ensures WedgedAt(s, After(s, st, es), cm, q) && Rev(q) in After(s, st, es).gws
  {
    if es != [] {
      var front, e := es[..|es| - 1], es[|es| - 1];
      BackStays(s, st, cm, front, q);
      StepsUnderway(s, st, cm, front);
      WedgedStep(s, After(s, st, front), cm, e, q);
      BackStep(s, After(s, st, front), cm, e, q);
    }
  }

  lemma BackStep(s: Slice, st: State, cm: map<string, int>, e: Event, q: GatewayKey)
    requires Underway(s, st, cm) && Step(st.clusters, e) && Enabled(s, st, e) && q in Order(st.clusters)
    requires WedgedAt(s, st, cm, q) && Rev(q) in st.gws
    ensures Rev(q) in Apply(s, st, e).gws
  {
    var x, fit := st.GatewayStore(), Fit(st.clusters, cm);
    BuilderFits(s, st.clusters, cm);
    if e.Pass? {
      PassStore(s, st, cm, e.l, e.registered);
      assert Rev(q) in Swept(x, Dropped(s, st, cm)).gws;
      WalkGrows(s, Swept(x, Dropped(s, st, cm)).gws, st.clusters, cm);
    } else {
      assert Rev(Rev(q)) == q && q.0 != q.1;
      RestingTurn(x, st.clusters, fit, e.gateway, Rev(q));
    }
  }

  /** Where creation has nothing to add, the first half pair has its forward gateway. */
  lemma FirstStuck(g: Gateways, ps: seq<GatewayKey>, build: Builder, p: GatewayKey) returns (q: GatewayKey)
    requires Oriented(ps) && AddList(g, ps, build).gws == g && p in ps && HalfThere(g, p)
    ensures q in ps && (q == p || Precedes(ps, q, p)) && q in g && Rev(q) !in g
  {
    var i :| 0 <= i < |ps| && ps[i] == p;
    FirstHalfBefore(g, ps, i);
    var j :| 0 <= j <= i && FirstHalf(g, ps) == Some(ps[j]);
    q := ps[j];
    FirstHalfNone(g, ps);
    AddListEffect(g, ps, build);
  }

  lemma ForwardWedged(x: Store, fit: Test, build: Builder, q: GatewayKey)
    requires x.dying == {} && Unfit(x, fit) == {} && q in x.gws && Rev(q) !in x.gws
    ensures Wedged(x, fit, build, q)
  {
    assert q !in Unfit(x, fit);
  }

  /** At rest the first half pair is stuck. */
  lemma StillHalf(s: Slice, st: State, cm: map<string, int>, p: GatewayKey) returns (q: GatewayKey)
    requires Underway(s, st, cm) && OwnerClear(s.owner) && Still(s, st)
    requires p in Order(st.clusters) && HalfThere(st.gws, p)
    ensures q in Order(st.clusters) && (q == p || Precedes(Order(st.clusters), q, p))
    ensures q in st.gws && Rev(q) !in st.gws && WedgedAt(s, st, cm, q)
  {
    StillStore(s, st, cm);
    OrderFacts(st.clusters);
    q := FirstStuck(st.gws, Order(st.clusters), BuilderOf(s, cm), p);
    ForwardWedged(st.GatewayStore(), Fit(st.clusters, cm), BuilderOf(s, cm), q);
  }

  /** If no earlier pair is stuck, some steps complete the pair. */
  lemma CompletingRun(s: Slice, st: State, cm: map<string, int>, p: GatewayKey) returns (es: seq<Event>)
    requires Underway(s, st, cm) && OwnerClear(s.owner) && p in Order(st.clusters) && p !in st.gws
    requires forall q :: Precedes(Order(st.clusters), q, p) ==> !Stuck(st, cm, q)
    ensures StepRun(s, st, es) && !HalfThere(After(s, st, es).gws, p)
  {
    var hs := HoldAll(s, st, cm);
    var mid := After(s, st, hs);
    var names := SomeSpan(s, mid);
    var fs := Settle(s, names, mid, cm);
    es := Joined(s, st, hs, fs);
    if HalfThere(After(s, st, es).gws, p) {
      StepsUnderway(s, mid, cm, fs);
      var q := StillHalf(s, After(s, st, es), cm, p);
      GuardedRun(s, mid, cm, fs, q);
      if Rev(q) in st.gws { BackStays(s, st, cm, es, q); }
      StuckIs(s, st, cm, q);
      assert false;
    }
  }

  lemma StuckIs(s: Slice, st: State, cm: map<string, int>, q: GatewayKey)
    requires WedgedAt(s, st, cm, q) && Rev(q) !in st.gws
    ensures q in st.gws && Stuck(st, cm, q)
  {
  }

  lemma Joined(s: Slice, st: State, es: seq<Event>, fs: seq<Event>) returns (gs: seq<Event>)
    requires StepRun(s, st, es) && StepRun(s, After(s, st, es), fs) && After(s, st, es).clusters == st.clusters
    ensures StepRun(s, st, gs) && After(s, st, gs) == After(s, After(s, st, es), fs)
  {
    RunConcat(s, st, es, fs);
    gs := es + fs;
  }

  /** With the configs in place, a pair stays half for good, whatever passes and turns follow, exactly when its one gateway
      is live and fit, and is the forward one or lies behind a pair that is stuck like that. */
  lemma HalfForGood(s: Slice, st: State, cm: map<string, int>, p: GatewayKey)
    requires Underway(s, st, cm) && OwnerClear(s.owner) && InPlace(st) && p in Order(st.clusters)
    ensures StaysHalf(s, st, p) <==> HalfStuck(st, cm, p)
  {
    if HalfStuck(st, cm, p) {
      forall es | StepRun(s, st, es) ensures HalfThere(After(s, st, es).gws, p) { HalfStuckStays(s, st, cm, es, p); }
    } else {
      var es := UnhalvingRun(s, st, cm, p);
    }
  }

  lemma UnhalvingRun(s: Slice, st: State, cm: map<string, int>, p: GatewayKey) returns (es: seq<Event>)
    requires Underway(s, st, cm) && OwnerClear(s.owner) && InPlace(st) && p in Order(st.clusters)
    requires !HalfStuck(st, cm, p)
    ensures StepRun(s, st, es) && !HalfThere(After(s, st, es).gws, p)
  {
    if !HalfThere(st.gws, p) {
      es := [];
    } else if p in st.gws {
      es := UnrestingRun(s, st, cm, p, p);
    } else if Resting(StatusAt(st, cm, Rev(p))) {
      es := CompletingRun(s, st, cm, p);
    } else {
      assert Rev(Rev(p)) == p;
      es := UnrestingRun(s, st, cm, p, Rev(p));
    }
  }

  lemma UnrestingRun(s: Slice, st: State, cm: map<string, int>, p: GatewayKey, k: GatewayKey) returns (es: seq<Event>)
    requires Underway(s, st, cm) && OwnerClear(s.owner) && InPlace(st) && p in Order(st.clusters)
    requires k in {p, Rev(p)} && Rev(k) !in st.gws && !Resting(StatusAt(st, cm, k))
    ensures StepRun(s, st, es) && !HalfThere(After(s, st, es).gws, p)
  {
    OrderFacts(st.clusters);
    if StatusAt(st, cm, k) == Dying { es := DyingRun(s, st, cm, p, k); } else { es := EmptyingRun(s, st, cm, p, k); }
  }
}
