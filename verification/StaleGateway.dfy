/** Gateways that keep blocks their clusters no longer hold, over runs from the creation of a slice. */
module StaleGateway {
  import opened Text
  import opened Ipam
  import opened GatewayNumber
  import opened SliceStore
  import opened Mesh
  import opened Mending
  import opened SliceRun
  import opened AnyRun
  import opened PairStates
  import opened Reconnect
  import opened Convergence
  import opened PlainRuns

  /** A live gateway whose number missed the change fits, and is not what would be built now. */
  lemma StaleFits(s: Slice, st: State, o: map<string, int>, k: GatewayKey, x: nat, y: nat)
    requires s.Valid() && ':' !in s.subnet && Allocated(s, st.configs) && ConfigsAt(s, st.configs, o)
    requires LiveAt(s, st, k, x, y) && Missed(st.clusters, o, k, x, y)
    ensures Resting(StatusAt(st, o, k)) && !Right(st.gws, BuilderOf(s, o), k)
  {
    assert OctetMap(st.configs) == o;
    BlocksRightExactly(s, st, k, x, y);
  }

  /** A pair whose number missed the change is wedged. */
  lemma StaleWedged(s: Slice, st: State, clusters: seq<string>, o: map<string, int>, k: GatewayKey, x: nat, y: nat)
      returns (p: GatewayKey)
    requires s.Valid() && ':' !in s.subnet && Tracked(s, st, clusters, o, k, x, y) && Missed(clusters, o, k, x, y)
    ensures p in Order(st.clusters) && WedgedAt(s, st, o, p)
  {
    NumberSymmetric(x, y);
    NumberSymmetric(o[k.0], o[k.1]);
    StaleFits(s, st, o, k, x, y);
    StaleFits(s, st, o, Rev(k), y, x);
    OrderFacts(clusters);
    assert Rev(Rev(k)) == k;
    assert k in PairsOf(clusters) by { assert k == (k.0, k.1); }
    p := if k in Order(clusters) then k else Rev(k);
  }

  /** The gateway has the blocks x and y, and the configs of its clusters have u and v. */
  predicate StaleWith(s: Slice, st: State, k: GatewayKey, x: int, y: int, u: int, v: int) {
    && k in st.gws && st.gws[k].local.subnet == s.pool(x) && st.gws[k].remote.subnet == s.pool(y)
    && k.0 in st.configs && st.configs[k.0].cidr == s.pool(u) && k.1 in st.configs && st.configs[k.1].cidr == s.pool(v)
  }

  // ----- Swapped -----

  /** The two clusters are replaced, and brought back in the other order before the mesh settled; ts and us are turns of
      gateways in between. */
  function SwapRun(a: string, b: string, c: string, d: string, r: set<string>, ts: seq<Event>, us: seq<Event>): seq<Event> {
    SwapOutRun(c, d, r, ts) + us + [Update([b, a])] + [Pass([], r)]
  }

  function SwapOutRun(c: string, d: string, r: set<string>, ts: seq<Event>): seq<Event> {
    [Pass([], r)] + ts + [Update([c, d])] + [Pass([], r)]
  }

  lemma TwoNames(a: string, b: string, o: map<string, int>)
    requires a != b && a !in o && b !in o
    ensures Computes([a, b], o, [], map[a := 0, b := 1])
  {
    var cm := EmptyMap([a, b]);
    assert cm[[a, b][0]] == 0 && cm[[a, b][1]] == 1;
    assert cm == map[a := 0, b := 1];
  }

  lemma SwapOutChanges(s: Slice, a: string, b: string, c: string, d: string)
    requires s.maxClusters >= 2 && Different(a, b, c, d)
    ensures ListChange(s, [c, d], map[a := 0, b := 1], (a, b), 0, 1, [], map[c := 0, d := 1])
  {
    TwoNames(c, d, map[a := 0, b := 1]);
  }

  lemma SwapBackChanges(s: Slice, a: string, b: string, c: string, d: string)
    requires s.maxClusters >= 2 && Different(a, b, c, d)
    ensures ListChange(s, [b, a], map[c := 0, d := 1], (a, b), 0, 1, [], map[b := 0, a := 1])
  {
    TwoNames(b, a, map[c := 0, d := 1]);
    SwapSpared(a, b, map[c := 0, d := 1]);
  }

  lemma SwapOut(s: Slice, a: string, b: string, c: string, d: string, r: set<string>, ts: seq<Event>)
    requires OwnerClear(s.owner) && s.maxClusters >= 2 && {a, b, c, d} <= r && Different(a, b, c, d) && OnlyTurns(ts)
    ensures Reached(s, [a, b], SwapOutRun(c, d, r, ts), [c, d], map[c := 0, d := 1], (a, b), 0, 1)
  {
    ReachTwo(s, a, b, r);
    SwapOutChanges(s, a, b, c, d);
    ReachChange(s, [a, b], [Pass([], r)], ts, [a, b], [c, d], map[a := 0, b := 1], (a, b), 0, 1, [], r, map[c := 0, d := 1]);
  }

  lemma SwapBack(s: Slice, es: seq<Event>, us: seq<Event>, a: string, b: string, c: string, d: string, r: set<string>)
    requires OwnerClear(s.owner) && s.maxClusters >= 2 && {a, b, c, d} <= r && Different(a, b, c, d) && OnlyTurns(us)
    requires Reached(s, [a, b], es, [c, d], map[c := 0, d := 1], (a, b), 0, 1)
    ensures Reached(s, [a, b], es + us + [Update([b, a])] + [Pass([], r)], [b, a], map[b := 0, a := 1], (a, b), 0, 1)
  {
    SwapBackChanges(s, a, b, c, d);
    ReachChange(s, [a, b], es, us, [c, d], [b, a], map[c := 0, d := 1], (a, b), 0, 1, [], r, map[b := 0, a := 1]);
  }

  /** The run: the gateways between a and b, built from 0 and 1, outlive it, while a now holds 1 and b holds 0. */
  lemma SwapReached(s: Slice, a: string, b: string, c: string, d: string, r: set<string>, ts: seq<Event>, us: seq<Event>)
    requires OwnerClear(s.owner) && s.maxClusters >= 2 && {a, b, c, d} <= r && Different(a, b, c, d)
    requires OnlyTurns(ts) && OnlyTurns(us)
    ensures Reached(s, [a, b], SwapRun(a, b, c, d, r, ts, us), [b, a], map[b := 0, a := 1], (a, b), 0, 1)
  {
    SwapOut(s, a, b, c, d, r, ts);
    SwapBack(s, SwapOutRun(c, d, r, ts), us, a, b, c, d, r);
  }

  lemma SwapMissed(a: string, b: string)
    requires a != b
    ensures Missed([b, a], map[b := 0, a := 1], (a, b), 0, 1)
  {
    assert Number(0, 1) == Number(1, 0);
  }

  lemma SwapSpared(a: string, b: string, o: map<string, int>)
    requires a != b
    ensures Spared([b, a], o, map[b := 0, a := 1], (a, b), 0, 1)
  {
    assert Number(0, 1) == Number(1, 0);
  }

  /** So both its blocks are wrong, and no passes and turns that follow connect the slice. */
  lemma SwappedForGood(s: Slice, a: string, b: string, c: string, d: string, r: set<string>,
                       ts: seq<Event>, us: seq<Event>, es: seq<Event>)
    requires s.Valid() && ':' !in s.subnet && {a, b, c, d} <= r && Different(a, b, c, d) && OnlyTurns(ts) && OnlyTurns(us)
    requires StepRun(s, After(s, Created([a, b]), SwapRun(a, b, c, d, r, ts, us)), es)
    ensures var st := After(s, Created([a, b]), SwapRun(a, b, c, d, r, ts, us));
      && IsRun(s, Created([a, b]), SwapRun(a, b, c, d, r, ts, us)) && StaleWith(s, st, (a, b), 0, 1, 1, 0)
      && !Connected(s, After(s, st, es))
  {
    ValidOwner(s);
    SwapReached(s, a, b, c, d, r, ts, us);
    SwapMissed(a, b);
    ReachedStale(s, [a, b], SwapRun(a, b, c, d, r, ts, us), [b, a], map[b := 0, a := 1], (a, b), 0, 1, es);
  }

  /** The clusters of the pair no longer hold x and y, and the number of the pair is the same. */
  predicate Missed(clusters: seq<string>, o: map<string, int>, k: GatewayKey, x: int, y: int) {
    && o.Keys == Names(clusters) && BothPresent(clusters, k) && k.0 in o && k.1 in o
    && (x, y) != (o[k.0], o[k.1]) && Number(x, y) == Number(o[k.0], o[k.1])
  }

  /** A gateway whose number missed the change keeps its blocks, and no passes and turns that follow connect the slice. */
  lemma ReachedStale(s: Slice, start: seq<string>, run: seq<Event>, clusters: seq<string>, o: map<string, int>,
                     k: GatewayKey, x: nat, y: nat, es: seq<Event>)
    requires s.Valid() && ':' !in s.subnet && Reached(s, start, run, clusters, o, k, x, y)
    requires Missed(clusters, o, k, x, y) && StepRun(s, After(s, Created(start), run), es)
    ensures var st := After(s, Created(start), run);
      IsRun(s, Created(start), run) && StaleWith(s, st, k, x, y, o[k.0], o[k.1]) && !Connected(s, After(s, st, es))
  {
    TrackedStale(s, After(s, Created(start), run), clusters, o, k, x, y, es);
  }

  lemma TrackedStale(s: Slice, st: State, clusters: seq<string>, o: map<string, int>, k: GatewayKey, x: nat, y: nat, es: seq<Event>)
    requires s.Valid() && ':' !in s.subnet && Tracked(s, st, clusters, o, k, x, y)
    requires Missed(clusters, o, k, x, y) && StepRun(s, st, es)
    ensures !Connected(s, After(s, st, es))
  {
    PlainUnderway(s, st, o);
    var p := StaleWedged(s, st, clusters, o, k, x, y);
    WedgedForGood(s, st, o, es, p);
  }

  // ----- One cluster replaced and brought back -----

  /** One of the two clusters is replaced, and brought back; ts and us are turns of gateways in between. */
  function ReturnRun(a: string, b: string, c: string, r: set<string>, ts: seq<Event>, us: seq<Event>): seq<Event> {
    ReturnOutRun(a, c, r, ts) + us + [Update([a, c, b])] + [Pass([Listed(a, Some(0)), Listed(c, Some(1))], r)]
  }

  function ReturnOutRun(a: string, c: string, r: set<string>, ts: seq<Event>): seq<Event> {
    [Pass([], r)] + ts + [Update([a, c])] + [Pass([Listed(a, Some(0))], r)]
  }

  lemma NextAfterOne(a: string, b: string, c: string)
    requires a != b && b != c && a != c
    ensures Computes([a, c], map[a := 0, b := 1], [Listed(a, Some(0))], map[a := 0, c := 1])
  {
    var l := [Listed(a, Some(0))];
    assert Staying(map[a := 0, b := 1], [a, c]) == map[a := 0];
    ListedOctets(l, map[a := 0]);
    assert Octets(l)[a] == 0;
    NextIndex([a, c], l, c);
  }

  lemma NextAfterTwo(a: string, b: string, c: string)
    requires a != b && b != c && a != c
    ensures Computes([a, c, b], map[a := 0, c := 1], [Listed(a, Some(0)), Listed(c, Some(1))], map[a := 0, c := 1, b := 2])
  {
    var l := [Listed(a, Some(0)), Listed(c, Some(1))];
    assert Staying(map[a := 0, c := 1], [a, c, b]) == map[a := 0, c := 1];
    ListedOctets(l, map[a := 0, c := 1]);
    assert Octets(l)[a] == 0 && Octets(l)[c] == 1;
    NextIndex([a, c, b], l, b);
  }

  lemma ReturnMissed(a: string, b: string, c: string)
    requires a != b && b != c && a != c
    ensures Missed([a, c, b], map[a := 0, c := 1, b := 2], (a, b), 0, 1)
  {
    assert Number(0, 1) == Number(0, 2);
  }

  lemma ReturnOutChanges(s: Slice, a: string, b: string, c: string)
    requires s.maxClusters >= 2 && a != b && b != c && a != c
    ensures ListChange(s, [a, c], map[a := 0, b := 1], (a, b), 0, 1, [Listed(a, Some(0))], map[a := 0, c := 1])
  {
    NextAfterOne(a, b, c);
  }

  lemma ReturnBackChanges(s: Slice, a: string, b: string, c: string)
    requires s.maxClusters >= 3 && a != b && b != c && a != c
    ensures ListChange(s, [a, c, b], map[a := 0, c := 1], (a, b), 0, 1,
                       [Listed(a, Some(0)), Listed(c, Some(1))], map[a := 0, c := 1, b := 2])
  {
    NextAfterTwo(a, b, c);
    ReturnMissed(a, b, c);
  }

  lemma ReturnOut(s: Slice, a: string, b: string, c: string, r: set<string>, ts: seq<Event>)
    requires OwnerClear(s.owner) && s.maxClusters >= 3 && {a, b, c} <= r && a != b && b != c && a != c && OnlyTurns(ts)
    ensures Reached(s, [a, b], ReturnOutRun(a, c, r, ts), [a, c], map[a := 0, c := 1], (a, b), 0, 1)
  {
    ReachTwo(s, a, b, r);
    ReturnOutChanges(s, a, b, c);
    ReachChange(s, [a, b], [Pass([], r)], ts, [a, b], [a, c], map[a := 0, b := 1], (a, b), 0, 1,
                [Listed(a, Some(0))], r, map[a := 0, c := 1]);
  }

  lemma ReturnBack(s: Slice, es: seq<Event>, us: seq<Event>, a: string, b: string, c: string, r: set<string>)
    requires OwnerClear(s.owner) && s.maxClusters >= 3 && a != b && b != c && a != c && OnlyTurns(us)
    requires Reached(s, [a, b], es, [a, c], map[a := 0, c := 1], (a, b), 0, 1)
    ensures Reached(s, [a, b], es + us + [Update([a, c, b])] + [Pass([Listed(a, Some(0)), Listed(c, Some(1))], r)],
                    [a, c, b], map[a := 0, c := 1, b := 2], (a, b), 0, 1)
  {
    ReturnBackChanges(s, a, b, c);
    ReachChange(s, [a, b], es, us, [a, c], [a, c, b], map[a := 0, c := 1], (a, b), 0, 1,
                [Listed(a, Some(0)), Listed(c, Some(1))], r, map[a := 0, c := 1, b := 2]);
  }

  /** b is replaced by c and brought back: it now holds 2, and its gateways were built from 0 and 1. */
  lemma ReturnReached(s: Slice, a: string, b: string, c: string, r: set<string>, ts: seq<Event>, us: seq<Event>)
    requires OwnerClear(s.owner) && s.maxClusters >= 3 && {a, b, c} <= r && a != b && b != c && a != c
    requires OnlyTurns(ts) && OnlyTurns(us)
    ensures Reached(s, [a, b], ReturnRun(a, b, c, r, ts, us), [a, c, b], map[a := 0, c := 1, b := 2], (a, b), 0, 1)
  {
    ReturnOut(s, a, b, c, r, ts);
    ReturnBack(s, ReturnOutRun(a, c, r, ts), us, a, b, c, r);
  }

  /** The gateway names block 1 while b holds block 2 and, {0, 1} and {0, 2} having one number, stays for good. */
  lemma StaleGatewayStays(s: Slice, a: string, b: string, c: string, r: set<string>,
                          ts: seq<Event>, us: seq<Event>, es: seq<Event>)
    requires s.Valid() && ':' !in s.subnet && s.maxClusters >= 3 && {a, b, c} <= r && a != b && b != c && a != c
    requires OnlyTurns(ts) && OnlyTurns(us) && StepRun(s, After(s, Created([a, b]), ReturnRun(a, b, c, r, ts, us)), es)
    ensures var st := After(s, Created([a, b]), ReturnRun(a, b, c, r, ts, us));
      && IsRun(s, Created([a, b]), ReturnRun(a, b, c, r, ts, us)) && StaleWith(s, st, (a, b), 0, 1, 0, 2)
      && !Connected(s, After(s, st, es))
  {
    ValidOwner(s);
    ReturnReached(s, a, b, c, r, ts, us);
    ReturnMissed(a, b, c);
    ReachedStale(s, [a, b], ReturnRun(a, b, c, r, ts, us), [a, c, b], map[a := 0, c := 1, b := 2], (a, b), 0, 1, es);
  }
}
