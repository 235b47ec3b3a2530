/** The create loops on any store: when they fail, what they leave, and when they leave the exact mesh. */
module Mending {
  import opened Text
  import opened Sequences
  import opened SliceStore
  import opened Mesh

  // ----- The loops as one list of pairs -----

  /** One cluster against the ones after it. */
  function RowOrder(a: string, bs: seq<string>): seq<GatewayKey> {
    if bs == [] then [] else [(a, bs[0])] + RowOrder(a, bs[1..])
  }

  /** The pairs in the order the loops visit them, the cluster named earlier first. */
  function Order(cs: seq<string>): seq<GatewayKey> {
    if cs == [] then [] else RowOrder(cs[0], cs[1..]) + Order(cs[1..])
  }

  function AddList(g: Gateways, ps: seq<GatewayKey>, build: Builder): Outcome
    decreases ps
  {
    if ps == [] then Outcome(g, true)
    else
      var r := AddPair(g, ps[0].0, ps[0].1, build);
      if r.ok then AddList(r.gws, ps[1..], build) else r
  }

  lemma {:induction false} AddListConcat(g: Gateways, ps: seq<GatewayKey>, qs: seq<GatewayKey>, build: Builder)
    ensures AddList(g, ps + qs, build) ==
            var r := AddList(g, ps, build); if r.ok then AddList(r.gws, qs, build) else r
    decreases ps
  {
    if ps == [] {
      assert ps + qs == qs;
    } else {
      assert (ps + qs)[1..] == ps[1..] + qs;
      AddListConcat(AddPair(g, ps[0].0, ps[0].1, build).gws, ps[1..], qs, build);
    }
  }

  lemma {:induction false} AddRowIsList(g: Gateways, a: string, bs: seq<string>, build: Builder)
    ensures AddRow(g, a, bs, build) == AddList(g, RowOrder(a, bs), build)
    decreases bs
  {
    if bs != [] {
      assert RowOrder(a, bs)[1..] == RowOrder(a, bs[1..]);
      AddRowIsList(AddPair(g, a, bs[0], build).gws, a, bs[1..], build);
    }
  }

  lemma {:induction false} AddAllIsList(g: Gateways, cs: seq<string>, build: Builder)
    ensures AddAll(g, cs, build) == AddList(g, Order(cs), build)
    decreases cs
  {
    if cs != [] {
      AddRowIsList(g, cs[0], cs[1..], build);
      AddListConcat(g, RowOrder(cs[0], cs[1..]), Order(cs[1..]), build);
      AddAllIsList(AddRow(g, cs[0], cs[1..], build).gws, cs[1..], build);
    }
  }

  /** No pair occurs twice, in either direction, or joins a cluster to itself. */
  predicate Oriented(ps: seq<GatewayKey>) {
    && (forall i :: 0 <= i < |ps| ==> ps[i].0 != ps[i].1)
    && forall i, j :: 0 <= i < j < |ps| ==> ps[i] != ps[j] && ps[i] != Rev(ps[j])
  }

  lemma {:induction false} RowOrderFacts(a: string, bs: seq<string>)
    requires NoDup(bs) && a !in bs
    ensures Oriented(RowOrder(a, bs)) && |RowOrder(a, bs)| == |bs|
    ensures forall p :: p in RowOrder(a, bs) <==> p.0 == a && p.1 in bs
  {
    if bs != [] {
      RowOrderFacts(a, bs[1..]);
      assert bs == [bs[0]] + bs[1..];
      assert bs[0] !in bs[1..];
    }
  }

  lemma OrientedConcat(ps: seq<GatewayKey>, qs: seq<GatewayKey>)
    requires Oriented(ps) && Oriented(qs) && forall p, q :: p in ps && q in qs ==> p != q && p != Rev(q)
    ensures Oriented(ps + qs)
  {
    var s := ps + qs;
    forall i, j | 0 <= i < j < |s| ensures s[i] != s[j] && s[i] != Rev(s[j]) {
      if i < |ps| <= j { assert s[i] in ps && s[j] in qs; }
    }
  }

  /** The order has every unordered pair of different clusters once. */
  lemma {:induction false} OrderFacts(cs: seq<string>)
    requires NoDup(cs)
    ensures Oriented(Order(cs))
    ensures forall p :: p in Order(cs) ==> p in PairsOf(cs)
    ensures forall p :: p in PairsOf(cs) ==> p in Order(cs) || Rev(p) in Order(cs)
    decreases cs
  {
    if cs != [] {
      var a, rest := cs[0], cs[1..];
      assert cs == [a] + rest;
      assert a !in rest;
      OrderFacts(rest);
      RowOrderFacts(a, rest);
      OrientedConcat(RowOrder(a, rest), Order(rest));
      PairsStep(a, rest);
    }
  }

  /** There are n(n-1)/2 of them. */
  lemma {:induction false} OrderLength(cs: seq<string>)
    requires NoDup(cs)
    ensures 2 * |Order(cs)| == |cs| * (|cs| - 1)
    decreases cs
  {
    if cs != [] {
      assert cs[0] !in cs[1..];
      RowOrderFacts(cs[0], cs[1..]);
      OrderLength(cs[1..]);
      OneMore(|cs[1..]|);
    }
  }

  // ----- What the loops do to one pair -----

  /** One of the two gateways is there and the other is not. */
  predicate HalfThere(g: Gateways, p: GatewayKey) {
    (p in g) != (Rev(p) in g)
  }

  /** The first half pair the loops meet. */
  function FirstHalf(g: Gateways, ps: seq<GatewayKey>): Option<GatewayKey> {
    if ps == [] then None else if HalfThere(g, ps[0]) then Some(ps[0]) else FirstHalf(g, ps[1..])
  }

  ghost predicate SameAt(g: Gateways, r: Gateways, k: GatewayKey) {
    (k in r <==> k in g) && (k in g ==> r[k] == g[k])
  }

  /** Both gateways as before; or the forward one, missing before, is a new server, and the other was kept or is a new
      client. */
  ghost predicate Treated(g: Gateways, r: Gateways, p: GatewayKey, build: Builder) {
    || (SameAt(g, r, p) && SameAt(g, r, Rev(p)))
    || (&& p !in g && p in r && r[p] == build(p.0, p.1, Server) && Rev(p) in r
        && r[Rev(p)] == if Rev(p) in g then g[Rev(p)] else build(p.1, p.0, Client))
  }

  /** Away from the pairs of ps the two stores agree. */
  ghost predicate OnlyAt(g: Gateways, r: Gateways, ps: seq<GatewayKey>) {
    forall k :: k !in ps && Rev(k) !in ps ==> SameAt(g, r, k)
  }

  lemma FirstHalfSame(g: Gateways, r: Gateways, p: GatewayKey, ps: seq<GatewayKey>)
    requires OnlyAt(g, r, [p]) && Oriented([p] + ps)
    ensures FirstHalf(g, ps) == FirstHalf(r, ps)
  {
    if ps != [] {
      var q := ps[0];
      assert ([p] + ps)[0] == p && ([p] + ps)[1] == q;
      assert SameAt(g, r, q) && SameAt(g, r, Rev(q));
      assert Oriented([p] + ps[1..]) by {
        assert forall i :: 0 <= i < |ps| ==> ([p] + ps)[i + 1] == ps[i];
      }
      FirstHalfSame(g, r, p, ps[1..]);
    }
  }

  /** The create loops on any store: they fail exactly at the first half pair, and treat every pair in one of two ways. */
  lemma {:induction false} AddListEffect(g: Gateways, ps: seq<GatewayKey>, build: Builder)
    requires Oriented(ps)
    ensures var r := AddList(g, ps, build);
      && (r.ok <==> FirstHalf(g, ps).None?) && OnlyAt(g, r.gws, ps)
      && (forall p :: p in ps ==> Treated(g, r.gws, p, build))
      && (r.ok ==> forall p :: p in ps ==> p in r.gws && Rev(p) in r.gws)
      && (forall p :: p in ps && p !in g && Rev(p) in g ==> (p in r.gws <==> FirstHalf(g, ps) == Some(p)))
    decreases ps
  {
    if ps != [] {
      var p, rest := ps[0], ps[1..];
      assert ps == [p] + rest;
      var o := AddPair(g, p.0, p.1, build);
      PairEffect(g, p, build);
      OrientedRest(ps);
      if o.ok {
        AddListEffect(o.gws, rest, build);
        FirstHalfSame(g, o.gws, p, rest);
        ListStep(g, p, rest, build);
      } else {
        HalfStop(g, p, rest, build);
      }
    }
  }

  lemma OrientedRest(ps: seq<GatewayKey>)
    requires Oriented(ps) && ps != []
    ensures Oriented(ps[1..]) && ps[0].0 != ps[0].1
    ensures forall q :: q in ps[1..] ==> q != ps[0] && q != Rev(ps[0]) && Rev(q) != ps[0]
  {
    var p, rest := ps[0], ps[1..];
    forall q | q in rest ensures q != p && q != Rev(p) && Rev(q) != p {
      var i :| 0 <= i < |rest| && rest[i] == q;
      assert ps[i + 1] == q;
    }
  }

  lemma PairEffect(g: Gateways, p: GatewayKey, build: Builder)
    requires p.0 != p.1
    ensures var o := AddPair(g, p.0, p.1, build);
      && OnlyAt(g, o.gws, [p]) && Treated(g, o.gws, p, build) && (o.ok <==> !HalfThere(g, p))
      && (p !in g ==> p in o.gws)
  {
    assert p == (p.0, p.1) && Rev(p) == (p.1, p.0) && p != Rev(p);
  }

  lemma HalfStop(g: Gateways, p: GatewayKey, rest: seq<GatewayKey>, build: Builder)
    requires p.0 != p.1 && HalfThere(g, p)
    requires forall q :: q in rest ==> q != p && q != Rev(p) && Rev(q) != p
    ensures var r := AddPair(g, p.0, p.1, build).gws;
      && OnlyAt(g, r, [p] + rest)
      && (forall q :: q in [p] + rest ==> Treated(g, r, q, build))
      && (forall q :: q in rest && q !in g ==> q !in r)
  {
    PairEffect(g, p, build);
    var r := AddPair(g, p.0, p.1, build).gws;
    forall q | q in rest ensures SameAt(g, r, q) && SameAt(g, r, Rev(q)) { assert Rev(Rev(q)) == q; }
  }

  lemma ListStep(g: Gateways, p: GatewayKey, rest: seq<GatewayKey>, build: Builder)
    requires p.0 != p.1 && !HalfThere(g, p)
    requires forall q :: q in rest ==> q != p && q != Rev(p) && Rev(q) != p
    requires var o, r := AddPair(g, p.0, p.1, build).gws, AddList(AddPair(g, p.0, p.1, build).gws, rest, build);
      && OnlyAt(g, o, [p]) && Treated(g, o, p, build) && OnlyAt(o, r.gws, rest)
      && (forall q :: q in rest ==> Treated(o, r.gws, q, build))
      && (r.ok ==> forall q :: q in rest ==> q in r.gws && Rev(q) in r.gws)
    ensures var r := AddList(AddPair(g, p.0, p.1, build).gws, rest, build);
      && OnlyAt(g, r.gws, [p] + rest)
      && (forall q :: q in [p] + rest ==> Treated(g, r.gws, q, build))
      && p in r.gws && Rev(p) in r.gws
  {
    var o := AddPair(g, p.0, p.1, build).gws;
    var r := AddList(o, rest, build).gws;
    assert p in o && Rev(p) in o;
    assert SameAt(o, r, p) && SameAt(o, r, Rev(p)) by { assert Rev(Rev(p)) == p; }
    forall q | q in rest ensures Treated(g, r, q, build) {
      assert SameAt(g, o, q) && SameAt(g, o, Rev(q));
    }
  }

  /** From any store the create loops succeed exactly when no pair of present clusters is half there. */
  lemma AddAllSucceeds(g: Gateways, cs: seq<string>, build: Builder)
    requires NoDup(cs)
    ensures AddAll(g, cs, build).ok <==> forall a, b :: a in cs && b in cs && a != b && (a, b) in g ==> (b, a) in g
  {
    AddAllIsList(g, cs, build);
    OrderFacts(cs);
    AddListEffect(g, Order(cs), build);
    FirstHalfNone(g, Order(cs));
    if forall a, b :: a in cs && b in cs && a != b && (a, b) in g ==> (b, a) in g {
      forall p | p in Order(cs) ensures !HalfThere(g, p) {
        assert p in PairsOf(cs) && p == (p.0, p.1) && Rev(p) == (p.1, p.0);
      }
    } else {
      var a, b :| a in cs && b in cs && a != b && (a, b) in g && (b, a) !in g;
      assert (a, b) in PairsOf(cs) && Rev((a, b)) == (b, a) && HalfThere(g, (a, b)) && HalfThere(g, (b, a));
    }
  }

  lemma {:induction false} FirstHalfNone(g: Gateways, ps: seq<GatewayKey>)
    ensures FirstHalf(g, ps).None? <==> forall p :: p in ps ==> !HalfThere(g, p)
    ensures FirstHalf(g, ps).Some? ==> FirstHalf(g, ps).value in ps && HalfThere(g, FirstHalf(g, ps).value)
  {
    if ps != [] {
      FirstHalfNone(g, ps[1..]);
      assert ps == [ps[0]] + ps[1..];
    }
  }

  /** q comes before p. */
  predicate Precedes(ps: seq<GatewayKey>, q: GatewayKey, p: GatewayKey) {
    exists i, j :: 0 <= i < j < |ps| && ps[i] == q && ps[j] == p
  }

  lemma {:induction false} FirstHalfBefore(g: Gateways, ps: seq<GatewayKey>, i: nat)
    requires i < |ps| && HalfThere(g, ps[i])
    ensures exists j :: 0 <= j <= i && FirstHalf(g, ps) == Some(ps[j])
  {
    if !HalfThere(g, ps[0]) {
      FirstHalfBefore(g, ps[1..], i - 1);
      var j :| 0 <= j <= i - 1 && FirstHalf(g, ps[1..]) == Some(ps[1..][j]);
      assert ps[1..][j] == ps[j + 1];
    }
  }

  /** The loops leave what lies behind a half pair alone. */
  lemma AddListStops(g: Gateways, ps: seq<GatewayKey>, build: Builder, q: GatewayKey, p: GatewayKey)
    requires Oriented(ps) && Precedes(ps, q, p) && HalfThere(g, q)
    ensures var r := AddList(g, ps, build).gws; SameAt(g, r, p) && SameAt(g, r, Rev(p))
  {
    var i, j :| 0 <= i < j < |ps| && ps[i] == q && ps[j] == p;
    StopsAt(g, ps, build, i, j);
  }

  lemma {:induction false} StopsAt(g: Gateways, ps: seq<GatewayKey>, build: Builder, i: nat, j: nat)
    requires Oriented(ps) && i < j < |ps| && HalfThere(g, ps[i])
    ensures var r := AddList(g, ps, build).gws; SameAt(g, r, ps[j]) && SameAt(g, r, Rev(ps[j]))
    decreases i
  {
    var o := AddPair(g, ps[0].0, ps[0].1, build);
    assert ps[0] == (ps[0].0, ps[0].1) && Rev(ps[0]) == (ps[0].1, ps[0].0) && Rev(Rev(ps[j])) == ps[j];
    assert ps[0] != ps[j] && ps[0] != Rev(ps[j]);
    if i > 0 {
      assert ps[0] != ps[i] && ps[0] != Rev(ps[i]) && Rev(Rev(ps[i])) == ps[i];
      assert ps[1..][i - 1] == ps[i] && ps[1..][j - 1] == ps[j];
      if o.ok { StopsAt(o.gws, ps[1..], build, i - 1, j - 1); }
    }
  }

  // ----- The order of the pairs -----

  /** Where the pair of the clusters i and j of n stands. */
  function Place(n: nat, i: nat, j: nat): nat
    requires i < j < n
  {
    if i == 0 then j - 1 else n - 1 + Place(n - 1, i - 1, j - 1)
  }

  lemma {:induction false} RowAt(a: string, bs: seq<string>, j: nat)
    requires j < |bs|
    ensures |RowOrder(a, bs)| == |bs| && RowOrder(a, bs)[j] == (a, bs[j])
  {
    if |bs| > 1 { RowAt(a, bs[1..], if j == 0 then 0 else j - 1); }
  }

  lemma {:induction false} OrderAt(cs: seq<string>, i: nat, j: nat)
    requires i < j < |cs|
    ensures Place(|cs|, i, j) < |Order(cs)| && Order(cs)[Place(|cs|, i, j)] == (cs[i], cs[j])
    decreases i
  {
    RowAt(cs[0], cs[1..], j - 1);
    if i > 0 { OrderAt(cs[1..], i - 1, j - 1); }
  }

  lemma {:induction false} PlaceGrows(n: nat, i: nat, j: nat, u: nat, v: nat)
    requires i < j < n && u < v < n && (i < u || (i == u && j < v))
    ensures Place(n, i, j) < Place(n, u, v)
    decreases i
  {
    if i > 0 { PlaceGrows(n - 1, i - 1, j - 1, u - 1, v - 1); }
  }

  lemma EarlierFirst(cs: seq<string>, i: nat, j: nat, u: nat, v: nat)
    requires i < j < |cs| && u < v < |cs| && (i < u || (i == u && j < v))
    ensures Precedes(Order(cs), (cs[i], cs[j]), (cs[u], cs[v]))
  {
    OrderAt(cs, i, j);
    OrderAt(cs, u, v);
    PlaceGrows(|cs|, i, j, u, v);
  }

  lemma NeverBoth(ps: seq<GatewayKey>, p: GatewayKey, q: GatewayKey)
    requires Oriented(ps) && Precedes(ps, p, q)
    ensures p != q && !Precedes(ps, q, p)
  {
  }

  /** The loops visit the pairs by their first cluster in the list, then by their second one, the first named earlier. */
  lemma OrderIsLexicographic(cs: seq<string>, i: nat, j: nat, u: nat, v: nat)
    requires NoDup(cs) && i < j < |cs| && u < v < |cs|
    ensures (cs[i], cs[j]) in Order(cs) && (cs[j], cs[i]) !in Order(cs)
    ensures Precedes(Order(cs), (cs[i], cs[j]), (cs[u], cs[v])) <==> i < u || (i == u && j < v)
  {
    OrderFacts(cs);
    OrderAt(cs, i, j);
    NotReversed(Order(cs), (cs[i], cs[j]));
    if i < u || (i == u && j < v) {
      EarlierFirst(cs, i, j, u, v);
    } else if (i, j) != (u, v) {
      EarlierFirst(cs, u, v, i, j);
      NeverBoth(Order(cs), (cs[u], cs[v]), (cs[i], cs[j]));
    } else if Precedes(Order(cs), (cs[i], cs[j]), (cs[u], cs[v])) {
      NeverBoth(Order(cs), (cs[i], cs[j]), (cs[u], cs[v]));
    }
  }

  lemma NotReversed(ps: seq<GatewayKey>, p: GatewayKey)
    requires Oriented(ps) && p in ps
    ensures (p.1, p.0) !in ps
  {
    var i :| 0 <= i < |ps| && ps[i] == p;
    assert Rev(ps[i]) == (p.1, p.0) != p;
    forall j | 0 <= j < |ps| ensures ps[j] != (p.1, p.0) {
      assert ps[j] == (p.1, p.0) ==> Rev(ps[j]) == p;
    }
  }

  // ----- Mending -----

  /** Every gateway is what would be built now. */
  ghost predicate BuiltBy(g: Gateways, build: Builder) {
    forall k :: k in g ==> g[k] == build(k.0, k.1, g[k].role)
  }

  /** If the forward gateway is there so is the other one, in the opposite role; the other one alone is a client. */
  predicate PairMendable(g: Gateways, p: GatewayKey) {
    && (p in g ==> Rev(p) in g && g[Rev(p)].role != g[p].role)
    && (p !in g && Rev(p) in g ==> g[Rev(p)].role == Client)
  }

  ghost predicate Mendable(g: Gateways, ps: seq<GatewayKey>, build: Builder) {
    BuiltBy(g, build) && forall p :: p in ps ==> PairMendable(g, p)
  }

  lemma TreatedMendable(g: Gateways, r: Gateways, p: GatewayKey, build: Builder)
    requires Treated(g, r, p, build) && KeepsRole(build) && p.0 != p.1
    ensures PairMendable(r, p) <==> PairMendable(g, p)
  {
  }

  /** Creation neither mends what cannot be mended nor breaks what can. */
  lemma AddListMendable(g: Gateways, ps: seq<GatewayKey>, build: Builder)
    requires Oriented(ps) && KeepsRole(build)
    ensures Mendable(AddList(g, ps, build).gws, ps, build) <==> Mendable(g, ps, build)
  {
    var r := AddList(g, ps, build).gws;
    AddListEffect(g, ps, build);
    AddListBuilt(g, ps, build);
    forall p | p in ps ensures PairMendable(r, p) <==> PairMendable(g, p) { TreatedMendable(g, r, p, build); }
  }

  /** What the loops leave: everything that was there, and new gateways built now. */
  ghost predicate Grows(g: Gateways, r: Gateways, ps: seq<GatewayKey>, build: Builder) {
    && (forall k :: k in g ==> k in r && r[k] == g[k])
    && (forall k :: k in r && k !in g ==> (k in ps || Rev(k) in ps) && r[k] == build(k.0, k.1, r[k].role))
  }

  lemma AddListBuilt(g: Gateways, ps: seq<GatewayKey>, build: Builder)
    requires Oriented(ps) && KeepsRole(build)
    ensures Grows(g, AddList(g, ps, build).gws, ps, build)
    ensures BuiltBy(AddList(g, ps, build).gws, build) <==> BuiltBy(g, build)
  {
    var r := AddList(g, ps, build).gws;
    AddListEffect(g, ps, build);
    forall k | k in g || k in r
      ensures k in g ==> k in r && r[k] == g[k]
      ensures k in r && k !in g ==> (k in ps || Rev(k) in ps) && r[k] == build(k.0, k.1, r[k].role)
    {
      assert Rev(Rev(k)) == k;
      if k in ps { assert Treated(g, r, k, build); } else if Rev(k) in ps { assert Treated(g, r, Rev(k), build); }
    }
  }

  /** The pairs whose forward gateway is missing. */
  function Missing(g: Gateways, ps: seq<GatewayKey>): set<GatewayKey> {
    set p | p in ps && p !in g
  }

  /** New gateways pass the test. */
  ghost predicate BuildsFit(ps: seq<GatewayKey>, build: Builder, fit: Gateway -> bool) {
    forall p, role :: p in ps ==> fit(build(p.0, p.1, role)) && fit(build(p.1, p.0, role))
  }

  // ----- The exact mesh -----

  /** Both gateways of every pair or neither, in opposite roles, all as built now. */
  ghost predicate WholePairs(g: Gateways, ps: seq<GatewayKey>, build: Builder) {
    BuiltBy(g, build) && forall p :: p in ps ==> !HalfThere(g, p) && (p in g ==> g[Rev(p)].role != g[p].role)
  }

  /** Among stores of present pairs the exact mesh is the mendable one with nothing missing. */
  lemma ExactIsMended(s: Slice, g: Gateways, cs: seq<string>, cm: map<string, int>)
    requires NoDup(cs) && g.Keys <= PairsOf(cs)
    ensures Exact(s, g, cs, cm) <==> Mendable(g, Order(cs), BuilderOf(s, cm)) && Missing(g, Order(cs)) == {}
  {
    OrderFacts(cs);
    if Exact(s, g, cs, cm) {
      forall p | p in Order(cs) ensures PairMendable(g, p) && p in g { assert p in PairsOf(cs) && (p.1, p.0) in g; }
    }
    if Mendable(g, Order(cs), BuilderOf(s, cm)) && Missing(g, Order(cs)) == {} {
      MendedPairs(g, cs);
    }
  }

  lemma MendedPairs(g: Gateways, cs: seq<string>)
    requires NoDup(cs) && g.Keys <= PairsOf(cs) && Missing(g, Order(cs)) == {}
    requires forall p :: p in Order(cs) ==> PairMendable(g, p)
    ensures g.Keys == PairsOf(cs) && PairClosed(g)
  {
    OrderFacts(cs);
    forall k | k in PairsOf(cs) ensures k in g && (k.1, k.0) in g && g[(k.1, k.0)].role != g[k].role {
      assert Rev(k) == (k.1, k.0) && Rev(Rev(k)) == k;
      var p := if k in Order(cs) then k else Rev(k);
      assert p !in Missing(g, Order(cs)) && PairMendable(g, p);
    }
  }

  lemma SucceedsMended(g: Gateways, ps: seq<GatewayKey>, build: Builder)
    requires Oriented(ps) && KeepsRole(build)
    ensures var r := AddList(g, ps, build);
      r.ok && Mendable(r.gws, ps, build) && Missing(r.gws, ps) == {} <==> WholePairs(g, ps, build)
  {
    AddListEffect(g, ps, build);
    FirstHalfNone(g, ps);
    AddListMendable(g, ps, build);
    WholeIsMendable(g, ps, build);
  }

  lemma WholeIsMendable(g: Gateways, ps: seq<GatewayKey>, build: Builder)
    ensures WholePairs(g, ps, build) <==> Mendable(g, ps, build) && forall p :: p in ps ==> !HalfThere(g, p)
  {
  }

  /** The create loops succeed and leave the exact mesh exactly when the pairs they found were whole, opposite in role
      and built from present octets. */
  lemma SucceedsExactly(s: Slice, g: Gateways, cs: seq<string>, cm: map<string, int>)
    requires NoDup(cs) && g.Keys <= PairsOf(cs)
    ensures var r := AddAll(g, cs, BuilderOf(s, cm));
      r.ok && Exact(s, r.gws, cs, cm) <==> WholePairs(g, Order(cs), BuilderOf(s, cm))
  {
    var build := BuilderOf(s, cm);
    AddAllIsList(g, cs, build);
    OrderFacts(cs);
    BuilderKeepsRole(s, cm);
    AddListStaysInside(g, cs, build);
    SucceedsMended(g, Order(cs), build);
    ExactIsMended(s, AddList(g, Order(cs), build).gws, cs, cm);
  }

  lemma AddListStaysInside(g: Gateways, cs: seq<string>, build: Builder)
    requires NoDup(cs) && g.Keys <= PairsOf(cs) && KeepsRole(build)
    ensures AddList(g, Order(cs), build).gws.Keys <= PairsOf(cs)
  {
    OrderFacts(cs);
    AddListBuilt(g, Order(cs), build);
    var r := AddList(g, Order(cs), build).gws;
    forall k | k in r ensures k in PairsOf(cs) {
      if k !in g && k !in Order(cs) { assert Rev(k) in PairsOf(cs) && k == (k.0, k.1); }
    }
  }
}
