/** The gateway mesh: one server and one client per unordered pair of clusters. */
module Mesh {
  import opened Text
  import opened Sequences
  import opened GatewayNumber
  import opened SliceStore

  /** The ordered pairs of different clusters. */
  function PairsOf<C(==)>(cs: seq<C>): set<(C, C)> {
    set a, b | a in cs && b in cs && a != b :: (a, b)
  }

  /** The pairs of one cluster with others, both ways round. */
  function RowPairs<C(==)>(a: C, bs: seq<C>): set<(C, C)> {
    (set b | b in bs :: (a, b)) + (set b | b in bs :: (b, a))
  }

  lemma RowPairsStep<C>(a: C, b: C, rest: seq<C>)
    ensures RowPairs(a, [b] + rest) == {(a, b), (b, a)} + RowPairs(a, rest)
  {
  }

  lemma RowPairsApart<C>(a: C, b: C, rest: seq<C>)
    requires a != b && a !in rest && b !in rest
    ensures |{(a, b), (b, a)} + RowPairs(a, rest)| == 2 + |RowPairs(a, rest)|
  {
  }

  lemma PairsStep<C>(a: C, rest: seq<C>)
    requires a !in rest
    ensures PairsOf([a] + rest) == RowPairs(a, rest) + PairsOf(rest)
    ensures RowPairs(a, rest) !! PairsOf(rest)
  {
  }

  lemma {:induction false} RowCount<C>(a: C, bs: seq<C>)
    requires NoDup(bs) && a !in bs
    ensures |RowPairs(a, bs)| == 2 * |bs|
  {
    if bs == [] {
      assert RowPairs(a, bs) == {};
    } else {
      var b, rest := bs[0], bs[1..];
      assert bs == [b] + rest;
      assert b !in rest && a !in rest;
      RowCount(a, rest);
      RowPairsStep(a, b, rest);
      RowPairsApart(a, b, rest);
    }
  }

  /** There are n(n-1) ordered pairs. */
  lemma {:induction false} PairsCount<C>(cs: seq<C>)
    requires NoDup(cs)
    ensures |PairsOf(cs)| == |cs| * (|cs| - 1)
  {
    if cs == [] {
      assert PairsOf(cs) == {};
    } else {
      var a, rest := cs[0], cs[1..];
      assert cs == [a] + rest;
      assert a !in rest;
      PairsCount(rest);
      RowCount(a, rest);
      PairsStep(a, rest);
      OneMore(|rest|);
    }
  }

  lemma OneMore(n: nat)
    ensures (n + 1) * n == n * (n - 1) + 2 * n
  {
  }

  /** Pairs are wholly present, with opposite roles, or wholly absent. */
  predicate PairClosed(g: Gateways) {
    forall k :: k in g ==> k.0 != k.1 && (k.1, k.0) in g && g[(k.1, k.0)].role != g[k].role
  }

  /** What a run of creations owes: nothing lost, the added pairs there, new gateways built by build. */
  ghost predicate Extends(g: Gateways, r: Gateways, added: set<(string, string)>, build: Builder) {
    && r.Keys == g.Keys + added
    && (forall k :: k in g ==> r[k] == g[k])
    && (forall k :: k in r && k !in g ==> r[k] == build(k.0, k.1, r[k].role))
  }

  /** A builder that puts the role it is given into the gateway. */
  ghost predicate KeepsRole(build: Builder) {
    forall a, b, role :: build(a, b, role).role == role
  }

  lemma BuilderKeepsRole(s: Slice, cm: map<string, int>)
    ensures KeepsRole(BuilderOf(s, cm))
  {
  }

  lemma AddPairExtends(g: Gateways, a: string, b: string, build: Builder)
    requires PairClosed(g) && KeepsRole(build) && a != b
    ensures var r := AddPair(g, a, b, build);
      && r.ok && PairClosed(r.gws) && Extends(g, r.gws, {(a, b), (b, a)}, build)
      && ((a, b) !in g ==> r.gws[(a, b)].role == Server)
  {
    if (a, b) in g {
      assert (b, a) in g;
    } else {
      assert (b, a) in g ==> (a, b) in g;
      TwoMore(g, a, b, build(a, b, Server), build(b, a, Client));
    }
  }

  lemma TwoMore(g: Gateways, a: string, b: string, server: Gateway, client: Gateway)
    requires PairClosed(g) && a != b && (a, b) !in g && (b, a) !in g && server.role != client.role
    ensures PairClosed(g[(a, b) := server][(b, a) := client])
  {
    var r := g[(a, b) := server][(b, a) := client];
    forall k | k in r ensures k.0 != k.1 && (k.1, k.0) in r && r[(k.1, k.0)].role != r[k].role {
      if k in g { assert (k.1, k.0) in g; }
    }
  }

  lemma ExtendsTwice(g: Gateways, r: Gateways, r': Gateways,
                     x: set<(string, string)>, y: set<(string, string)>, build: Builder)
    requires Extends(g, r, x, build) && Extends(r, r', y, build)
    ensures Extends(g, r', x + y, build)
  {
  }

  lemma {:induction false} AddRowExtends(g: Gateways, a: string, bs: seq<string>, build: Builder)
    requires PairClosed(g) && KeepsRole(build) && a !in bs && NoDup(bs)
    ensures var r := AddRow(g, a, bs, build);
      && r.ok && PairClosed(r.gws) && Extends(g, r.gws, RowPairs(a, bs), build)
      && forall b :: b in bs && (a, b) !in g ==> r.gws[(a, b)].role == Server
    decreases bs
  {
    if bs == [] {
      assert RowPairs(a, bs) == {};
    } else {
      var b, rest := bs[0], bs[1..];
      assert bs == [b] + rest;
      AddPairExtends(g, a, b, build);
      var g' := AddPair(g, a, b, build).gws;
      AddRowExtends(g', a, rest, build);
      var r := AddRow(g', a, rest, build).gws;
      ExtendsTwice(g, g', r, {(a, b), (b, a)}, RowPairs(a, rest), build);
      RowPairsStep(a, b, rest);
      forall c | c in bs && (a, c) !in g ensures r[(a, c)].role == Server {
        if c == b { assert r[(a, c)] == g'[(a, c)]; } else { assert c in rest && (a, c) !in g'; }
      }
    }
  }

  /** From a pair-closed store the create loops never fail. */
  lemma {:induction false} AddAllExtends(g: Gateways, cs: seq<string>, build: Builder)
    requires PairClosed(g) && KeepsRole(build) && NoDup(cs)
    ensures var r := AddAll(g, cs, build);
      r.ok && PairClosed(r.gws) && Extends(g, r.gws, PairsOf(cs), build)
    decreases cs
  {
    if cs == [] {
      assert PairsOf(cs) == {};
    } else {
      var a, rest := cs[0], cs[1..];
      assert cs == [a] + rest;
      assert a !in rest;
      AddRowExtends(g, a, rest, build);
      var g' := AddRow(g, a, rest, build).gws;
      AddAllExtends(g', rest, build);
      ExtendsTwice(g, g', AddAll(g', rest, build).gws, RowPairs(a, rest), PairsOf(rest), build);
      PairsStep(a, rest);
    }
  }

  lemma FirstServes(g: Gateways, a: string, rest: seq<string>, build: Builder, b: string)
    requires PairClosed(g) && KeepsRole(build) && NoDup(rest) && a !in rest && b in rest && (a, b) !in g
    ensures var r := AddAll(AddRow(g, a, rest, build).gws, rest, build).gws; (a, b) in r && r[(a, b)].role == Server
  {
    AddRowExtends(g, a, rest, build);
    var g' := AddRow(g, a, rest, build).gws;
    assert (a, b) in RowPairs(a, rest);
    AddAllExtends(g', rest, build);
  }

  lemma LaterAbsent(g: Gateways, a: string, rest: seq<string>, build: Builder, b: string, c: string)
    requires PairClosed(g) && KeepsRole(build) && NoDup(rest) && a !in rest && a != b && a != c && (b, c) !in g
    ensures PairClosed(AddRow(g, a, rest, build).gws) && (b, c) !in AddRow(g, a, rest, build).gws
  {
    AddRowExtends(g, a, rest, build);
    assert (b, c) !in RowPairs(a, rest);
  }

  /** Of a new pair the cluster named earlier becomes the server. */
  lemma {:induction false} EarlierServes(g: Gateways, cs: seq<string>, build: Builder, i: nat, j: nat)
    requires PairClosed(g) && KeepsRole(build) && NoDup(cs)
    requires i < j < |cs| && (cs[i], cs[j]) !in g
    ensures (cs[i], cs[j]) in AddAll(g, cs, build).gws && AddAll(g, cs, build).gws[(cs[i], cs[j])].role == Server
    decreases cs
  {
    var a, rest := cs[0], cs[1..];
    assert cs == [a] + rest;
    assert a !in rest && cs[j] == rest[j - 1];
    var g' := AddRow(g, a, rest, build).gws;
    assert AddAll(g, cs, build) == AddAll(g', rest, build) by { AddRowExtends(g, a, rest, build); }
    if i == 0 {
      FirstServes(g, a, rest, build, cs[j]);
    } else {
      assert cs[i] == rest[i - 1];
      LaterAbsent(g, a, rest, build, cs[i], cs[j]);
      EarlierServes(g', rest, build, i - 1, j - 1);
    }
  }

  /** The exact mesh of the clusters under the octets o. */
  ghost predicate Exact(s: Slice, g: Gateways, clusters: seq<string>, o: map<string, int>) {
    && g.Keys == PairsOf(clusters) && PairClosed(g)
    && forall k :: k in g ==> g[k] == Make(s, k.0, k.1, g[k].role, o)
  }

  /** In an exact mesh: n(n-1) gateways; the two of a pair mirror each other, one server and one client. */
  lemma ExactMeshFacts(s: Slice, g: Gateways, clusters: seq<string>, o: map<string, int>)
    requires Exact(s, g, clusters, o) && NoDup(clusters)
    ensures |g| == |clusters| * (|clusters| - 1)
    ensures forall a, b :: a in clusters && b in clusters && a != b ==>
      && (a, b) in g && (b, a) in g
      && {g[(a, b)].role, g[(b, a)].role} == {Server, Client}
      && g[(a, b)].local == g[(b, a)].remote && g[(a, b)].remote == g[(b, a)].local
      && g[(a, b)].number == g[(b, a)].number
  {
    PairsCount(clusters);
    forall a, b | a in clusters && b in clusters && a != b
      ensures (a, b) in g && (b, a) in g
      ensures {g[(a, b)].role, g[(b, a)].role} == {Server, Client}
      ensures g[(a, b)].local == g[(b, a)].remote && g[(a, b)].remote == g[(b, a)].local
      ensures g[(a, b)].number == g[(b, a)].number
    {
      assert (a, b) in PairsOf(clusters) && (b, a) in PairsOf(clusters);
      NumberSymmetric(IndexOf(o, a), IndexOf(o, b));
    }
  }

  lemma NumberSymmetric(x: int, y: int)
    ensures Number(x, y) == Number(y, x)
  {
  }

  // ----- Object names -----

  /** The object name of a gateway. */
  function GatewayName(slice: string, a: string, b: string): string {
    slice + "-" + a + "-" + b
  }

  /** c-d is a-b read with the hyphen between source and destination moved left. */
  predicate Regrouped(a: string, b: string, c: string, d: string) {
    |c| < |a| && a == c + "-" + a[|c| + 1..] && d == a[|c| + 1..] + "-" + b
  }

  /** Two gateways of a slice share a name exactly when one is the other with the hyphen moved. */
  lemma GatewayNamesClash(slice: string, a: string, b: string, c: string, d: string)
    requires (a, b) != (c, d)
    ensures GatewayName(slice, a, b) == GatewayName(slice, c, d) <==> Regrouped(a, b, c, d) || Regrouped(c, d, a, b)
  {
    CutPrefix(slice + "-", a + "-" + b, c + "-" + d);
    assert GatewayName(slice, a, b) == slice + "-" + (a + "-" + b);
    assert GatewayName(slice, c, d) == slice + "-" + (c + "-" + d);
    if |c| < |a| {
      OneSide(a, b, c, d);
    } else if |a| < |c| {
      OneSide(c, d, a, b);
    } else {
      assert a == (a + "-" + b)[..|a|] && c == (c + "-" + d)[..|a|];
      assert b == (a + "-" + b)[|a| + 1..] && d == (c + "-" + d)[|a| + 1..];
    }
  }

  lemma CutPrefix(p: string, x: string, y: string)
    ensures p + x == p + y <==> x == y
  {
    assert (p + x)[|p|..] == x && (p + y)[|p|..] == y;
  }

  lemma OneSide(a: string, b: string, c: string, d: string)
    requires |c| < |a|
    ensures a + "-" + b == c + "-" + d <==> Regrouped(a, b, c, d)
  {
    var x, y, w := a + "-" + b, c + "-" + d, a[|c| + 1..];
    if x == y {
      assert a == x[..|a|] == y[..|a|];
      assert a[..|c|] == y[..|c|] == c && a[|c|] == y[|c|] == '-';
      assert d == y[|c| + 1..] == x[|c| + 1..] == w + "-" + b;
    }
    if Regrouped(a, b, c, d) {
      assert x == c + "-" + w + "-" + b == c + "-" + (w + "-" + b);
    }
  }

  /** The words between the hyphens of slice, source and destination. */
  function NameWords(slice: string, a: string, b: string): seq<string> {
    Split(slice, '-') + Split(a, '-') + Split(b, '-')
  }

  /** Two gateways, of any slices of a namespace, share a name exactly when their words in a row are the same. */
  lemma NamesByWords(slice: string, a: string, b: string, slice': string, c: string, d: string)
    ensures GatewayName(slice, a, b) == GatewayName(slice', c, d) <==> NameWords(slice, a, b) == NameWords(slice', c, d)
  {
    WordsOfName(slice, a, b);
    WordsOfName(slice', c, d);
    JoinSplit(GatewayName(slice, a, b), '-');
    JoinSplit(GatewayName(slice', c, d), '-');
  }

  lemma WordsOfName(slice: string, a: string, b: string)
    ensures Split(GatewayName(slice, a, b), '-') == NameWords(slice, a, b)
  {
    SplitAcross(slice + "-" + a, b, '-');
    SplitAcross(slice, a, '-');
  }

  /** So a hyphen can move between slice and source as well: s with a-b, and s-a with b. */
  lemma SlicesClash(slice: string, a: string, b: string, c: string)
    ensures GatewayName(slice, a + "-" + b, c) == GatewayName(slice + "-" + a, b, c)
  {
    SplitAcross(slice, a, '-');
    SplitAcross(a, b, '-');
    NamesByWords(slice, a + "-" + b, c, slice + "-" + a, b, c);
  }
}
