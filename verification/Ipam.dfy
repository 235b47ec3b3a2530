/** ComputeClusterMap: which index of the slice subnet each cluster holds. */
module Ipam {
  import opened Text
  import opened Sequences

  /** A listed worker slice config: its worker-cluster label and its octet, when set. */
  datatype Listed = Listed(cluster: string, octet: Option<int>)

  // ----- What the loops leave -----

  /** The octet recorded for each cluster. */
  function Octets(l: seq<Listed>): map<string, int> {
    if l == [] then map[]
    else
      var last, rest := l[|l| - 1], Octets(l[..|l| - 1]);
      if last.octet.Some? then rest[last.cluster := last.octet.value] else rest
  }

  /** Whether a cluster still needs an index: not listed, or listed last without an octet. */
  predicate Pending(l: seq<Listed>, c: string) {
    l == [] ||
    var last := l[|l| - 1];
    if last.cluster == c then last.octet.None? else Pending(l[..|l| - 1], c)
  }

  function Used(l: seq<Listed>): set<int> {
    if l == [] then {}
    else
      var last, rest := l[|l| - 1], Used(l[..|l| - 1]);
      if last.octet.Some? then rest + {last.octet.value} else rest
  }

  /** The indexes below n that are not used, in order. */
  function Free(n: nat, used: set<int>): seq<int> {
    if n == 0 then [] else Free(n - 1, used) + if n - 1 in used then [] else [n - 1]
  }

  /** The names that need an index, in order. */
  function Fresh(names: seq<string>, l: seq<Listed>): seq<string> {
    if names == [] then []
    else Fresh(names[..|names| - 1], l) + if Pending(l, names[|names| - 1]) then [names[|names| - 1]] else []
  }

  /** The fresh names take the free indexes in turn. */
  function Deal(m: map<string, int>, needy: seq<string>, free: seq<int>): map<string, int>
    requires |needy| <= |free|
  {
    if needy == [] then m
    else Deal(m, needy[..|needy| - 1], free)[needy[|needy| - 1] := free[|needy| - 1]]
  }

  /** The computed map; None stands for the free list running out, an index panic. */
  function ClusterMap(names: seq<string>, l: seq<Listed>): Option<map<string, int>> {
    var needy, free := Fresh(names, l), Free(|names|, Used(l));
    if |needy| <= |free| then Some(Deal(Octets(l), needy, free)) else None
  }

  lemma {:induction false} FreshPrefix(names: seq<string>, l: seq<Listed>, k: nat)
    requires k <= |names|
    ensures |Fresh(names[..k], l)| <= |Fresh(names, l)|
    ensures Fresh(names[..k], l) == Fresh(names, l)[..|Fresh(names[..k], l)|]
  {
    if k == |names| {
      assert names[..k] == names;
    } else {
      FreshPrefix(names[..|names| - 1], l, k);
      assert names[..|names| - 1][..k] == names[..k];
    }
  }

  lemma DealOne(m: map<string, int>, needy: seq<string>, c: string, free: seq<int>)
    requires |needy| < |free|
    ensures Deal(m, needy + [c], free) == Deal(m, needy, free)[c := free[|needy|]]
  {
  }

  method ComputeClusterMap(names: seq<string>, l: seq<Listed>) returns (r: Option<map<string, int>>)
    ensures r == ClusterMap(names, l)
  {
    var mapping: map<string, int> := map[];
    var temp: map<string, string> := map[];
    var used: set<int> := {};
    for i := 0 to |l|
      invariant mapping == Octets(l[..i]) && used == Used(l[..i])
      invariant forall c :: c !in temp || temp[c] == "" <==> Pending(l[..i], c)
    {
      assert l[..i + 1][..i] == l[..i];
      if l[i].octet.Some? {
        mapping := mapping[l[i].cluster := l[i].octet.value];
        temp := temp[l[i].cluster := Itoa(l[i].octet.value)];
        used := used + {l[i].octet.value};
      } else {
        temp := temp[l[i].cluster := ""];
      }
    }
    assert l[..|l|] == l;
    var free: seq<int> := [];
    for index := 0 to |names|
      invariant free == Free(index, used)
    {
      if index !in used { free := free + [index]; }
    }
    var current := 0;
    for i := 0 to |names|
      invariant current == |Fresh(names[..i], l)| <= |free|
      invariant mapping == Deal(Octets(l), Fresh(names[..i], l), free)
    {
      assert names[..i + 1][..i] == names[..i];
      ghost var before := Fresh(names[..i], l);
      FreshPrefix(names, l, i + 1);
      if names[i] !in temp || temp[names[i]] == "" {
        assert Fresh(names[..i + 1], l) == before + [names[i]];
        if current >= |free| { return None; }
        DealOne(Octets(l), before, names[i], free);
        mapping := mapping[names[i] := free[current]];
        current := current + 1;
      } else {
        assert Fresh(names[..i + 1], l) == before;
      }
    }
    assert names[..|names|] == names;
    r := Some(mapping);
  }

  // ----- One object per cluster -----

  predicate OnePerCluster(l: seq<Listed>) {
    forall i, j :: 0 <= i < j < |l| ==> l[i].cluster != l[j].cluster
  }

  predicate Injective(m: map<string, int>) {
    forall c, d :: c in m && d in m && c != d ==> m[c] != m[d]
  }

  lemma {:induction false} OctetsAreListed(l: seq<Listed>)
    ensures forall c :: c in Octets(l) ==> Listed(c, Some(Octets(l)[c])) in l
  {
    if l != [] {
      OctetsAreListed(l[..|l| - 1]);
      assert l == l[..|l| - 1] + [l[|l| - 1]];
    }
  }

  lemma {:induction false} ListedAreOctets(l: seq<Listed>)
    requires OnePerCluster(l)
    ensures forall x :: x in l && x.octet.Some? ==> x.cluster in Octets(l) && Octets(l)[x.cluster] == x.octet.value
  {
    if l != [] {
      ListedAreOctets(l[..|l| - 1]);
      assert l == l[..|l| - 1] + [l[|l| - 1]];
    }
  }

  /** With one object per cluster the three loop results say the same thing. */
  lemma {:induction false} ScanAgrees(l: seq<Listed>)
    requires OnePerCluster(l)
    ensures forall c :: Pending(l, c) <==> c !in Octets(l)
    ensures Used(l) == Octets(l).Values
  {
    if l != [] {
      var front, last := l[..|l| - 1], l[|l| - 1];
      ScanAgrees(front);
      OctetsAreListed(front);
      assert l == front + [last];
      assert last.cluster !in Octets(front);
      if last.octet.Some? { ValuesAfterUpdate(Octets(front), last.cluster, last.octet.value); }
    }
  }

  lemma ValuesAfterUpdate(m: map<string, int>, c: string, v: int)
    requires c !in m
    ensures m[c := v].Values == m.Values + {v}
  {
    var r := m[c := v];
    forall w | w in m.Values + {v} ensures w in r.Values {
      if w in m.Values {
        var d :| d in m && m[d] == w;
        assert r[d] == w;
      } else {
        assert r[c] == w;
      }
    }
  }

  // ----- Counting -----

  function Names(names: seq<string>): set<string> { Elems(names) }

  /** Listed clusters that stay, with an octet outside 0..n-1. */
  function StayingAbove(names: seq<string>, o: map<string, int>): set<string> {
    set c | c in o && c in names && !(0 <= o[c] < |names|)
  }

  /** Listed clusters that leave, with an octet inside 0..n-1. */
  function LeavingBelow(names: seq<string>, o: map<string, int>): set<string> {
    set c | c in o && c !in names && 0 <= o[c] < |names|
  }

  function Numbered(names: seq<string>, l: seq<Listed>): set<string> {
    set c | c in names && !Pending(l, c)
  }

  lemma {:induction false} FreshFacts(names: seq<string>, l: seq<Listed>)
    requires NoDup(names)
    ensures NoDup(Fresh(names, l))
    ensures forall c :: c in Fresh(names, l) <==> c in names && Pending(l, c)
    ensures |Fresh(names, l)| == |names| - |Numbered(names, l)|
  {
    if names == [] {
      assert Numbered(names, l) == {};
    } else {
      var front, last := names[..|names| - 1], names[|names| - 1];
      FreshFacts(front, l);
      assert names == front + [last];
      assert last !in front;
      if Pending(l, last) {
        assert Numbered(names, l) == Numbered(front, l);
      } else {
        assert Numbered(names, l) == Numbered(front, l) + {last};
      }
    }
  }

  function Below(used: set<int>, n: int): set<int> {
    set v | v in used && 0 <= v < n
  }

  lemma {:induction false} FreeFacts(n: nat, used: set<int>)
    ensures NoDup(Free(n, used))
    ensures forall v :: v in Free(n, used) <==> 0 <= v < n && v !in used
    ensures |Free(n, used)| == n - |Below(used, n)|
  {
    if n == 0 {
      assert Below(used, n) == {};
    } else {
      FreeFacts(n - 1, used);
      if n - 1 in used {
        assert Below(used, n) == Below(used, n - 1) + {n - 1};
      } else {
        assert Below(used, n) == Below(used, n - 1);
      }
    }
  }

  function Image(m: map<string, int>, keys: set<string>): set<int>
    requires keys <= m.Keys
  {
    set c | c in keys :: m[c]
  }

  lemma {:induction false} ImageSize(m: map<string, int>, keys: set<string>)
    requires Injective(m) && keys <= m.Keys
    ensures |Image(m, keys)| == |keys|
  {
    if keys == {} {
      assert Image(m, keys) == {};
    } else {
      var k :| k in keys;
      ImageSize(m, keys - {k});
      assert Image(m, keys) == Image(m, keys - {k}) + {m[k]};
    }
  }

  /** Counting indexes: the names with an octet, and the low indexes in use, by who holds them. */
  lemma CountByHolder(names: seq<string>, o: map<string, int>)
    requires Injective(o)
    ensures var stayingLow := set c | c in o && c in names && 0 <= o[c] < |names|;
      && |set c | c in names && c in o| == |stayingLow| + |StayingAbove(names, o)|
      && |Below(o.Values, |names|)| == |stayingLow| + |LeavingBelow(names, o)|
  {
    var stayingLow := set c | c in o && c in names && 0 <= o[c] < |names|;
    var low := stayingLow + LeavingBelow(names, o);
    ImageSize(o, low);
    assert Below(o.Values, |names|) == Image(o, low);
    assert (set c | c in names && c in o) == stayingLow + StayingAbove(names, o);
  }

  /** The free list suffices exactly when leaving clusters hold no more low indexes than staying ones left free. */
  lemma StaysInsideFreeList(names: seq<string>, l: seq<Listed>)
    requires NoDup(names) && OnePerCluster(l) && Injective(Octets(l))
    ensures ClusterMap(names, l).Some? <==>
            |LeavingBelow(names, Octets(l))| <= |StayingAbove(names, Octets(l))|
  {
    ScanAgrees(l);
    FreshFacts(names, l);
    FreeFacts(|names|, Used(l));
    CountByHolder(names, Octets(l));
    assert Numbered(names, l) == set c | c in names && c in Octets(l);
  }

  lemma {:induction false} DealFacts(m: map<string, int>, needy: seq<string>, free: seq<int>)
    requires |needy| <= |free| && NoDup(needy) && NoDup(free) && Injective(m)
    requires forall c :: c in needy ==> c !in m
    requires forall v :: v in free ==> v !in m.Values
    ensures var r := Deal(m, needy, free);
      && Injective(r) && r.Keys == m.Keys + Elems(needy)
      && (forall c :: c in m ==> r[c] == m[c])
      && (forall c :: c in needy ==> r[c] in free[..|needy|])
  {
    if needy != [] {
      var k := |needy| - 1;
      DealFacts(m, needy[..k], free);
      var r', r := Deal(m, needy[..k], free), Deal(m, needy, free);
      assert needy == needy[..k] + [needy[k]];
      assert free[..k + 1] == free[..k] + [free[k]];
      forall c | c in r' ensures r'[c] != free[k] {
        if c in m { assert m[c] in m.Values; }
      }
    }
  }

  /** Existing octets are kept, everyone has one, all differ, and new ones are below the number of clusters. */
  lemma ClusterMapFacts(names: seq<string>, l: seq<Listed>)
    requires NoDup(names) && OnePerCluster(l) && Injective(Octets(l))
    requires ClusterMap(names, l).Some?
    ensures var r := ClusterMap(names, l).value;
      && Injective(r) && r.Keys == Octets(l).Keys + Names(names)
      && (forall c :: c in Octets(l) ==> r[c] == Octets(l)[c])
      && (forall c :: c in names && c !in Octets(l) ==> 0 <= r[c] < |names|)
  {
    var o, needy, free := Octets(l), Fresh(names, l), Free(|names|, Used(l));
    assert NoDup(needy) && (forall c :: c in needy <==> c in names && c !in o) by {
      ScanAgrees(l);
      FreshFacts(names, l);
    }
    assert NoDup(free) && (forall v :: v in free ==> 0 <= v < |names| && v !in o.Values) by {
      ScanAgrees(l);
      FreeFacts(|names|, Used(l));
    }
    DealFacts(o, needy, free);
    assert o.Keys + Elems(needy) == o.Keys + Names(names);
    var r := Deal(o, needy, free);
    forall c | c in names && c !in o ensures 0 <= r[c] < |names| {
      assert r[c] in free[..|needy|];
      assert r[c] in free;
    }
  }

  // ----- The order in which indexes are dealt -----

  /** The cluster is listed with an octet. */
  ghost predicate HasOctet(l: seq<Listed>, c: string) {
    exists v: int :: Listed(c, Some(v)) in l
  }

  /** The octet is listed. */
  ghost predicate IsTaken(l: seq<Listed>, v: int) {
    exists c: string :: Listed(c, Some(v)) in l
  }

  /** Strictly increasing, and without gaps but for what is used. */
  lemma {:induction false} FreeInOrder(n: nat, used: set<int>, t: nat)
    requires t < |Free(n, used)|
    ensures forall u :: 0 <= u < t ==> Free(n, used)[u] < Free(n, used)[t]
    ensures forall v :: 0 <= v < Free(n, used)[t] && v !in used ==> v in Free(n, used)[..t]
  {
    FreeFacts(n - 1, used);
    var rest := Free(n - 1, used);
    if t < |rest| {
      FreeInOrder(n - 1, used, t);
      assert Free(n, used)[..t] == rest[..t];
    } else {
      assert Free(n, used)[..t] == rest;
      forall u | 0 <= u < t ensures Free(n, used)[u] < n - 1 { assert rest[u] in rest; }
    }
  }

  /** A fresh name stands behind the fresh names before it. */
  lemma FreshPlace(names: seq<string>, l: seq<Listed>, i: nat)
    requires i < |names| && Pending(l, names[i])
    ensures |Fresh(names[..i], l)| < |Fresh(names, l)| && Fresh(names, l)[|Fresh(names[..i], l)|] == names[i]
  {
    FreshPrefix(names, l, i + 1);
    assert names[..i + 1][..i] == names[..i];
  }

  lemma FreshEarlier(names: seq<string>, l: seq<Listed>, i: nat, j: nat)
    requires i < j < |names| && Pending(l, names[i])
    ensures |Fresh(names[..i], l)| < |Fresh(names[..j], l)|
  {
    assert names[..j][..i] == names[..i];
    FreshPlace(names[..j], l, i);
  }

  lemma {:induction false} DealAt(m: map<string, int>, needy: seq<string>, free: seq<int>, t: nat)
    requires |needy| <= |free| && NoDup(needy) && t < |needy|
    ensures needy[t] in Deal(m, needy, free) && Deal(m, needy, free)[needy[t]] == free[t]
  {
    if t < |needy| - 1 { DealAt(m, needy[..|needy| - 1], free, t); }
  }

  /** What a name without an octet gets: the free index at its place among such names. */
  lemma DealtAt(names: seq<string>, l: seq<Listed>, i: nat)
    requires NoDup(names) && ClusterMap(names, l).Some? && i < |names| && Pending(l, names[i])
    ensures names[i] in ClusterMap(names, l).value
    ensures |Fresh(names[..i], l)| < |Free(|names|, Used(l))|
    ensures ClusterMap(names, l).value[names[i]] == Free(|names|, Used(l))[|Fresh(names[..i], l)|]
  {
    FreshFacts(names, l);
    FreshPlace(names, l, i);
    DealAt(Octets(l), Fresh(names, l), Free(|names|, Used(l)), |Fresh(names[..i], l)|);
  }

  /** Who got the free index number t. */
  lemma {:induction false} FreshAt(names: seq<string>, l: seq<Listed>, t: nat) returns (i: nat)
    requires t < |Fresh(names, l)|
    ensures i < |names| && Pending(l, names[i]) && |Fresh(names[..i], l)| == t
  {
    var n := |names| - 1;
    if t < |Fresh(names[..n], l)| {
      i := FreshAt(names[..n], l, t);
      assert names[..n][..i] == names[..i];
    } else {
      i := n;
    }
  }

  /** Having no listed octet is what makes a name need an index. */
  lemma PendingMeans(l: seq<Listed>, c: string)
    requires OnePerCluster(l)
    ensures Pending(l, c) <==> !HasOctet(l, c)
  {
    ScanAgrees(l);
    OctetsAreListed(l);
    ListedAreOctets(l);
  }

  lemma UsedMeans(l: seq<Listed>, v: int)
    requires OnePerCluster(l)
    ensures v in Used(l) <==> IsTaken(l, v)
  {
    ScanAgrees(l);
    OctetsAreListed(l);
    ListedAreOctets(l);
    if c: string :| Listed(c, Some(v)) in l { assert Octets(l)[c] == v; }
    if v in Octets(l).Values {
      var c :| c in Octets(l) && Octets(l)[c] == v;
      assert Listed(c, Some(v)) in l;
    }
  }

  /** Indexes are dealt in the order of the names, each the least one left: of two names without a listed octet the
      earlier gets the smaller index, and below the index of such a name every number is a listed octet or went to an
      earlier such name. */
  lemma DealtInOrder(names: seq<string>, l: seq<Listed>, j: nat)
    requires NoDup(names) && OnePerCluster(l) && ClusterMap(names, l).Some?
    requires j < |names| && !HasOctet(l, names[j])
    ensures var r := ClusterMap(names, l).value;
      && (forall c :: c in names ==> c in r)
      && (forall i :: 0 <= i < j && !HasOctet(l, names[i]) ==> r[names[i]] < r[names[j]])
      && forall v :: 0 <= v < r[names[j]] && !IsTaken(l, v) ==>
           exists i :: 0 <= i < j && !HasOctet(l, names[i]) && r[names[i]] == v
  {
    var r, free, t := ClusterMap(names, l).value, Free(|names|, Used(l)), |Fresh(names[..j], l)|;
    AllDealt(names, l);
    PendingMeans(l, names[j]);
    DealtAt(names, l, j);
    FreeInOrder(|names|, Used(l), t);
    forall i | 0 <= i < j && !HasOctet(l, names[i]) ensures r[names[i]] < r[names[j]] {
      PendingMeans(l, names[i]);
      DealtAt(names, l, i);
      FreshEarlier(names, l, i, j);
    }
    forall v | 0 <= v < r[names[j]] && !IsTaken(l, v)
      ensures exists i :: 0 <= i < j && !HasOctet(l, names[i]) && r[names[i]] == v
    {
      UsedMeans(l, v);
      var u :| 0 <= u < t && free[u] == v;
      var i := FreshAt(names[..j], l, u);
      assert names[..j][..i] == names[..i] && names[..j][i] == names[i];
      PendingMeans(l, names[i]);
      DealtAt(names, l, i);
    }
  }

  lemma AllDealt(names: seq<string>, l: seq<Listed>)
    requires NoDup(names) && OnePerCluster(l) && ClusterMap(names, l).Some?
    ensures forall c :: c in names ==> c in ClusterMap(names, l).value
  {
    ScanAgrees(l);
    forall c | c in names ensures c in ClusterMap(names, l).value {
      if c in Octets(l) { DealKeeps(Octets(l), Fresh(names, l), Free(|names|, Used(l)), c); }
      else {
        var i :| 0 <= i < |names| && names[i] == c;
        DealtAt(names, l, i);
      }
    }
  }

  lemma {:induction false} DealKeeps(m: map<string, int>, needy: seq<string>, free: seq<int>, c: string)
    requires |needy| <= |free| && c in m
    ensures c in Deal(m, needy, free)
  {
    if needy != [] { DealKeeps(m, needy[..|needy| - 1], free, c); }
  }

  /** The result depends on the listed octets only, not on the order of the list. */
  lemma OrderDoesNotMatter(names: seq<string>, l: seq<Listed>, k: seq<Listed>)
    requires OnePerCluster(l) && OnePerCluster(k) && Octets(l) == Octets(k)
    ensures ClusterMap(names, l) == ClusterMap(names, k)
  {
    ScanAgrees(l);
    ScanAgrees(k);
    SameFresh(names, l, k);
  }

  lemma {:induction false} SameFresh(names: seq<string>, l: seq<Listed>, k: seq<Listed>)
    requires forall c :: Pending(l, c) <==> Pending(k, c)
    ensures Fresh(names, l) == Fresh(names, k)
  {
    if names != [] { SameFresh(names[..|names| - 1], l, k); }
  }

  /** A swap of one cluster while the old object lingers: the free list runs out. */
  lemma SwapWhileLingeringPanics(a: string, b: string, c: string)
    requires a != b && b != c && a != c
    ensures ClusterMap([a, c], [Listed(a, Some(0)), Listed(b, Some(1))]) == None
  {
    var l := [Listed(a, Some(0)), Listed(b, Some(1))];
    OctetsAreListed(l);
    ListedAreOctets(l);
    assert Listed(a, Some(0)) in l && Listed(b, Some(1)) in l;
    var o := Octets(l);
    assert LeavingBelow([a, c], o) == {b} && StayingAbove([a, c], o) == {};
    StaysInsideFreeList([a, c], l);
  }
}
