/** Application namespaces of a slice, taken away from the default slice: slice_config_service.go. */
module AppNamespaces {
  import opened Text
  import opened Powers
  import opened Sequences
  import opened GoSlices

  /** A namespace and the clusters it is selected on. */
  datatype Selection = Selection(ns: string, clusters: seq<string>)

  /** The same with its cluster list as the program holds it. */
  datatype Entry = Entry(ns: string, clusters: GoSlice)

  /** Every list has its own array. */
  ghost predicate Separate(es: seq<Entry>) {
    && (forall i :: 0 <= i < |es| ==> InBounds(es[i].clusters))
    && forall i, j :: 0 <= i < j < |es| ==> es[i].clusters.arr != es[j].clusters.arr
  }

  function Arrays(es: seq<Entry>): set<array<string>> {
    set e | e in es :: e.clusters.arr
  }

  ghost function ValueOf(e: Entry): Selection
    requires InBounds(e.clusters)
    reads e.clusters.arr
  {
    Selection(e.ns, Items(e.clusters))
  }

  /** What the entries denote. */
  ghost predicate Denotes(es: seq<Entry>, vs: seq<Selection>)
    reads Arrays(es)
  {
    |es| == |vs| && forall i :: 0 <= i < |es| ==> InBounds(es[i].clusters) && ValueOf(es[i]) == vs[i]
  }

  /** The clusters of a namespace that are marked for removal. */
  function DropFor(marked: set<(string, string)>, ns: string): set<string> {
    set m | m in marked && m.0 == ns :: m.1
  }

  /** What becomes of one entry: a longer one is swept and always kept, a single one is kept or dropped. */
  function RemovedOne(v: Selection, marked: set<(string, string)>): seq<Selection> {
    if |v.clusters| > 1 then [Selection(v.ns, Swept(v.clusters, DropFor(marked, v.ns)))]
    else if v.clusters == [] || (v.ns, v.clusters[0]) in marked then []
    else [v]
  }

  /** removeSliceApplicationNamespaces, when it does not panic. */
  function Removed(vs: seq<Selection>, marked: set<(string, string)>): seq<Selection> {
    if vs == [] then [] else Removed(vs[..|vs| - 1], marked) + RemovedOne(vs[|vs| - 1], marked)
  }

  /** An entry without clusters: its first one is out of range. */
  predicate HasEmptyEntry(vs: seq<Selection>) {
    exists i :: 0 <= i < |vs| && vs[i].clusters == []
  }

  /** One entry: swept, dropped or kept. */
  method RemoveFromEntry(e: Entry, marked: set<(string, string)>, ghost v: Selection) returns (r: seq<Entry>)
    requires InBounds(e.clusters) && ValueOf(e) == v && NoDup(v.clusters) && v.clusters != []
    modifies e.clusters.arr
    ensures forall o :: o in r ==> o.clusters.arr == e.clusters.arr
    ensures Denotes(r, RemovedOne(v, marked))
    ensures RemovedOne(v, marked) == [v] ==> ValueOf(e) == v
  {
    if e.clusters.len > 1 {
      var swept := SweepEntry(e.clusters, DropFor(marked, e.ns));
      r := [Entry(e.ns, swept)];
    } else if (e.ns, e.clusters.arr[0]) in marked {
      r := [];
    } else {
      r := [e];
    }
  }

  lemma DenotesAppend(es: seq<Entry>, fs: seq<Entry>, vs: seq<Selection>, ws: seq<Selection>)
    requires Denotes(es, vs) && Denotes(fs, ws)
    ensures Denotes(es + fs, vs + ws)
  {
  }

  /** Midway through the entries: out denotes done, over arrays of the first i; the rest is as it was. */
  ghost predicate Processed(es: seq<Entry>, i: nat, out: seq<Entry>, done: seq<Selection>, vs: seq<Selection>)
    reads Arrays(es), Arrays(out)
  {
    && |es| == |vs| && i <= |es| && Denotes(out, done)
    && Arrays(out) <= Arrays(es[..i]) && Denotes(es[i..], vs[i..])
  }

  /** The array of entry i is neither among those before nor among those after it. */
  lemma OwnArray(es: seq<Entry>, i: nat)
    requires Separate(es) && i < |es|
    ensures es[i].clusters.arr in Arrays(es)
    ensures es[i].clusters.arr !in Arrays(es[..i]) && es[i].clusters.arr !in Arrays(es[i + 1..])
    ensures Arrays(es[..i + 1]) == Arrays(es[..i]) + {es[i].clusters.arr}
  {
  }

  lemma DenotesNext(es: seq<Entry>, vs: seq<Selection>, i: nat)
    requires |es| == |vs| && i < |es| && Denotes(es[i..], vs[i..])
    ensures InBounds(es[i].clusters) && ValueOf(es[i]) == vs[i] && Denotes(es[i + 1..], vs[i + 1..])
  {
  }

  /** Of the first i entries those that stay as they are still denote the same. */
  ghost predicate Untouched(es: seq<Entry>, vs: seq<Selection>, i: nat, marked: set<(string, string)>)
    requires i <= |es| == |vs|
    reads Arrays(es)
  {
    forall j :: 0 <= j < i && RemovedOne(vs[j], marked) == [vs[j]] ==> InBounds(es[j].clusters) && ValueOf(es[j]) == vs[j]
  }

  lemma UntouchedAll(es: seq<Entry>, vs: seq<Selection>, marked: set<(string, string)>)
    requires |es| == |vs| && Untouched(es, vs, |es|, marked)
    requires forall j :: 0 <= j < |vs| ==> RemovedOne(vs[j], marked) == [vs[j]]
    ensures Denotes(es, vs)
  {
  }

  method RemoveNext(es: seq<Entry>, i: nat, out: seq<Entry>, marked: set<(string, string)>, ghost vs: seq<Selection>)
      returns (out': seq<Entry>)
    requires Separate(es) && i < |es| == |vs| && Processed(es, i, out, Removed(vs[..i], marked), vs)
    requires NoDup(vs[i].clusters) && vs[i].clusters != [] && Untouched(es, vs, i, marked)
    modifies es[i].clusters.arr
    ensures Processed(es, i + 1, out', Removed(vs[..i + 1], marked), vs)
    ensures Untouched(es, vs, i + 1, marked)
  {
    OwnArray(es, i);
    DenotesNext(es, vs, i);
    var part := RemoveFromEntry(es[i], marked, vs[i]);
    DenotesAppend(out, part, Removed(vs[..i], marked), RemovedOne(vs[i], marked));
    assert vs[..i + 1][..i] == vs[..i];
    out' := out + part;
  }

  /** The loop over the entries; None stands for the panic. */
  method RemoveSliceApplicationNamespaces(es: seq<Entry>, marked: set<(string, string)>, ghost vs: seq<Selection>)
      returns (r: Option<seq<Entry>>)
    requires Separate(es) && Denotes(es, vs) && forall i :: 0 <= i < |vs| ==> NoDup(vs[i].clusters)
    modifies Arrays(es)
    ensures r.None? <==> HasEmptyEntry(vs)
    ensures r.Some? ==> Denotes(r.value, Removed(vs, marked)) && Untouched(es, vs, |es|, marked)
  {
    var out: seq<Entry> := [];
    for i := 0 to |es|
      invariant Untouched(es, vs, i, marked)
      invariant Processed(es, i, out, Removed(vs[..i], marked), vs)
      invariant forall j :: 0 <= j < i ==> vs[j].clusters != []
    {
      if es[i].clusters.len == 0 { return None; }
      OwnArray(es, i);
      out := RemoveNext(es, i, out, marked, vs);
    }
    assert vs[..|vs|] == vs;
    r := Some(out);
  }

  // ----- What that means for the two slices -----

  function EntryPairs(v: Selection): set<(string, string)> {
    set c | c in v.clusters :: (v.ns, c)
  }

  /** The (namespace, cluster) pairs a list selects. */
  function PairsOfEntries(vs: seq<Selection>): set<(string, string)> {
    if vs == [] then {} else PairsOfEntries(vs[..|vs| - 1]) + EntryPairs(vs[|vs| - 1])
  }

  lemma {:induction false} PairMembers(vs: seq<Selection>, p: (string, string))
    ensures p in PairsOfEntries(vs) <==> exists i :: 0 <= i < |vs| && vs[i].ns == p.0 && p.1 in vs[i].clusters
  {
    if vs != [] {
      var n := |vs| - 1;
      PairMembers(vs[..n], p);
      assert forall i :: 0 <= i < n ==> vs[..n][i] == vs[i];
    }
  }

  /** The pairs one entry stands for: a leading * means all the slice's clusters. */
  function MeantPairs(clusters: seq<string>, v: Selection): set<(string, string)> {
    if v.clusters != [] && v.clusters[0] == "*" then set c | c in clusters :: (v.ns, c) else EntryPairs(v)
  }

  function NamespacePairs(clusters: seq<string>, vs: seq<Selection>): set<(string, string)> {
    if vs == [] then {} else NamespacePairs(clusters, vs[..|vs| - 1]) + MeantPairs(clusters, vs[|vs| - 1])
  }

  /** A list with these clusters behind it selects the pair. */
  predicate SelectedBy(clusters: seq<string>, vs: seq<Selection>, p: (string, string)) {
    exists i :: 0 <= i < |vs| && vs[i].ns == p.0 &&
      if vs[i].clusters != [] && vs[i].clusters[0] == "*" then p.1 in clusters else p.1 in vs[i].clusters
  }

  /** The map holds exactly the selected pairs. */
  lemma {:induction false} NamespacePairsExactly(clusters: seq<string>, vs: seq<Selection>, p: (string, string))
    ensures p in NamespacePairs(clusters, vs) <==> SelectedBy(clusters, vs, p)
  {
    if vs != [] {
      var n := |vs| - 1;
      NamespacePairsExactly(clusters, vs[..n], p);
      assert forall i :: 0 <= i < n ==> vs[..n][i] == vs[i];
    }
  }

  lemma MeantGrows(ns: string, cs: seq<string>, k: nat)
    requires k < |cs|
    ensures (set c | c in cs[..k + 1] :: (ns, c)) == (set c | c in cs[..k] :: (ns, c)) + {(ns, cs[k])}
  {
    assert cs[..k + 1] == cs[..k] + [cs[k]];
  }

  /** constructApplicationNamespaceMap. */
  method ConstructApplicationNamespaceMap(clusters: seq<string>, vs: seq<Selection>) returns (m: set<(string, string)>)
    ensures m == NamespacePairs(clusters, vs)
    ensures forall p :: p in m <==> SelectedBy(clusters, vs, p)
  {
    m := {};
    for i := 0 to |vs|
      invariant m == NamespacePairs(clusters, vs[..i])
    {
      assert vs[..i + 1][..i] == vs[..i];
      var cs := if |vs[i].clusters| > 0 && vs[i].clusters[0] == "*" then clusters else vs[i].clusters;
      ghost var before := m;
      for k := 0 to |cs|
        invariant m == before + set c | c in cs[..k] :: (vs[i].ns, c)
      {
        MeantGrows(vs[i].ns, cs, k);
        m := m + {(vs[i].ns, cs[k])};
      }
      assert cs[..|cs|] == cs;
    }
    assert vs[..|vs|] == vs;
    forall p ensures p in m <==> SelectedBy(clusters, vs, p) { NamespacePairsExactly(clusters, vs, p); }
  }

  lemma {:induction false} NamespacePairsPlain(clusters: seq<string>, vs: seq<Selection>)
    requires forall i :: 0 <= i < |vs| ==> "*" !in vs[i].clusters
    ensures NamespacePairs(clusters, vs) == PairsOfEntries(vs)
  {
    if vs != [] { NamespacePairsPlain(clusters, vs[..|vs| - 1]); }
  }

  /** Sweeping keeps every cluster that is not to go, and lets go all others exactly without an inner pair. */
  lemma SweptElements(x: seq<string>, drop: set<string>)
    ensures forall c :: c in x && c !in drop ==> c in Swept(x, drop)
    ensures (forall c :: c in Swept(x, drop) ==> c !in drop) <==> NoInnerPair(x, drop)
  {
    SweptKeeps(x, drop);
    SweptIsFilter(x, drop);
    FilterDrops(x, drop);
    FilterDrops(Swept(x, drop), drop);
    if forall c :: c in Swept(x, drop) ==> c !in drop { FilterNothing(Swept(x, drop), drop); }
  }

  lemma {:induction false} FilterNothing(x: seq<string>, drop: set<string>)
    requires forall c :: c in x ==> c !in drop
    ensures Filter(x, drop) == x
  {
    if x != [] { FilterNothing(x[1..], drop); }
  }

  /** The condition under which an entry is cleared of its marked clusters. */
  predicate Clearable(v: Selection, marked: set<(string, string)>) {
    |v.clusters| > 1 ==> NoInnerPair(v.clusters, DropFor(marked, v.ns))
  }

  predicate AllClearable(vs: seq<Selection>, marked: set<(string, string)>) {
    forall i :: 0 <= i < |vs| ==> Clearable(vs[i], marked)
  }

  lemma PairsOfConcat(a: seq<Selection>, b: seq<Selection>)
    requires |b| <= 1
    ensures PairsOfEntries(a + b) == PairsOfEntries(a) + PairsOfEntries(b)
  {
    if b == [] {
      assert a + b == a;
    } else {
      assert (a + b)[..|a|] == a && b[..0] == [];
    }
  }

  lemma PairsOfOne(v: Selection)
    ensures PairsOfEntries([v]) == EntryPairs(v)
  {
  }

  lemma RemovedOneDisjoint(v: Selection, marked: set<(string, string)>)
    ensures PairsOfEntries(RemovedOne(v, marked)) !! marked <==> Clearable(v, marked)
  {
    var drop := DropFor(marked, v.ns);
    assert forall c :: c in drop <==> (v.ns, c) in marked;
    if |v.clusters| > 1 {
      var w := Selection(v.ns, Swept(v.clusters, drop));
      SweptElements(v.clusters, drop);
      PairsOfOne(w);
      assert forall c :: c in w.clusters <==> (v.ns, c) in EntryPairs(w);
    } else {
      PairsOfOne(v);
    }
  }

  /** The default slice ends up sharing no marked pair exactly when every multi-cluster entry was clearable. */
  lemma {:induction false} RemovedDisjoint(vs: seq<Selection>, marked: set<(string, string)>)
    ensures PairsOfEntries(Removed(vs, marked)) !! marked <==> AllClearable(vs, marked)
  {
    if vs != [] {
      var n := |vs| - 1;
      RemovedDisjoint(vs[..n], marked);
      RemovedOneDisjoint(vs[n], marked);
      PairsOfConcat(Removed(vs[..n], marked), RemovedOne(vs[n], marked));
      DisjointUnion(PairsOfEntries(Removed(vs[..n], marked)), PairsOfEntries(RemovedOne(vs[n], marked)), marked);
      AllClearableStep(vs, marked);
    }
  }

  lemma DisjointUnion(a: set<(string, string)>, b: set<(string, string)>, marked: set<(string, string)>)
    ensures a + b !! marked <==> a !! marked && b !! marked
  {
  }

  lemma AllClearableStep(vs: seq<Selection>, marked: set<(string, string)>)
    requires vs != []
    ensures AllClearable(vs, marked) <==> AllClearable(vs[..|vs| - 1], marked) && Clearable(vs[|vs| - 1], marked)
  {
  }

  lemma RemovedOneKeeps(v: Selection, marked: set<(string, string)>)
    ensures EntryPairs(v) - marked <= PairsOfEntries(RemovedOne(v, marked)) <= EntryPairs(v)
  {
    var drop := DropFor(marked, v.ns);
    assert forall c :: c in drop <==> (v.ns, c) in marked;
    if |v.clusters| > 1 {
      SweptElements(v.clusters, drop);
      SweptWithin(v.clusters, drop);
      PairsOfOne(Selection(v.ns, Swept(v.clusters, drop)));
    } else {
      PairsOfOne(v);
    }
  }

  /** No pair outside the marked ones is ever lost. */
  lemma {:induction false} RemovedKeeps(vs: seq<Selection>, marked: set<(string, string)>)
    ensures PairsOfEntries(vs) - marked <= PairsOfEntries(Removed(vs, marked)) <= PairsOfEntries(vs)
  {
    if vs != [] {
      var n := |vs| - 1;
      RemovedKeeps(vs[..n], marked);
      RemovedOneKeeps(vs[n], marked);
      PairsOfConcat(Removed(vs[..n], marked), RemovedOne(vs[n], marked));
    }
  }

  /** Cluster k of the entry is left: it is not marked, or it is passed over before the end of a longer entry. */
  predicate Stays(v: Selection, marked: set<(string, string)>, k: nat)
    requires k < |v.clusters|
  {
    (v.ns, v.clusters[k]) !in marked || (Skipped(v.clusters, DropFor(marked, v.ns), k) && k + 1 < |v.clusters|)
  }

  predicate LeftIn(v: Selection, marked: set<(string, string)>, p: (string, string)) {
    v.ns == p.0 && exists k :: 0 <= k < |v.clusters| && v.clusters[k] == p.1 && Stays(v, marked, k)
  }

  lemma RemovedOneExactly(v: Selection, marked: set<(string, string)>, p: (string, string))
    requires NoDup(v.clusters)
    ensures p in PairsOfEntries(RemovedOne(v, marked)) <==> LeftIn(v, marked, p)
  {
    var drop := DropFor(marked, v.ns);
    assert forall c :: c in drop <==> (v.ns, c) in marked;
    if |v.clusters| > 1 {
      PairsOfOne(Selection(v.ns, Swept(v.clusters, drop)));
      SweptWithin(v.clusters, drop);
      forall k | 0 <= k < |v.clusters| ensures v.clusters[k] in Swept(v.clusters, drop) <==> Stays(v, marked, k) {
        SweptExactly(v.clusters, drop, k);
      }
    } else {
      PairsOfOne(v);
    }
  }

  /** Removal goes entry by entry and keeps their order. */
  lemma {:induction false} RemovedConcat(a: seq<Selection>, b: seq<Selection>, marked: set<(string, string)>)
    ensures Removed(a + b, marked) == Removed(a, marked) + Removed(b, marked)
  {
    if b == [] {
      assert a + b == a;
    } else {
      assert (a + b)[..|a + b| - 1] == a + b[..|b| - 1];
      RemovedConcat(a, b[..|b| - 1], marked);
    }
  }

  /** The pair is left in some entry. */
  predicate IsLeft(vs: seq<Selection>, marked: set<(string, string)>, p: (string, string)) {
    exists i :: 0 <= i < |vs| && LeftIn(vs[i], marked, p)
  }

  /** Exactly these pairs are left. */
  lemma {:induction false} RemovedExactly(vs: seq<Selection>, marked: set<(string, string)>, p: (string, string))
    requires forall i :: 0 <= i < |vs| ==> NoDup(vs[i].clusters)
    ensures p in PairsOfEntries(Removed(vs, marked)) <==> IsLeft(vs, marked, p)
  {
    if vs != [] {
      var n := |vs| - 1;
      RemovedExactly(vs[..n], marked, p);
      RemovedOneExactly(vs[n], marked, p);
      PairsOfConcat(Removed(vs[..n], marked), RemovedOne(vs[n], marked));
      LeftStep(vs, n, marked, p);
    }
  }

  lemma LeftStep(vs: seq<Selection>, n: nat, marked: set<(string, string)>, p: (string, string))
    requires n + 1 == |vs|
    ensures IsLeft(vs, marked, p) <==> IsLeft(vs[..n], marked, p) || LeftIn(vs[n], marked, p)
  {
    assert forall i :: 0 <= i < n ==> vs[..n][i] == vs[i];
  }

  predicate UniqueNamespaces(vs: seq<Selection>) {
    forall i, j :: 0 <= i < j < |vs| ==> vs[i].ns != vs[j].ns
  }

  function Namespaces(vs: seq<Selection>): set<string> {
    set v | v in vs :: v.ns
  }

  lemma UniqueConcat(a: seq<Selection>, b: seq<Selection>)
    requires UniqueNamespaces(a) && |b| <= 1 && (b == [] || b[0].ns !in Namespaces(a))
    ensures UniqueNamespaces(a + b) && Namespaces(a + b) == Namespaces(a) + Namespaces(b)
  {
    forall i | 0 <= i < |a| ensures a[i].ns in Namespaces(a) { assert a[i] in a; }
  }

  /** The namespace of the entry stays listed. */
  predicate StaysListed(v: Selection, marked: set<(string, string)>)
    requires v.clusters != []
  {
    |v.clusters| > 1 || (v.ns, v.clusters[0]) !in marked
  }

  lemma RemovedOneListed(v: Selection, marked: set<(string, string)>)
    requires v.clusters != []
    ensures |RemovedOne(v, marked)| <= 1
    ensures Namespaces(RemovedOne(v, marked)) == if StaysListed(v, marked) then {v.ns} else {}
  {
    if StaysListed(v, marked) {
      var w := RemovedOne(v, marked)[0];
      assert RemovedOne(v, marked) == [w] && w.ns == v.ns && w in [w];
    }
  }

  /** Some entry of the namespace keeps it listed. */
  predicate SomeStaysListed(vs: seq<Selection>, marked: set<(string, string)>, n: string)
    requires !HasEmptyEntry(vs)
  {
    exists i :: 0 <= i < |vs| && vs[i].ns == n && StaysListed(vs[i], marked)
  }

  lemma SomeStaysStep(vs: seq<Selection>, k: nat, marked: set<(string, string)>, n: string)
    requires !HasEmptyEntry(vs) && k + 1 == |vs|
    ensures !HasEmptyEntry(vs[..k])
    ensures SomeStaysListed(vs, marked, n) <==> SomeStaysListed(vs[..k], marked, n) || (vs[k].ns == n && StaysListed(vs[k], marked))
  {
    assert forall i :: 0 <= i < k ==> vs[..k][i] == vs[i];
  }

  lemma NamespacesConcat(a: seq<Selection>, b: seq<Selection>)
    ensures Namespaces(a + b) == Namespaces(a) + Namespaces(b)
  {
  }

  /** Exactly the namespaces with a longer entry or an unmarked cluster stay listed. */
  lemma {:induction false} RemovedNamespaces(vs: seq<Selection>, marked: set<(string, string)>, n: string)
    requires !HasEmptyEntry(vs)
    ensures n in Namespaces(Removed(vs, marked)) <==> SomeStaysListed(vs, marked, n)
  {
    if vs != [] {
      var k := |vs| - 1;
      SomeStaysStep(vs, k, marked, n);
      RemovedNamespaces(vs[..k], marked, n);
      RemovedOneListed(vs[k], marked);
      NamespacesConcat(Removed(vs[..k], marked), RemovedOne(vs[k], marked));
    }
  }

  /** None is listed twice. */
  lemma {:induction false} RemovedUnique(vs: seq<Selection>, marked: set<(string, string)>)
    requires UniqueNamespaces(vs) && !HasEmptyEntry(vs)
    ensures UniqueNamespaces(Removed(vs, marked))
  {
    if vs != [] {
      var k := |vs| - 1;
      SomeStaysStep(vs, k, marked, vs[k].ns);
      RemovedUnique(vs[..k], marked);
      RemovedNamespaces(vs[..k], marked, vs[k].ns);
      RemovedOneListed(vs[k], marked);
      UniqueConcat(Removed(vs[..k], marked), RemovedOne(vs[k], marked));
    }
  }

  /** The pairs handleDefaultSliceConfigAppns marks: those both slices select. */
  function Marked(mine: set<(string, string)>, defaultClusters: seq<string>, vs: seq<Selection>): set<(string, string)> {
    mine * NamespacePairs(defaultClusters, vs)
  }

  /** No entry of a default slice has *. */
  predicate Starless(vs: seq<Selection>) {
    forall i :: 0 <= i < |vs| ==> "*" !in vs[i].clusters
  }

  // ----- Repeated passes -----

  /** Sweeping shrinks a list unless nothing is to go, and empties only one of at most two clusters, all to go. */
  lemma {:induction false} SweptShrinks(x: seq<string>, drop: set<string>)
    ensures |Swept(x, drop)| <= |x|
    ensures |Swept(x, drop)| == |x| <==> forall c :: c in x ==> c !in drop
    ensures |Swept(x, drop)| == |x| ==> Swept(x, drop) == x
    ensures Swept(x, drop) == [] <==> |x| <= 2 && forall c :: c in x ==> c in drop
    decreases |x|
  {
    if x == [] {
    } else if x[0] !in drop {
      SweptShrinks(x[1..], drop);
      assert x == [x[0]] + x[1..];
    } else if |x| == 1 || (|x| == 2 && x[1] in drop) {
    } else {
      SweptShrinks(x[2..], drop);
      assert x[0] in x && x[1] in x;
    }
  }

  function Total(vs: seq<Selection>): nat {
    if vs == [] then 0 else Total(vs[..|vs| - 1]) + |vs[|vs| - 1].clusters|
  }

  lemma TotalOfConcat(a: seq<Selection>, b: seq<Selection>)
    requires |b| <= 1
    ensures Total(a + b) == Total(a) + if b == [] then 0 else |b[0].clusters|
  {
    if b == [] { assert a + b == a; } else { assert (a + b)[..|a|] == a; }
  }

  lemma RemovedOneShrinks(v: Selection, marked: set<(string, string)>)
    requires v.clusters != []
    ensures var r := RemovedOne(v, marked);
      && (if r == [] then 0 else |r[0].clusters|) <= |v.clusters|
      && ((if r == [] then 0 else |r[0].clusters|) == |v.clusters| ==> r == [v])
      && (r == [v] <==> EntryPairs(v) !! marked)
      && (HasEmptyEntry(r) <==> BlockedEntry(v, marked))
  {
    var drop := DropFor(marked, v.ns);
    assert forall c :: c in drop <==> (v.ns, c) in marked;
    assert forall c :: c in v.clusters <==> (v.ns, c) in EntryPairs(v);
    SweptShrinks(v.clusters, drop);
  }

  /** Two clusters, both to go: sweeping leaves the entry in place, without clusters. */
  predicate BlockedEntry(v: Selection, marked: set<(string, string)>) {
    |v.clusters| == 2 && (v.ns, v.clusters[0]) in marked && (v.ns, v.clusters[1]) in marked
  }

  predicate Blocked(vs: seq<Selection>, marked: set<(string, string)>) {
    exists i :: 0 <= i < |vs| && BlockedEntry(vs[i], marked)
  }

  lemma EmptyEntryInConcat(a: seq<Selection>, b: seq<Selection>)
    ensures HasEmptyEntry(a + b) <==> HasEmptyEntry(a) || HasEmptyEntry(b)
  {
    var s := a + b;
    assert forall i :: 0 <= i < |a| ==> s[i] == a[i];
    assert forall i :: 0 <= i < |b| ==> s[|a| + i] == b[i];
  }

  lemma BlockedStep(vs: seq<Selection>, marked: set<(string, string)>)
    requires vs != []
    ensures Blocked(vs, marked) <==> Blocked(vs[..|vs| - 1], marked) || BlockedEntry(vs[|vs| - 1], marked)
    ensures !HasEmptyEntry(vs) ==> !HasEmptyEntry(vs[..|vs| - 1])
  {
  }

  /** The pass leaves an entry without clusters, which validateApplicationNamespaces refuses, exactly when some entry
      is blocked. */
  lemma {:induction false} RemovedEmpties(vs: seq<Selection>, marked: set<(string, string)>)
    requires !HasEmptyEntry(vs)
    ensures HasEmptyEntry(Removed(vs, marked)) <==> Blocked(vs, marked)
  {
    if vs != [] {
      var n := |vs| - 1;
      BlockedStep(vs, marked);
      RemovedEmpties(vs[..n], marked);
      RemovedOneShrinks(vs[n], marked);
      EmptyEntryInConcat(Removed(vs[..n], marked), RemovedOne(vs[n], marked));
    }
  }

  /** The pass shrinks the list exactly when a marked pair is in it. */
  lemma {:induction false} RemovedShrinks(vs: seq<Selection>, marked: set<(string, string)>)
    requires !HasEmptyEntry(vs)
    ensures Total(Removed(vs, marked)) <= Total(vs)
    ensures Total(Removed(vs, marked)) == Total(vs) <==> PairsOfEntries(vs) !! marked
  {
    if vs != [] {
      var n := |vs| - 1;
      BlockedStep(vs, marked);
      RemovedShrinks(vs[..n], marked);
      RemovedOneShrinks(vs[n], marked);
      TotalOfConcat(Removed(vs[..n], marked), RemovedOne(vs[n], marked));
      DisjointUnion(PairsOfEntries(vs[..n]), EntryPairs(vs[n]), marked);
    }
  }

  lemma UnmarkedStays(v: Selection, marked: set<(string, string)>)
    requires v.clusters != [] && EntryPairs(v) !! marked
    ensures RemovedOne(v, marked) == [v]
  {
    RemovedOneShrinks(v, marked);
  }

  lemma EntryWithin(vs: seq<Selection>, i: nat)
    requires i < |vs|
    ensures EntryPairs(vs[i]) <= PairsOfEntries(vs)
  {
    forall p | p in EntryPairs(vs[i]) ensures p in PairsOfEntries(vs) { PairMembers(vs, p); }
  }

  lemma AllStay(vs: seq<Selection>, marked: set<(string, string)>)
    requires !HasEmptyEntry(vs) && PairsOfEntries(vs) !! marked
    ensures forall i :: 0 <= i < |vs| ==> RemovedOne(vs[i], marked) == [vs[i]]
  {
    forall i | 0 <= i < |vs| ensures RemovedOne(vs[i], marked) == [vs[i]] {
      EntryWithin(vs, i);
      UnmarkedStays(vs[i], marked);
    }
  }

  lemma {:induction false} StayedSame(vs: seq<Selection>, marked: set<(string, string)>)
    requires forall i :: 0 <= i < |vs| ==> RemovedOne(vs[i], marked) == [vs[i]]
    ensures Removed(vs, marked) == vs
  {
    if vs != [] {
      StayedSame(vs[..|vs| - 1], marked);
      assert vs == vs[..|vs| - 1] + [vs[|vs| - 1]];
    }
  }

  lemma RemovedSame(vs: seq<Selection>, marked: set<(string, string)>)
    requires !HasEmptyEntry(vs) && PairsOfEntries(vs) !! marked
    ensures Removed(vs, marked) == vs
  {
    AllStay(vs, marked);
    StayedSame(vs, marked);
  }

  /** The entries as values. */
  method ReadEntries(es: seq<Entry>) returns (vs: seq<Selection>)
    requires forall i :: 0 <= i < |es| ==> InBounds(es[i].clusters)
    ensures Denotes(es, vs)
  {
    vs := [];
    for i := 0 to |es|
      invariant |vs| == i && forall j :: 0 <= j < i ==> vs[j] == ValueOf(es[j])
    {
      vs := vs + [Selection(es[i].ns, es[i].clusters.arr[..es[i].clusters.len])];
    }
  }

  method FindEmptyEntry(vs: seq<Selection>) returns (found: bool)
    ensures found <==> HasEmptyEntry(vs)
  {
    for i := 0 to |vs|
      invariant forall j :: 0 <= j < i ==> vs[j].clusters != []
    {
      if |vs[i].clusters| == 0 { return true; }
    }
    found := false;
  }

  lemma {:induction false} TotalByLengths(vs: seq<Selection>, ws: seq<Selection>)
    requires |vs| == |ws| && forall i :: 0 <= i < |vs| ==> |vs[i].clusters| == |ws[i].clusters|
    ensures Total(vs) == Total(ws)
  {
    if vs != [] { TotalByLengths(vs[..|vs| - 1], ws[..|ws| - 1]); }
  }

  /** A list of the same length everywhere is no result of a removal, unless nothing was removed. */
  lemma SameLengths(vs: seq<Selection>, ws: seq<Selection>, marked: set<(string, string)>)
    requires !HasEmptyEntry(vs) && ws == Removed(vs, marked)
    requires |vs| == |ws| && forall i :: 0 <= i < |vs| ==> |vs[i].clusters| == |ws[i].clusters|
    ensures ws == vs
  {
    TotalByLengths(vs, ws);
    RemovedShrinks(vs, marked);
    RemovedSame(vs, marked);
  }

  /** If nothing was removed the old headers still denote the list. */
  lemma NothingRemoved(es: seq<Entry>, vs: seq<Selection>, was: seq<Selection>, marked: set<(string, string)>)
    requires !HasEmptyEntry(vs) && Denotes(es, was) && |es| == |vs| && Untouched(es, vs, |es|, marked)
    ensures Removed(vs, marked) == vs ==> was == vs
  {
    if Removed(vs, marked) == vs {
      RemovedShrinks(vs, marked);
      AllStay(vs, marked);
      UntouchedAll(es, vs, marked);
    }
  }

  /** What became of the default slice's list: the program panicked, or found nothing to remove, or its update was refused
      for an entry without clusters, or stored. */
  datatype Handling = Panicked | Unchanged | Refused | Stored(list: seq<Selection>)

  /** handleDefaultSliceConfigAppns on another slice. The comparison reads the old headers over the edited arrays. */
  method HandleDefaultSliceConfigAppns(clusters: seq<string>, own: seq<Selection>, defaultClusters: seq<string>,
                                       es: seq<Entry>, ghost vs: seq<Selection>) returns (h: Handling)
    requires Separate(es) && Denotes(es, vs) && forall i :: 0 <= i < |vs| ==> NoDup(vs[i].clusters)
    modifies Arrays(es)
    ensures h.Panicked? <==> HasEmptyEntry(vs)
    ensures var mine := NamespacePairs(clusters, own);
      var r := Removed(vs, Marked(mine, defaultClusters, vs));
      !HasEmptyEntry(vs) ==>
        && (h.Unchanged? <==> r == vs) && (h.Refused? <==> r != vs && HasEmptyEntry(r))
        && (h.Stored? ==> h.list == r)
        && (if h.Stored? then h.list else vs) == Handled(mine, defaultClusters, vs)
  {
    var values := ReadEntries(es);
    assert values == vs;
    var mine := ConstructApplicationNamespaceMap(clusters, own);
    var theirs := ConstructApplicationNamespaceMap(defaultClusters, values);
    var marked := mine * theirs;
    var left := RemoveSliceApplicationNamespaces(es, marked, vs);
    if left.None? { return Panicked; }
    var filtered := ReadEntries(left.value);
    assert filtered == Removed(vs, marked);
    var was := ReadEntries(es);
    NothingRemoved(es, vs, was, marked);
    if filtered == was {
      SameLengths(vs, filtered, marked);
      return Unchanged;
    }
    var refused := FindEmptyEntry(filtered);
    h := if refused then Refused else Stored(filtered);
  }

  /** handleDefaultSliceConfigAppns: the default slice keeps its list when the update is refused. */
  function Handled(mine: set<(string, string)>, defaultClusters: seq<string>, vs: seq<Selection>): seq<Selection> {
    var r := Removed(vs, Marked(mine, defaultClusters, vs));
    if HasEmptyEntry(r) then vs else r
  }

  function Repeated(mine: set<(string, string)>, defaultClusters: seq<string>, vs: seq<Selection>, n: nat): seq<Selection>
    decreases n
  {
    if n == 0 then vs else Repeated(mine, defaultClusters, Handled(mine, defaultClusters, vs), n - 1)
  }

  lemma StarlessByPairs(vs: seq<Selection>)
    ensures Starless(vs) <==> forall p :: p in PairsOfEntries(vs) ==> p.1 != "*"
  {
    forall p: (string, string)
      ensures p in PairsOfEntries(vs) <==> exists i :: 0 <= i < |vs| && vs[i].ns == p.0 && p.1 in vs[i].clusters
    {
      PairMembers(vs, p);
    }
    if !Starless(vs) {
      var i :| 0 <= i < |vs| && "*" in vs[i].clusters;
      assert (vs[i].ns, "*") in PairsOfEntries(vs);
    }
  }

  /** One pass: nothing outside the slice's own pairs is lost, and it is the last to change anything exactly when
      the slices are separated or an entry is blocked. */
  lemma HandledFacts(mine: set<(string, string)>, defaultClusters: seq<string>, vs: seq<Selection>)
    requires Starless(vs) && !HasEmptyEntry(vs)
    ensures var r := Handled(mine, defaultClusters, vs);
      && Starless(r) && !HasEmptyEntry(r)
      && PairsOfEntries(vs) - mine <= PairsOfEntries(r) <= PairsOfEntries(vs)
      && (r == vs <==> PairsOfEntries(vs) !! mine || Blocked(vs, Marked(mine, defaultClusters, vs)))
      && (r != vs ==> Total(r) < Total(vs))
  {
    var marked := Marked(mine, defaultClusters, vs);
    NamespacePairsPlain(defaultClusters, vs);
    RemovedEmpties(vs, marked);
    RemovedShrinks(vs, marked);
    if PairsOfEntries(vs) !! marked { RemovedSame(vs, marked); }
    RemovedKeeps(vs, marked);
    StarlessByPairs(vs);
    StarlessByPairs(Removed(vs, marked));
    assert PairsOfEntries(vs) * mine == PairsOfEntries(vs) * marked;
  }

  lemma HandledSeparates(mine: set<(string, string)>, defaultClusters: seq<string>, vs: seq<Selection>)
    requires Starless(vs) && !HasEmptyEntry(vs)
    ensures var marked := Marked(mine, defaultClusters, vs);
      PairsOfEntries(Handled(mine, defaultClusters, vs)) !! mine <==>
      PairsOfEntries(vs) !! mine || (AllClearable(vs, marked) && !Blocked(vs, marked))
  {
    var marked := Marked(mine, defaultClusters, vs);
    HandledFacts(mine, defaultClusters, vs);
    NamespacePairsPlain(defaultClusters, vs);
    RemovedEmpties(vs, marked);
    RemovedDisjoint(vs, marked);
    RemovedKeeps(vs, marked);
    var left := PairsOfEntries(Removed(vs, marked));
    assert left * mine == left * marked;
    if Blocked(vs, marked) { BlockedShares(vs, marked); }
  }

  /** The slice's own list, with its clusters behind it, selects none of the pairs of vs. */
  predicate Apart(clusters: seq<string>, own: seq<Selection>, vs: seq<Selection>) {
    forall p :: p in PairsOfEntries(vs) ==> !SelectedBy(clusters, own, p)
  }

  lemma ApartIsDisjoint(clusters: seq<string>, own: seq<Selection>, vs: seq<Selection>)
    ensures Apart(clusters, own, vs) <==> PairsOfEntries(vs) !! NamespacePairs(clusters, own)
  {
    forall p ensures p in NamespacePairs(clusters, own) <==> SelectedBy(clusters, own, p) {
      NamespacePairsExactly(clusters, own, p);
    }
  }

  /** One pass separates the default slice's list from the slice's exactly when they were apart, or every entry was clearable
      and none blocked. */
  lemma SlicesSeparated(clusters: seq<string>, own: seq<Selection>, defaultClusters: seq<string>, vs: seq<Selection>)
    requires Starless(vs) && !HasEmptyEntry(vs)
    ensures var mine := NamespacePairs(clusters, own);
      var marked := Marked(mine, defaultClusters, vs);
      Apart(clusters, own, Handled(mine, defaultClusters, vs)) <==>
      Apart(clusters, own, vs) || (AllClearable(vs, marked) && !Blocked(vs, marked))
  {
    var mine := NamespacePairs(clusters, own);
    HandledSeparates(mine, defaultClusters, vs);
    ApartIsDisjoint(clusters, own, vs);
    ApartIsDisjoint(clusters, own, Handled(mine, defaultClusters, vs));
  }

  lemma BlockedShares(vs: seq<Selection>, marked: set<(string, string)>)
    requires Blocked(vs, marked)
    ensures !(PairsOfEntries(vs) !! marked)
  {
    var i :| 0 <= i < |vs| && BlockedEntry(vs[i], marked);
    PairMembers(vs, (vs[i].ns, vs[i].clusters[0]));
  }

  // ----- Which lists repeated passes separate -----

  /** A wholly marked entry of m clusters halves with every pass; the pass refuses it at two. */
  predicate Stalls(m: nat) {
    m == 2 || (m > 2 && Stalls((m - 1) / 2))
  }

  predicate InBand(m: nat, k: nat) {
    3 * Pow2(k) - 1 <= m <= 4 * Pow2(k) - 2
  }

  /** A band halves to the one before it. */
  lemma BandHalves(m: nat, k: nat)
    requires m > 2
    ensures InBand((m - 1) / 2, k) <==> InBand(m, k + 1)
  {
    assert Pow2(k + 1) == 2 * Pow2(k);
  }

  lemma BandStart(m: nat, k: nat)
    ensures InBand(m, 0) <==> m == 2
    ensures m <= 2 && InBand(m, k) ==> m == 2
  {
    assert Pow2(0) == 1;
  }

  /** These are the sizes 2, 5 and 6, 11 to 14, and so on. */
  lemma {:induction false} StallsExactly(m: nat)
    ensures Stalls(m) <==> exists k: nat :: InBand(m, k)
  {
    BandStart(m, 0);
    if m <= 2 {
      forall k: nat ensures InBand(m, k) ==> m == 2 { BandStart(m, k); }
    } else {
      var h := (m - 1) / 2;
      StallsExactly(h);
      if k: nat :| InBand(h, k) { BandHalves(m, k); }
      if k: nat :| InBand(m, k) {
        BandHalves(m, k - 1);
        assert InBand(h, k - 1);
      }
    }
  }

  predicate WhollyMarked(v: Selection, marked: set<(string, string)>) {
    forall c :: c in v.clusters ==> (v.ns, c) in marked
  }

  predicate StallingEntry(v: Selection, marked: set<(string, string)>) {
    Stalls(|v.clusters|) && WhollyMarked(v, marked)
  }

  predicate HasStalling(vs: seq<Selection>, marked: set<(string, string)>) {
    exists i :: 0 <= i < |vs| && StallingEntry(vs[i], marked)
  }

  lemma {:induction false} SweptWhole(x: seq<string>, drop: set<string>)
    requires forall c :: c in x ==> c in drop
    ensures |x| >= 2 ==> |Swept(x, drop)| == (|x| - 1) / 2
    ensures forall c :: c in Swept(x, drop) ==> c in drop
    decreases |x|
  {
    if |x| > 2 {
      assert x[0] in x && x[1] in x;
      SweptWhole(x[2..], drop);
    }
    SweptWithin(x, drop);
  }

  /** A pass that does not refuse the entry leaves a stalling one stalling, and makes none. */
  lemma StallingOne(v: Selection, marked: set<(string, string)>)
    requires !BlockedEntry(v, marked)
    ensures HasStalling(RemovedOne(v, marked), marked) <==> StallingEntry(v, marked)
  {
    var drop := DropFor(marked, v.ns);
    assert forall c :: c in drop <==> (v.ns, c) in marked;
    if |v.clusters| > 1 {
      var w := Selection(v.ns, Swept(v.clusters, drop));
      assert RemovedOne(v, marked) == [w];
      if WhollyMarked(v, marked) {
        SweptWhole(v.clusters, drop);
        assert |v.clusters| != 2;
        assert WhollyMarked(w, marked) && Stalls(|w.clusters|) == Stalls(|v.clusters|);
      } else {
        var c :| c in v.clusters && (v.ns, c) !in marked;
        SweptElements(v.clusters, drop);
        assert c in w.clusters;
      }
      assert HasStalling([w], marked) <==> StallingEntry([w][0], marked);
    }
  }

  lemma StallingConcat(a: seq<Selection>, b: seq<Selection>, marked: set<(string, string)>)
    ensures HasStalling(a + b, marked) <==> HasStalling(a, marked) || HasStalling(b, marked)
  {
    var s := a + b;
    assert forall i :: 0 <= i < |a| ==> s[i] == a[i];
    assert forall i :: 0 <= i < |b| ==> s[|a| + i] == b[i];
  }

  lemma {:induction false} RemovedStalling(vs: seq<Selection>, marked: set<(string, string)>)
    requires !Blocked(vs, marked)
    ensures HasStalling(Removed(vs, marked), marked) <==> HasStalling(vs, marked)
  {
    if vs != [] {
      var n := |vs| - 1;
      BlockedStep(vs, marked);
      RemovedStalling(vs[..n], marked);
      StallingOne(vs[n], marked);
      StallingConcat(Removed(vs[..n], marked), RemovedOne(vs[n], marked), marked);
      StallingConcat(vs[..n], [vs[n]], marked);
      assert vs == vs[..n] + [vs[n]];
      assert HasStalling([vs[n]], marked) <==> StallingEntry([vs[n]][0], marked);
    }
  }

  /** Of pairs in the list, marked are those the slice selects. */
  lemma StallingMine(mine: set<(string, string)>, marked: set<(string, string)>, vs: seq<Selection>)
    requires PairsOfEntries(vs) * marked == PairsOfEntries(vs) * mine
    ensures HasStalling(vs, marked) <==> HasStalling(vs, mine)
  {
    forall i | 0 <= i < |vs| ensures WhollyMarked(vs[i], marked) <==> WhollyMarked(vs[i], mine) {
      forall c | c in vs[i].clusters ensures (vs[i].ns, c) in marked <==> (vs[i].ns, c) in mine {
        var p := (vs[i].ns, c);
        PairMembers(vs, p);
        assert p in PairsOfEntries(vs);
        assert p in PairsOfEntries(vs) * marked <==> p in PairsOfEntries(vs) * mine;
      }
    }
  }

  lemma HandledStalling(mine: set<(string, string)>, defaultClusters: seq<string>, vs: seq<Selection>)
    requires Starless(vs) && !HasEmptyEntry(vs)
    ensures HasStalling(Handled(mine, defaultClusters, vs), mine) <==> HasStalling(vs, mine)
  {
    var marked := Marked(mine, defaultClusters, vs);
    var r := Removed(vs, marked);
    NamespacePairsPlain(defaultClusters, vs);
    RemovedEmpties(vs, marked);
    if !Blocked(vs, marked) {
      RemovedStalling(vs, marked);
      RemovedKeeps(vs, marked);
      assert PairsOfEntries(vs) * marked == PairsOfEntries(vs) * mine;
      assert PairsOfEntries(r) * marked == PairsOfEntries(r) * mine;
      StallingMine(mine, marked, vs);
      StallingMine(mine, marked, r);
    }
  }

  /** Stalling lists share a pair with the slice, and blocked ones stall. */
  lemma StallingShares(mine: set<(string, string)>, vs: seq<Selection>)
    ensures HasStalling(vs, mine) ==> !(PairsOfEntries(vs) !! mine)
    ensures Blocked(vs, mine) ==> HasStalling(vs, mine)
  {
    if HasStalling(vs, mine) {
      var i :| 0 <= i < |vs| && StallingEntry(vs[i], mine);
      PairMembers(vs, (vs[i].ns, vs[i].clusters[0]));
    }
    if Blocked(vs, mine) {
      var i :| 0 <= i < |vs| && BlockedEntry(vs[i], mine);
      assert StallingEntry(vs[i], mine);
    }
  }

  /** The list has none of the slice's pairs. */
  predicate SharesNone(mine: set<(string, string)>, vs: seq<Selection>) {
    PairsOfEntries(vs) !! mine
  }

  /** b is a without some of mine. */
  predicate Between(mine: set<(string, string)>, a: set<(string, string)>, b: set<(string, string)>) {
    a - mine <= b <= a
  }

  lemma HandledNext(mine: set<(string, string)>, defaultClusters: seq<string>, vs: seq<Selection>)
    requires Starless(vs) && !HasEmptyEntry(vs)
    ensures var r := Handled(mine, defaultClusters, vs);
      && Starless(r) && !HasEmptyEntry(r) && Between(mine, PairsOfEntries(vs), PairsOfEntries(r))
      && (r != vs ==> Total(r) < Total(vs))
  {
    HandledFacts(mine, defaultClusters, vs);
  }

  lemma {:induction false} RepeatedBetween(mine: set<(string, string)>, defaultClusters: seq<string>, vs: seq<Selection>, n: nat)
    requires Starless(vs) && !HasEmptyEntry(vs)
    ensures Between(mine, PairsOfEntries(vs), PairsOfEntries(Repeated(mine, defaultClusters, vs, n)))
    decreases n
  {
    if n > 0 {
      var next := Handled(mine, defaultClusters, vs);
      HandledNext(mine, defaultClusters, vs);
      RepeatedBetween(mine, defaultClusters, next, n - 1);
      BetweenTwice(mine, PairsOfEntries(vs), PairsOfEntries(next), PairsOfEntries(Repeated(mine, defaultClusters, next, n - 1)));
    }
  }

  /** A pass leaves the list alone. */
  predicate Stopped(mine: set<(string, string)>, defaultClusters: seq<string>, vs: seq<Selection>) {
    Handled(mine, defaultClusters, vs) == vs
  }

  lemma {:induction false} RepeatedPlain(mine: set<(string, string)>, defaultClusters: seq<string>, vs: seq<Selection>, n: nat)
    requires Starless(vs) && !HasEmptyEntry(vs)
    ensures var r := Repeated(mine, defaultClusters, vs, n); Starless(r) && !HasEmptyEntry(r)
    decreases n
  {
    if n > 0 {
      HandledNext(mine, defaultClusters, vs);
      RepeatedPlain(mine, defaultClusters, Handled(mine, defaultClusters, vs), n - 1);
    }
  }

  lemma RunningShrinks(mine: set<(string, string)>, defaultClusters: seq<string>, vs: seq<Selection>)
    requires Starless(vs) && !HasEmptyEntry(vs) && !Stopped(mine, defaultClusters, vs)
    ensures var r := Handled(mine, defaultClusters, vs); Starless(r) && !HasEmptyEntry(r) && Total(r) < Total(vs)
  {
    HandledNext(mine, defaultClusters, vs);
  }

  /** As many passes as there are clusters listed reach a list that a further pass leaves alone. */
  lemma {:induction false} RepeatedSettles(mine: set<(string, string)>, defaultClusters: seq<string>, vs: seq<Selection>, n: nat)
    requires Starless(vs) && !HasEmptyEntry(vs) && n >= Total(vs)
    ensures Stopped(mine, defaultClusters, Repeated(mine, defaultClusters, vs, n))
    decreases n
  {
    if Stopped(mine, defaultClusters, vs) {
      StaysPut(mine, defaultClusters, vs, n);
    } else {
      RunningShrinks(mine, defaultClusters, vs);
      RepeatedSettles(mine, defaultClusters, Handled(mine, defaultClusters, vs), n - 1);
    }
  }

  /** No number of passes brings or takes away a stalling entry. */
  lemma {:induction false} RepeatedStalling(mine: set<(string, string)>, defaultClusters: seq<string>, vs: seq<Selection>, n: nat)
    requires Starless(vs) && !HasEmptyEntry(vs)
    ensures HasStalling(Repeated(mine, defaultClusters, vs, n), mine) <==> HasStalling(vs, mine)
    decreases n
  {
    if n > 0 {
      HandledNext(mine, defaultClusters, vs);
      RepeatedStalling(mine, defaultClusters, Handled(mine, defaultClusters, vs), n - 1);
      HandledStalling(mine, defaultClusters, vs);
    }
  }

  /** Some entry, of a size at which passes stall, is selected by the slice with all its clusters. */
  predicate HasStallingEntry(clusters: seq<string>, own: seq<Selection>, vs: seq<Selection>) {
    exists i :: 0 <= i < |vs| && Stalls(|vs[i].clusters|) &&
      forall c :: c in vs[i].clusters ==> SelectedBy(clusters, own, (vs[i].ns, c))
  }

  /** As many passes as there are clusters listed separate the default slice's list from the slice's exactly when no entry of
      the first list stalls; in any case they lose none but selected pairs. */
  lemma RepeatedPassesSeparate(clusters: seq<string>, own: seq<Selection>, defaultClusters: seq<string>,
                               vs: seq<Selection>, n: nat)
    requires Starless(vs) && !HasEmptyEntry(vs) && n >= Total(vs)
    ensures var r := Repeated(NamespacePairs(clusters, own), defaultClusters, vs, n);
      && (Apart(clusters, own, r) <==> !HasStallingEntry(clusters, own, vs))
      && PairsOfEntries(r) <= PairsOfEntries(vs)
      && forall p :: p in PairsOfEntries(vs) && !SelectedBy(clusters, own, p) ==> p in PairsOfEntries(r)
  {
    var mine := NamespacePairs(clusters, own);
    RepeatedSeparates(mine, defaultClusters, vs, n);
    ApartIsDisjoint(clusters, own, Repeated(mine, defaultClusters, vs, n));
    forall p ensures p in mine <==> SelectedBy(clusters, own, p) { NamespacePairsExactly(clusters, own, p); }
    assert HasStalling(vs, mine) <==> HasStallingEntry(clusters, own, vs) by {
      forall i | 0 <= i < |vs|
        ensures WhollyMarked(vs[i], mine) <==> forall c :: c in vs[i].clusters ==> SelectedBy(clusters, own, (vs[i].ns, c))
      {
      }
    }
  }

  lemma RepeatedSeparates(mine: set<(string, string)>, defaultClusters: seq<string>, vs: seq<Selection>, n: nat)
    requires Starless(vs) && !HasEmptyEntry(vs) && n >= Total(vs)
    ensures var r := Repeated(mine, defaultClusters, vs, n);
      && PairsOfEntries(vs) - mine <= PairsOfEntries(r) <= PairsOfEntries(vs)
      && (PairsOfEntries(r) !! mine <==> !HasStalling(vs, mine))
  {
    RepeatedBetween(mine, defaultClusters, vs, n);
    RepeatedPlain(mine, defaultClusters, vs, n);
    RepeatedSettles(mine, defaultClusters, vs, n);
    RepeatedStalling(mine, defaultClusters, vs, n);
    StoppedSeparate(mine, defaultClusters, Repeated(mine, defaultClusters, vs, n));
  }

  /** Where a pass changes nothing, the slices are separate exactly when no entry stalls. */
  lemma StoppedSeparate(mine: set<(string, string)>, defaultClusters: seq<string>, vs: seq<Selection>)
    requires Starless(vs) && !HasEmptyEntry(vs) && Handled(mine, defaultClusters, vs) == vs
    ensures SharesNone(mine, vs) <==> !HasStalling(vs, mine)
  {
    HandledFacts(mine, defaultClusters, vs);
    StallingShares(mine, vs);
    MarkedMine(mine, defaultClusters, vs);
  }

  lemma BetweenTwice(mine: set<(string, string)>, a: set<(string, string)>, b: set<(string, string)>, c: set<(string, string)>)
    requires Between(mine, a, b) && Between(mine, b, c)
    ensures Between(mine, a, c)
  {
  }

  lemma MarkedMine(mine: set<(string, string)>, defaultClusters: seq<string>, vs: seq<Selection>)
    ensures Blocked(vs, Marked(mine, defaultClusters, vs)) ==> Blocked(vs, mine)
  {
  }

  lemma {:induction false} StaysPut(mine: set<(string, string)>, defaultClusters: seq<string>, vs: seq<Selection>, n: nat)
    requires Handled(mine, defaultClusters, vs) == vs
    ensures Repeated(mine, defaultClusters, vs, n) == vs
  {
    if n > 0 { StaysPut(mine, defaultClusters, vs, n - 1); }
  }
}
