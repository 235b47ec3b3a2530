/** The namespace list of a project's default slice: default_slice_service.go. */
module DefaultSlice {
  import opened Text
  import opened Sequences
  import opened GoSlices
  import opened AppNamespaces

  /** A namespace as a cluster reports it, with the slice that owns it; "" when unassigned. */
  datatype Report = Report(name: string, slice: string)

  predicate NoRepeats(vs: seq<Selection>) {
    forall i :: 0 <= i < |vs| ==> NoDup(vs[i].clusters)
  }

  predicate UniqueReports(rs: seq<Report>) {
    forall i, j :: 0 <= i < j < |rs| ==> rs[i].name != rs[j].name
  }

  function UnassignedNames(rs: seq<Report>): set<string> {
    set x | x in rs && x.slice == "" :: x.name
  }

  function OwnedNames(rs: seq<Report>, slice: string): set<string> {
    set x | x in rs && x.slice == slice :: x.name
  }

  function OnCluster(names: set<string>, cluster: string): set<(string, string)> {
    set n | n in names :: (n, cluster)
  }

  // ----- Adding -----

  /** Entries are as they were, or with the cluster behind their others; new ones stand at the end and have this cluster
      only. */
  predicate Appends(vs: seq<Selection>, r: seq<Selection>, cluster: string) {
    && |vs| <= |r|
    && (forall j :: 0 <= j < |vs| ==> r[j] == vs[j] || r[j] == Selection(vs[j].ns, vs[j].clusters + [cluster]))
    && (forall j :: |vs| <= j < |r| ==> r[j].clusters == [cluster])
  }

  /** The list midway: entries of the original keep their namespace, those not met yet are untouched, the rest is new. */
  ghost predicate Adding(vs: seq<Selection>, r: seq<Selection>, met: set<string>, cluster: string) {
    && |vs| <= |r| && UniqueNamespaces(r) && NoRepeats(r) && Appends(vs, r, cluster)
    && (forall j :: 0 <= j < |vs| && vs[j].ns !in met ==> r[j] == vs[j])
    && (forall j :: |vs| <= j < |r| ==> r[j].ns in met)
  }

  lemma AddingSkip(vs: seq<Selection>, r: seq<Selection>, met: set<string>, n: string, cluster: string)
    requires Adding(vs, r, met, cluster)
    ensures Adding(vs, r, met + {n}, cluster)
  {
  }

  lemma AddingExtend(vs: seq<Selection>, r: seq<Selection>, met: set<string>, k: nat, n: string, cluster: string)
    requires Adding(vs, r, met, cluster) && k < |vs| && vs[k].ns == n && n !in met && cluster !in vs[k].clusters
    ensures Adding(vs, r[k := Selection(n, r[k].clusters + [cluster])], met + {n}, cluster)
  {
  }

  lemma AddingAppend(vs: seq<Selection>, r: seq<Selection>, met: set<string>, n: string, cluster: string)
    requires Adding(vs, r, met, cluster) && n !in met && forall j :: 0 <= j < |vs| ==> vs[j].ns != n
    ensures Adding(vs, r + [Selection(n, [cluster])], met + {n}, cluster)
  {
  }

  /** The pairs one report asks for. */
  function Wanted(x: Report, cluster: string): set<(string, string)> {
    if x.slice == "" then {(x.name, cluster)} else {}
  }

  /** One report: an unassigned namespace that is not listed gets its entry extended, or a new entry. */
  method AddOne(vs: seq<Selection>, r: seq<Selection>, index: map<string, int>, listed: set<(string, string)>,
                x: Report, cluster: string, ghost met: set<string>)
      returns (r': seq<Selection>, grew: bool)
    requires Adding(vs, r, met, cluster) && x.name !in met && listed == PairsOfEntries(vs) && IsIndex(index, vs)
    ensures Adding(vs, r', met + {x.name}, cluster)
    ensures grew <==> !(Wanted(x, cluster) <= listed)
    ensures grew ==> PairsOfEntries(r') == PairsOfEntries(r) + Wanted(x, cluster)
    ensures !grew ==> r' == r
  {
    var n := x.name;
    grew := x.slice == "" && (n, cluster) !in listed;
    if !grew {
      AddingSkip(vs, r, met, n, cluster);
      r' := r;
    } else if n in index {
      var k := index[n];
      PairMembers(vs, (n, cluster));
      assert cluster !in vs[k].clusters;
      AddingExtend(vs, r, met, k, n, cluster);
      Extended(r, k, cluster);
      r' := r[k := Selection(n, r[k].clusters + [cluster])];
    } else {
      AddingAppend(vs, r, met, n, cluster);
      Appended(r, n, cluster);
      r' := r + [Selection(n, [cluster])];
    }
  }

  /** namespaceIndexMap. */
  ghost predicate IsIndex(index: map<string, int>, vs: seq<Selection>) {
    && (forall n :: n in index ==> 0 <= index[n] < |vs| && vs[index[n]].ns == n)
    && (forall j :: 0 <= j < |vs| ==> vs[j].ns in index)
  }

  method IndexNamespaces(vs: seq<Selection>) returns (index: map<string, int>)
    ensures IsIndex(index, vs)
  {
    index := map[];
    for i := 0 to |vs|
      invariant forall n :: n in index ==> 0 <= index[n] < i && vs[index[n]].ns == n
      invariant forall j :: 0 <= j < i ==> vs[j].ns in index
    {
      index := index[vs[i].ns := i];
    }
  }

  /** The add phase: every unassigned namespace of the cluster is in the list afterwards, and nothing else is new. */
  method AddPhase(vs: seq<Selection>, rs: seq<Report>, cluster: string) returns (r: seq<Selection>, added: bool)
    requires UniqueNamespaces(vs) && NoRepeats(vs) && UniqueReports(rs)
    ensures PairsOfEntries(r) == PairsOfEntries(vs) + OnCluster(UnassignedNames(rs), cluster)
    ensures UniqueNamespaces(r) && NoRepeats(r) && Appends(vs, r, cluster)
    ensures added <==> !(OnCluster(UnassignedNames(rs), cluster) <= PairsOfEntries(vs))
    ensures !added ==> r == vs
    ensures !HasEmptyEntry(vs) ==> !HasEmptyEntry(r)
  {
    var index := IndexNamespaces(vs);
    assert Adding(vs, vs, {}, cluster);
    var listed := PairsOfEntries(vs);
    r, added := vs, false;
    for i := 0 to |rs|
      invariant Progress(vs, r, rs, i, listed, cluster, added)
    {
      r, added := AddNext(vs, r, index, listed, rs, i, cluster, added);
    }
    assert rs[..|rs|] == rs;
    AppendsFilled(vs, r, cluster);
  }

  /** The add phase after i reports. */
  ghost predicate Progress(vs: seq<Selection>, r: seq<Selection>, rs: seq<Report>, i: nat, listed: set<(string, string)>,
                           cluster: string, added: bool)
    requires i <= |rs|
  {
    && Adding(vs, r, Met(rs[..i]), cluster) && (!added ==> r == vs)
    && Grown(PairsOfEntries(r), listed, OnCluster(UnassignedNames(rs[..i]), cluster), added)
  }

  method AddNext(vs: seq<Selection>, r: seq<Selection>, index: map<string, int>, listed: set<(string, string)>,
                 rs: seq<Report>, i: nat, cluster: string, added: bool)
      returns (r': seq<Selection>, added': bool)
    requires UniqueReports(rs) && i < |rs| && Progress(vs, r, rs, i, listed, cluster, added)
    requires listed == PairsOfEntries(vs) && IsIndex(index, vs)
    ensures Progress(vs, r', rs, i + 1, listed, cluster, added')
  {
    MetStep(rs, i);
    UnassignedStep(rs[..i], rs[i], cluster);
    var grew;
    r', grew := AddOne(vs, r, index, listed, rs[i], cluster, Met(rs[..i]));
    GrownStep(PairsOfEntries(r), PairsOfEntries(r'), listed, OnCluster(UnassignedNames(rs[..i]), cluster),
              Wanted(rs[i], cluster), added, grew);
    added' := added || grew;
  }

  lemma AppendsFilled(vs: seq<Selection>, r: seq<Selection>, cluster: string)
    requires Appends(vs, r, cluster)
    ensures !HasEmptyEntry(vs) ==> !HasEmptyEntry(r)
  {
  }

  /** The pairs are the listed ones and those seen, and it is known whether one of these was new. */
  predicate Grown(pairs: set<(string, string)>, listed: set<(string, string)>, seen: set<(string, string)>, added: bool) {
    pairs == listed + seen && (added <==> !(seen <= listed))
  }

  lemma GrownStep(was: set<(string, string)>, pairs: set<(string, string)>, listed: set<(string, string)>,
                  seen: set<(string, string)>, more: set<(string, string)>, added: bool, grew: bool)
    requires Grown(was, listed, seen, added) && (grew <==> !(more <= listed))
    requires if grew then pairs == was + more else pairs == was
    ensures Grown(pairs, listed, seen + more, added || grew)
  {
  }

  function Met(rs: seq<Report>): set<string> {
    set x | x in rs :: x.name
  }

  lemma MetStep(rs: seq<Report>, i: nat)
    requires UniqueReports(rs) && i < |rs|
    ensures rs[..i + 1] == rs[..i] + [rs[i]]
    ensures Met(rs[..i + 1]) == Met(rs[..i]) + {rs[i].name} && rs[i].name !in Met(rs[..i])
  {
  }

  lemma UnassignedStep(rs: seq<Report>, x: Report, cluster: string)
    ensures OnCluster(UnassignedNames(rs + [x]), cluster) ==
            OnCluster(UnassignedNames(rs), cluster) + Wanted(x, cluster)
  {
  }

  lemma Extended(r: seq<Selection>, k: nat, cluster: string)
    requires k < |r|
    ensures var r' := r[k := Selection(r[k].ns, r[k].clusters + [cluster])];
      PairsOfEntries(r') == PairsOfEntries(r) + {(r[k].ns, cluster)}
  {
    var r' := r[k := Selection(r[k].ns, r[k].clusters + [cluster])];
    forall p: (string, string) ensures p in PairsOfEntries(r') <==> p in PairsOfEntries(r) + {(r[k].ns, cluster)} {
      PairMembers(r, p);
      PairMembers(r', p);
      assert r'[k].ns == r[k].ns && forall c :: c in r'[k].clusters <==> c in r[k].clusters || c == cluster;
      assert forall i :: 0 <= i < |r| && i != k ==> r'[i] == r[i];
    }
  }

  lemma Appended(r: seq<Selection>, n: string, cluster: string)
    ensures PairsOfEntries(r + [Selection(n, [cluster])]) == PairsOfEntries(r) + {(n, cluster)}
  {
  }

  // ----- Removing -----

  /** The removal phase on one entry. */
  function KeptOne(v: Selection, cluster: string, owned: set<string>): seq<Selection> {
    if cluster !in v.clusters || v.ns in owned then [v]
    else if |v.clusters| > 1 then [Selection(v.ns, Filter(v.clusters, {cluster}))]
    else []
  }

  function Kept(vs: seq<Selection>, cluster: string, owned: set<string>): seq<Selection> {
    if vs == [] then [] else Kept(vs[..|vs| - 1], cluster, owned) + KeptOne(vs[|vs| - 1], cluster, owned)
  }

  /** Some entry loses the cluster. */
  predicate Loses(vs: seq<Selection>, cluster: string, owned: set<string>) {
    exists i :: 0 <= i < |vs| && cluster in vs[i].clusters && vs[i].ns !in owned
  }

  lemma {:induction false} FilterOne(x: seq<string>, m: nat)
    requires NoDup(x) && m < |x|
    ensures Filter(x, {x[m]}) == x[..m] + x[m + 1..]
  {
    if m == 0 {
      assert x[0] !in x[1..];
      FilterNothing(x[1..], {x[0]});
      assert x[..0] + x[1..] == x[1..];
    } else {
      assert x[1..][m - 1] == x[m];
      FilterOne(x[1..], m - 1);
      assert x[..m] + x[m + 1..] == [x[0]] + (x[1..][..m - 1] + x[1..][m..]);
    }
  }

  /** The inner range loop: it goes over the old header while the list shrinks, and appends on each match. */
  method KeepEntry(s: GoSlice, cluster: string, owned: bool) returns (out: seq<GoSlice>, removed: bool)
    requires InBounds(s) && NoDup(Items(s))
    modifies s.arr
    ensures removed <==> cluster in old(Items(s)) && !owned
    ensures !removed ==> out == [s] && s.arr[..] == old(s.arr[..])
    ensures removed && s.len > 1 ==>
      && |out| == 1 && out[0].arr == s.arr && InBounds(out[0]) && Items(out[0]) == Filter(old(Items(s)), {cluster})
    ensures removed && s.len == 1 ==> out == []
  {
    ghost var x := Items(s);
    var cur, found := s, false;
    out, removed := [], false;
    ghost var m := 0;
    for k := 0 to s.len
      invariant !found ==> cluster !in x[..k] && cur == s && s.arr[..] == old(s.arr[..]) && out == [] && !removed
      invariant found ==> m < k && x[m] == cluster && removed == !owned
      invariant found && owned ==> out == [s] && s.arr[..] == old(s.arr[..])
      invariant found && !owned && s.len == 1 ==> out == []
      invariant found && !owned && s.len > 1 ==>
        && out == [cur] && cur.arr == s.arr && cur.len == s.len - 1 && s.arr[..] == Shifted(old(s.arr[..]), s.len, m)
    {
      ghost var was := s.arr[..];
      if found { NotAgain(x, old(s.arr[..]), was, s.len, m, k); }
      if s.arr[k] == cluster {
        found, m := true, k;
        if !owned {
          removed := true;
          if cur.len > 1 {
            ghost var at;
            cur, at := RemoveElement(cur, cluster);
            assert was[..s.len] == x && was[at] == x[at] && was[k] == x[k];
            out := out + [cur];
          }
        } else {
          out := out + [cur];
        }
      }
    }
    if !found { out := out + [s]; }
    if found && !owned && s.len > 1 {
      FilterOne(x, m);
      assert Items(out[0]) == s.arr[..][..s.len - 1];
      assert old(s.arr[..])[..m] == x[..m] && old(s.arr[..])[m + 1..s.len] == x[m + 1..];
    }
  }

  /** After the match at m nothing further equals it, whether or not the tail was shifted. */
  lemma NotAgain(x: seq<string>, before: seq<string>, now: seq<string>, n: nat, m: nat, k: nat)
    requires NoDup(x) && |x| == n <= |before| && before[..n] == x && m < k < n
    requires now == before || now == Shifted(before, n, m)
    ensures now[k] != x[m]
  {
  }

  method RemovalPhase(es: seq<Entry>, cluster: string, owned: set<string>, ghost vs: seq<Selection>)
      returns (out: seq<Entry>, removed: bool)
    requires Separate(es) && Denotes(es, vs) && NoRepeats(vs)
    modifies Arrays(es)
    ensures Denotes(out, Kept(vs, cluster, owned))
    ensures removed <==> Loses(vs, cluster, owned)
  {
    out, removed := [], false;
    for i := 0 to |es|
      invariant Processed(es, i, out, Kept(vs[..i], cluster, owned), vs)
      invariant removed <==> Loses(vs[..i], cluster, owned)
    {
      OwnArray(es, i);
      var lost;
      out, lost := KeepNext(es, i, out, cluster, owned, vs);
      LosesStep(vs, i, cluster, owned);
      removed := removed || lost;
    }
    assert vs[..|vs|] == vs;
  }

  method KeepOneEntry(e: Entry, cluster: string, owned: set<string>, ghost v: Selection)
      returns (part: seq<Entry>, lost: bool)
    requires InBounds(e.clusters) && ValueOf(e) == v && NoDup(v.clusters)
    modifies e.clusters.arr
    ensures Denotes(part, KeptOne(v, cluster, owned))
    ensures forall o :: o in part ==> o.clusters.arr == e.clusters.arr
    ensures lost <==> cluster in v.clusters && v.ns !in owned
  {
    var out, removed := KeepEntry(e.clusters, cluster, e.ns in owned);
    lost := removed;
    part := if |out| > 0 then [Entry(e.ns, out[0])] else [];
  }

  method KeepNext(es: seq<Entry>, i: nat, out: seq<Entry>, cluster: string, owned: set<string>, ghost vs: seq<Selection>)
      returns (out': seq<Entry>, lost: bool)
    requires Separate(es) && i < |es| == |vs| && Processed(es, i, out, Kept(vs[..i], cluster, owned), vs) && NoDup(vs[i].clusters)
    modifies es[i].clusters.arr
    ensures Processed(es, i + 1, out', Kept(vs[..i + 1], cluster, owned), vs)
    ensures lost <==> cluster in vs[i].clusters && vs[i].ns !in owned
  {
    OwnArray(es, i);
    DenotesNext(es, vs, i);
    var part;
    part, lost := KeepOneEntry(es[i], cluster, owned, vs[i]);
    DenotesAppend(out, part, Kept(vs[..i], cluster, owned), KeptOne(vs[i], cluster, owned));
    assert vs[..i + 1][..i] == vs[..i];
    out' := out + part;
  }

  lemma LosesStep(vs: seq<Selection>, i: nat, cluster: string, owned: set<string>)
    requires i < |vs|
    ensures Loses(vs[..i + 1], cluster, owned) <==>
            Loses(vs[..i], cluster, owned) || (cluster in vs[i].clusters && vs[i].ns !in owned)
  {
  }

  // ----- What the phases mean -----

  /** A pair of the cluster whose namespace is not confirmed. */
  predicate Stale(p: (string, string), cluster: string, owned: set<string>) {
    p.1 == cluster && p.0 !in owned
  }

  lemma KeptOnePairs(v: Selection, cluster: string, owned: set<string>)
    ensures var k := KeptOne(v, cluster, owned);
      && PairsOfEntries(k) == (set p | p in EntryPairs(v) && !Stale(p, cluster, owned))
      && forall i :: 0 <= i < |k| ==> k[i].ns == v.ns
  {
    FilterDrops(v.clusters, {cluster});
    var k := KeptOne(v, cluster, owned);
    if k != [] { assert k[..0] == [] && PairsOfEntries(k) == EntryPairs(k[0]); }
  }

  /** The removal phase takes away exactly the unconfirmed pairs of the cluster. */
  lemma {:induction false} KeptPairs(vs: seq<Selection>, cluster: string, owned: set<string>)
    ensures PairsOfEntries(Kept(vs, cluster, owned)) == set p | p in PairsOfEntries(vs) && !Stale(p, cluster, owned)
  {
    if vs != [] {
      var n := |vs| - 1;
      KeptPairs(vs[..n], cluster, owned);
      KeptOnePairs(vs[n], cluster, owned);
      PairsOfConcat(Kept(vs[..n], cluster, owned), KeptOne(vs[n], cluster, owned));
    }
  }

  /** The removal phase goes entry by entry and keeps their order. */
  lemma {:induction false} KeptConcat(a: seq<Selection>, b: seq<Selection>, cluster: string, owned: set<string>)
    ensures Kept(a + b, cluster, owned) == Kept(a, cluster, owned) + Kept(b, cluster, owned)
  {
    if b == [] {
      assert a + b == a;
    } else {
      assert (a + b)[..|a + b| - 1] == a + b[..|b| - 1];
      KeptConcat(a, b[..|b| - 1], cluster, owned);
    }
  }

  /** No entry is left without clusters. */
  lemma {:induction false} KeptFilled(vs: seq<Selection>, cluster: string, owned: set<string>)
    requires NoRepeats(vs) && !HasEmptyEntry(vs)
    ensures !HasEmptyEntry(Kept(vs, cluster, owned))
  {
    if vs != [] {
      var n := |vs| - 1;
      assert !HasEmptyEntry(vs[..n]) by { assert forall i :: 0 <= i < n ==> vs[..n][i] == vs[i]; }
      KeptFilled(vs[..n], cluster, owned);
      KeptOneFilled(vs[n], cluster, owned);
      EmptyEntryInConcat(Kept(vs[..n], cluster, owned), KeptOne(vs[n], cluster, owned));
    }
  }

  lemma KeptOneFilled(v: Selection, cluster: string, owned: set<string>)
    requires v.clusters != []
    ensures NoDup(v.clusters) ==> !HasEmptyEntry(KeptOne(v, cluster, owned))
  {
    FilterDrops(v.clusters, {cluster});
    if |v.clusters| > 1 && NoDup(v.clusters) {
      var other := if v.clusters[0] == cluster then v.clusters[1] else v.clusters[0];
      assert other in Filter(v.clusters, {cluster});
    }
  }

  /** A list without empty entries lists the namespaces of its pairs. */
  lemma ListedByPairs(vs: seq<Selection>, n: string)
    requires !HasEmptyEntry(vs)
    ensures n in Namespaces(vs) <==> exists c :: (n, c) in PairsOfEntries(vs)
  {
    if n in Namespaces(vs) {
      var v :| v in vs && v.ns == n;
      var i :| 0 <= i < |vs| && vs[i] == v;
      PairMembers(vs, (n, vs[i].clusters[0]));
    }
    if c :| (n, c) in PairsOfEntries(vs) {
      PairMembers(vs, (n, c));
      var i :| 0 <= i < |vs| && vs[i].ns == n && c in vs[i].clusters;
      assert vs[i] in vs;
    }
  }

  /** A namespace stays listed exactly when one of its pairs is left. */
  lemma KeptListed(vs: seq<Selection>, cluster: string, owned: set<string>, n: string)
    requires NoRepeats(vs) && !HasEmptyEntry(vs)
    ensures n in Namespaces(Kept(vs, cluster, owned)) <==>
            exists c :: (n, c) in PairsOfEntries(vs) && !Stale((n, c), cluster, owned)
  {
    KeptFilled(vs, cluster, owned);
    ListedByPairs(Kept(vs, cluster, owned), n);
    KeptPairs(vs, cluster, owned);
  }

  lemma {:induction false} KeptNamespaces(vs: seq<Selection>, cluster: string, owned: set<string>)
    ensures Namespaces(Kept(vs, cluster, owned)) <= Namespaces(vs)
  {
    if vs != [] {
      var n := |vs| - 1;
      KeptNamespaces(vs[..n], cluster, owned);
      var a, b := Kept(vs[..n], cluster, owned), KeptOne(vs[n], cluster, owned);
      assert Namespaces(a + b) <= Namespaces(a) + {vs[n].ns};
      assert vs == vs[..n] + [vs[n]];
      assert Namespaces(vs) == Namespaces(vs[..n]) + {vs[n].ns};
    }
  }

  /** No entry is duplicated: every surviving namespace is there once. */
  lemma {:induction false} KeptUnique(vs: seq<Selection>, cluster: string, owned: set<string>)
    requires UniqueNamespaces(vs)
    ensures UniqueNamespaces(Kept(vs, cluster, owned))
  {
    if vs != [] {
      var n := |vs| - 1;
      KeptUnique(vs[..n], cluster, owned);
      KeptNamespaces(vs[..n], cluster, owned);
      var a, b := Kept(vs[..n], cluster, owned), KeptOne(vs[n], cluster, owned);
      assert vs[n].ns !in Namespaces(vs[..n]);
      forall i | 0 <= i < |a| ensures a[i].ns != vs[n].ns { assert a[i] in a && a[i].ns in Namespaces(a); }
    }
  }

  /** A pass over a present default slice: the add phase, then, if nothing was added, the removal phase. */
  predicate Writes(vs: seq<Selection>, rs: seq<Report>, cluster: string, slice: string) {
    || !(OnCluster(UnassignedNames(rs), cluster) <= PairsOfEntries(vs))
    || Loses(vs, cluster, OwnedNames(rs, slice))
  }

  /** The pairs of the list after a pass: the unassigned ones are added, or, if none is missing, the stale ones go. */
  function NextPairs(pairs: set<(string, string)>, rs: seq<Report>, cluster: string, slice: string): set<(string, string)> {
    var wanted, owned := OnCluster(UnassignedNames(rs), cluster), OwnedNames(rs, slice);
    if wanted <= pairs then set p | p in pairs && !Stale(p, cluster, owned) else pairs + wanted
  }

  /** What a default slice stores: its clusters and its namespaces. */
  datatype Spec = Spec(clusters: seq<string>, list: seq<Selection>)

  lemma UnassignedEntries(rs: seq<Report>, cluster: string, i: nat)
    requires i < |rs|
    ensures OnCluster(UnassignedNames(rs[..i + 1]), cluster) == OnCluster(UnassignedNames(rs[..i]), cluster) + Wanted(rs[i], cluster)
  {
    assert rs[..i + 1] == rs[..i] + [rs[i]];
    UnassignedStep(rs[..i], rs[i], cluster);
  }

  /** A list of these pairs without empty entries. */
  predicate Lists(list: seq<Selection>, pairs: set<(string, string)>) {
    !HasEmptyEntry(list) && PairsOfEntries(list) == pairs
  }

  lemma ListsMore(list: seq<Selection>, pairs: set<(string, string)>, x: Report, cluster: string)
    requires Lists(list, pairs)
    ensures Lists(if x.slice == "" then list + [Selection(x.name, [cluster])] else list, pairs + Wanted(x, cluster))
  {
    if x.slice == "" {
      Appended(list, x.name, cluster);
      EmptyEntryInConcat(list, [Selection(x.name, [cluster])]);
    }
  }

  /** The branch of DefaultSliceOperations without a default slice: one is made of the unassigned namespaces. */
  method CreateDefaultSlice(rs: seq<Report>, cluster: string) returns (stored: Spec)
    ensures stored.clusters == [cluster] && !HasEmptyEntry(stored.list)
    ensures PairsOfEntries(stored.list) == OnCluster(UnassignedNames(rs), cluster)
  {
    var list: seq<Selection> := [];
    for i := 0 to |rs|
      invariant Lists(list, OnCluster(UnassignedNames(rs[..i]), cluster))
    {
      UnassignedEntries(rs, cluster, i);
      ghost var seen := OnCluster(UnassignedNames(rs[..i]), cluster);
      ListsMore(list, seen, rs[i], cluster);
      if rs[i].slice == "" { list := list + [Selection(rs[i].name, [cluster])]; }
    }
    assert rs[..|rs|] == rs;
    stored := Spec([cluster], list);
  }

  /** DefaultSliceOperations for a reporting cluster and a present default slice: what it stores, if it stores anything. A
      cluster that is new comes on the cluster list only with a change of namespaces. */
  method DefaultSliceOperations(clusters: seq<string>, es: seq<Entry>, rs: seq<Report>, cluster: string, slice: string,
                                ghost vs: seq<Selection>)
      returns (stored: Option<Spec>)
    requires Separate(es) && Denotes(es, vs) && UniqueNamespaces(vs) && NoRepeats(vs) && UniqueReports(rs)
    modifies Arrays(es)
    ensures stored.Some? <==> Writes(vs, rs, cluster, slice)
    ensures stored.Some? ==> stored.value.clusters == if cluster in clusters then clusters else clusters + [cluster]
    ensures stored.Some? ==> UniqueNamespaces(stored.value.list)
    ensures stored.Some? && !HasEmptyEntry(vs) ==> !HasEmptyEntry(stored.value.list)
    ensures PairsOfEntries(if stored.Some? then stored.value.list else vs) == NextPairs(PairsOfEntries(vs), rs, cluster, slice)
  {
    var isNewCluster := true;
    for i := 0 to |clusters|
      invariant isNewCluster && cluster !in clusters[..i]
    {
      if clusters[i] == cluster { isNewCluster := false; break; }
    }
    assert isNewCluster <==> cluster !in clusters;
    var clusters' := if isNewCluster then clusters + [cluster] else clusters;
    var values := ReadEntries(es);
    assert values == vs;
    var r, added := AddPhase(values, rs, cluster);
    if added { return Some(Spec(clusters', r)); }
    var out, removed := RemovalPhase(es, cluster, OwnedNames(rs, slice), vs);
    if !removed {
      NothingLost(vs, cluster, OwnedNames(rs, slice));
      return None;
    }
    KeptFacts(vs, cluster, OwnedNames(rs, slice));
    r := ReadEntries(out);
    assert r == Kept(vs, cluster, OwnedNames(rs, slice));
    stored := Some(Spec(clusters', r));
  }

  lemma NothingLost(vs: seq<Selection>, cluster: string, owned: set<string>)
    requires !Loses(vs, cluster, owned)
    ensures PairsOfEntries(vs) == set p | p in PairsOfEntries(vs) && !Stale(p, cluster, owned)
  {
    LosesByPairs(vs, cluster, owned);
    assert forall p :: p in PairsOfEntries(vs) && p.1 == cluster ==> (p.0, cluster) in PairsOfEntries(vs);
  }

  lemma KeptFacts(vs: seq<Selection>, cluster: string, owned: set<string>)
    requires UniqueNamespaces(vs) && NoRepeats(vs)
    ensures UniqueNamespaces(Kept(vs, cluster, owned))
    ensures PairsOfEntries(Kept(vs, cluster, owned)) == set p | p in PairsOfEntries(vs) && !Stale(p, cluster, owned)
    ensures !HasEmptyEntry(vs) ==> !HasEmptyEntry(Kept(vs, cluster, owned))
  {
    KeptPairs(vs, cluster, owned);
    KeptUnique(vs, cluster, owned);
    if !HasEmptyEntry(vs) { KeptFilled(vs, cluster, owned); }
  }

  /** DeregisterClusterFromDefaultSlice: the removal phase with nothing confirmed. The cluster comes off the cluster list only
      if it had a pair. */
  method DeregisterClusterFromDefaultSlice(clusters: GoSlice, es: seq<Entry>, cluster: string, ghost vs: seq<Selection>)
      returns (stored: Option<Spec>)
    requires InBounds(clusters) && NoDup(Items(clusters)) && clusters.arr !in Arrays(es)
    requires Separate(es) && Denotes(es, vs) && UniqueNamespaces(vs) && NoRepeats(vs)
    modifies Arrays(es), clusters.arr
    ensures stored.Some? <==> cluster in old(Items(clusters)) && exists n :: (n, cluster) in PairsOfEntries(vs)
    ensures stored.Some? ==>
      && stored.value.clusters == Filter(old(Items(clusters)), {cluster}) && UniqueNamespaces(stored.value.list)
      && PairsOfEntries(stored.value.list) == (set p | p in PairsOfEntries(vs) && p.1 != cluster)
      && (!HasEmptyEntry(vs) ==> !HasEmptyEntry(stored.value.list))
  {
    var onboarded := FindCluster(clusters, cluster);
    if !onboarded { return None; }
    var out, removed := RemovalPhase(es, cluster, {}, vs);
    LosesByPairs(vs, cluster, {});
    if !removed { return None; }
    KeptFacts(vs, cluster, {});
    assert forall p :: Stale(p, cluster, {}) <==> p.1 == cluster;
    var list := ReadEntries(out);
    assert list == Kept(vs, cluster, {});
    var left := TakeOff(clusters, cluster);
    stored := Some(Spec(left.arr[..left.len], list));
  }

  method FindCluster(s: GoSlice, x: string) returns (found: bool)
    requires InBounds(s)
    ensures found <==> x in Items(s)
  {
    for i := 0 to s.len
      invariant x !in s.arr[..i]
    {
      if s.arr[i] == x {
        assert Items(s)[i] == x;
        return true;
      }
    }
    found := false;
  }

  method TakeOff(s: GoSlice, x: string) returns (r: GoSlice)
    requires InBounds(s) && NoDup(Items(s)) && x in Items(s)
    modifies s.arr
    ensures r.arr == s.arr && r.len <= s.len && Items(r) == Filter(old(Items(s)), {x})
  {
    ghost var was, items := s.arr[..], Items(s);
    ghost var at;
    r, at := RemoveElement(s, x);
    FilterOne(items, at);
    assert items == was[..s.len];
    assert Items(r) == s.arr[..][..s.len - 1] == was[..at] + was[at + 1..s.len];
    assert was[..at] == items[..at] && was[at + 1..s.len] == items[at + 1..];
  }

  lemma LosesByPairs(vs: seq<Selection>, cluster: string, owned: set<string>)
    ensures Loses(vs, cluster, owned) <==> exists n :: (n, cluster) in PairsOfEntries(vs) && n !in owned
  {
  }

  /** The names are those of the reports. */
  lemma ReportedNames(rs: seq<Report>, slice: string, n: string)
    ensures n in UnassignedNames(rs) <==> Report(n, "") in rs
    ensures n in OwnedNames(rs, slice) <==> Report(n, slice) in rs
  {
    if n in UnassignedNames(rs) { var x :| x in rs && x.slice == "" && x.name == n; assert x == Report(n, ""); }
    if n in OwnedNames(rs, slice) { var x :| x in rs && x.slice == slice && x.name == n; assert x == Report(n, slice); }
  }

  /** Some namespace is reported as unassigned and not listed for the cluster. */
  ghost predicate Misses(pairs: set<(string, string)>, rs: seq<Report>, cluster: string) {
    exists n :: Report(n, "") in rs && (n, cluster) !in pairs
  }

  /** A pass adds the unassigned namespaces if it misses one, and only otherwise takes away those of the cluster's pairs whose
      namespace is not reported as the slice's. */
  lemma NextPairsExactly(pairs: set<(string, string)>, rs: seq<Report>, cluster: string, slice: string, p: (string, string))
    ensures p in NextPairs(pairs, rs, cluster, slice) <==>
      if Misses(pairs, rs, cluster) then p in pairs || (p.1 == cluster && Report(p.0, "") in rs)
      else p in pairs && (p.1 == cluster ==> Report(p.0, slice) in rs)
  {
    var wanted := OnCluster(UnassignedNames(rs), cluster);
    forall n ensures n in UnassignedNames(rs) <==> Report(n, "") in rs { ReportedNames(rs, slice, n); }
    assert forall q: (string, string) :: q in wanted <==> q.0 in UnassignedNames(rs) && q.1 == cluster;
    assert wanted <= pairs <==> !Misses(pairs, rs, cluster);
    ReportedNames(rs, slice, p.0);
  }

  /** A pass writes nothing exactly when no namespace is unassigned and every listed one is reported as owned. */
  lemma WritesNothing(vs: seq<Selection>, rs: seq<Report>, cluster: string, slice: string)
    requires UniqueReports(rs) && slice != ""
    ensures !Writes(vs, rs, cluster, slice) <==>
      && (forall n :: Report(n, "") !in rs)
      && forall n :: (n, cluster) in PairsOfEntries(vs) ==> Report(n, slice) in rs
  {
    LosesByPairs(vs, cluster, OwnedNames(rs, slice));
    forall n
      ensures n in UnassignedNames(rs) <==> Report(n, "") in rs
      ensures n in OwnedNames(rs, slice) <==> Report(n, slice) in rs
    {
      ReportedNames(rs, slice, n);
    }
    forall n | n in UnassignedNames(rs) ensures n !in OwnedNames(rs, slice) {}
    assert forall n :: n in UnassignedNames(rs) ==> (n, cluster) in OnCluster(UnassignedNames(rs), cluster);
  }

  /** From any list, passes under a fixed report settle exactly when no namespace is reported unassigned: then one pass
      is enough, and otherwise every pass changes the list. */
  lemma SettlesExactly(pairs: set<(string, string)>, rs: seq<Report>, cluster: string, slice: string)
    requires UniqueReports(rs) && slice != ""
    ensures var next := NextPairs(pairs, rs, cluster, slice);
      && (UnassignedNames(rs) == {} ==> NextPairs(next, rs, cluster, slice) == next)
      && (UnassignedNames(rs) != {} ==> next != pairs)
  {
    var wanted := OnCluster(UnassignedNames(rs), cluster);
    if n :| n in UnassignedNames(rs) {
      assert n !in OwnedNames(rs, slice) && (n, cluster) in wanted;
      assert Stale((n, cluster), cluster, OwnedNames(rs, slice));
    } else {
      assert wanted == {};
    }
  }

  /** Two passes over a list that has all unassigned namespaces take these away and bring them back, whatever else is
      listed; what goes for good is what is neither owned nor unassigned. */
  lemma UnassignedFlaps(pairs: set<(string, string)>, rs: seq<Report>, cluster: string, slice: string)
    requires UniqueReports(rs) && slice != "" && UnassignedNames(rs) != {}
    requires OnCluster(UnassignedNames(rs), cluster) <= pairs
    ensures var wanted, owned := OnCluster(UnassignedNames(rs), cluster), OwnedNames(rs, slice);
      var next := NextPairs(pairs, rs, cluster, slice);
      && next !! wanted
      && NextPairs(next, rs, cluster, slice) == next + wanted
      && next + wanted == set p | p in pairs && !Stale(p, cluster, owned + UnassignedNames(rs))
  {
    var unassigned, owned := UnassignedNames(rs), OwnedNames(rs, slice);
    var wanted := OnCluster(unassigned, cluster);
    assert unassigned !! owned;
    var next := NextPairs(pairs, rs, cluster, slice);
    forall p | p in wanted ensures p !in next { assert Stale(p, cluster, owned); }
    var n :| n in unassigned;
    assert (n, cluster) in wanted;
    forall p | p in pairs && p.1 == cluster && p.0 in unassigned ensures p in wanted { assert p == (p.0, cluster); }
  }

  /** DeregisterClusterFromDefaultSlice runs the removal phase with nothing confirmed: all the cluster's pairs go. */
  lemma DeregisteredPairs(vs: seq<Selection>, cluster: string)
    ensures forall n :: (n, cluster) !in PairsOfEntries(Kept(vs, cluster, {}))
    ensures forall p :: p in PairsOfEntries(vs) && p.1 != cluster ==> p in PairsOfEntries(Kept(vs, cluster, {}))
  {
    KeptPairs(vs, cluster, {});
  }
}
