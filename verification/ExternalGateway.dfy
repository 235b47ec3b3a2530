/** Which external gateway configuration a cluster gets, and the admission rule that makes the choice unambiguous. */
module ExternalGateway {
  import opened Sequences

  /** An external gateway config: the clusters it names, and the rest of it. */
  datatype GatewayConfig = GatewayConfig(clusters: seq<string>, body: string)

  const ALL := "*"

  // ----- Admission -----

  function Flatten(configs: seq<GatewayConfig>): seq<string> {
    if configs == [] then [] else Flatten(configs[..|configs| - 1]) + configs[|configs| - 1].clusters
  }

  function StarCount(configs: seq<GatewayConfig>): nat {
    if configs == [] then 0
    else StarCount(configs[..|configs| - 1]) + if ALL in configs[|configs| - 1].clusters then 1 else 0
  }

  predicate EntryAdmitted(c: GatewayConfig, participating: seq<string>) {
    && (ALL in c.clusters ==> |c.clusters| <= 1)
    && forall x :: x in c.clusters ==> x == ALL || x in participating
  }

  /** validateExternalGatewayConfig: * stands alone and in one config only, other clusters take part, none occurs twice. */
  predicate ConfigsAdmitted(configs: seq<GatewayConfig>, participating: seq<string>) {
    && (forall i :: 0 <= i < |configs| ==> EntryAdmitted(configs[i], participating))
    && StarCount(configs) <= 1 && NoDup(Flatten(configs))
  }

  method ValidateEntry(c: GatewayConfig, participating: seq<string>) returns (ok: bool)
    ensures ok <==> EntryAdmitted(c, participating)
  {
    if ALL in c.clusters && |c.clusters| > 1 { return false; }
    for k := 0 to |c.clusters|
      invariant forall x :: x in c.clusters[..k] ==> x == ALL || x in participating
    {
      if c.clusters[k] != ALL && c.clusters[k] !in participating { return false; }
    }
    assert c.clusters[..|c.clusters|] == c.clusters;
    ok := true;
  }

  method HasDuplicate(s: seq<string>) returns (duplicate: bool)
    ensures duplicate <==> !NoDup(s)
  {
    duplicate := false;
    var seen: set<string> := {};
    for i := 0 to |s|
      invariant seen == Elems(s[..i])
      invariant duplicate <==> !NoDup(s[..i])
    {
      assert s[..i + 1] == s[..i] + [s[i]];
      if s[i] in seen {
        var j :| 0 <= j < i && s[j] == s[i];
        assert s[..i + 1][j] == s[..i + 1][i];
        duplicate := true;
      } else {
        assert forall j :: 0 <= j < i ==> s[j] in s[..i];
      }
      seen := seen + {s[i]};
    }
    assert s[..|s|] == s;
  }

  method ValidateExternalGatewayConfig(configs: seq<GatewayConfig>, participating: seq<string>) returns (ok: bool)
    ensures ok <==> ConfigsAdmitted(configs, participating)
  {
    var count := 0;
    var allClusters: seq<string> := [];
    for i := 0 to |configs|
      invariant forall j :: 0 <= j < i ==> EntryAdmitted(configs[j], participating)
      invariant count == StarCount(configs[..i]) && allClusters == Flatten(configs[..i])
    {
      assert configs[..i + 1][..i] == configs[..i];
      if ALL in configs[i].clusters { count := count + 1; }
      var good := ValidateEntry(configs[i], participating);
      if !good { return false; }
      allClusters := allClusters + configs[i].clusters;
    }
    assert configs[..|configs|] == configs;
    if count > 1 { return false; }
    var duplicate := HasDuplicate(allClusters);
    ok := !duplicate;
  }

  /** The name is at place k of config i. */
  predicate At(configs: seq<GatewayConfig>, i: int, k: int, x: string) {
    0 <= i < |configs| && 0 <= k < |configs[i].clusters| && configs[i].clusters[k] == x
  }

  /** No name is at two places. */
  ghost predicate OncePlaced(configs: seq<GatewayConfig>) {
    forall i, k, j, m, x :: At(configs, i, k, x) && At(configs, j, m, x) ==> i == j && k == m
  }

  /** Every name takes part, or is a * that is alone. */
  predicate EachSuits(configs: seq<GatewayConfig>, participating: seq<string>) {
    forall i, k :: 0 <= i < |configs| && 0 <= k < |configs[i].clusters| ==>
      if configs[i].clusters[k] == "*" then |configs[i].clusters| == 1 else configs[i].clusters[k] in participating
  }

  lemma {:induction false} FlattenMembers(configs: seq<GatewayConfig>, x: string)
    ensures x in Flatten(configs) <==> exists i :: 0 <= i < |configs| && x in configs[i].clusters
  {
    if configs != [] {
      var n := |configs| - 1;
      FlattenMembers(configs[..n], x);
      assert forall i :: 0 <= i < n ==> configs[..n][i] == configs[i];
    }
  }

  lemma NoDupParts<T>(a: seq<T>, b: seq<T>)
    ensures NoDup(a + b) <==> NoDup(a) && NoDup(b) && forall x :: x in a ==> x !in b
  {
    var s := a + b;
    assert forall i :: 0 <= i < |a| ==> s[i] == a[i];
    assert forall i :: 0 <= i < |b| ==> s[|a| + i] == b[i];
    if NoDup(s) {
      forall x | x in a ensures x !in b {
        var i :| 0 <= i < |a| && a[i] == x;
        forall j | 0 <= j < |b| ensures b[j] != x { assert s[i] != s[|a| + j]; }
      }
      forall i, j | 0 <= i < j < |b| ensures b[i] != b[j] { assert s[|a| + i] != s[|a| + j]; }
    }
    if NoDup(a) && NoDup(b) && forall x :: x in a ==> x !in b {
      forall i, j | 0 <= i < j < |s| ensures s[i] != s[j] {
        if i < |a| <= j { assert a[i] in a && s[j] == b[j - |a|]; } else if |a| <= i { assert s[i] == b[i - |a|] && s[j] == b[j - |a|]; }
      }
    }
  }

  lemma {:induction false} FlattenPlaces(configs: seq<GatewayConfig>)
    ensures NoDup(Flatten(configs)) <==> OncePlaced(configs)
  {
    if configs != [] {
      var n := |configs| - 1;
      FlattenPlaces(configs[..n]);
      NoDupParts(Flatten(configs[..n]), configs[n].clusters);
      forall x ensures x in Flatten(configs[..n]) <==> exists i :: 0 <= i < n && x in configs[i].clusters {
        FlattenMembers(configs[..n], x);
        assert forall i :: 0 <= i < n ==> configs[..n][i] == configs[i];
      }
      PlacesStep(configs, n);
    }
  }

  /** Beside the configs before the last one, its names are new and different. */
  ghost predicate LastApart(configs: seq<GatewayConfig>, n: nat)
    requires n + 1 == |configs|
  {
    && OncePlaced(configs[..n]) && NoDup(configs[n].clusters)
    && forall i, x :: 0 <= i < n && x in configs[i].clusters ==> x !in configs[n].clusters
  }

  lemma PlacesStep(configs: seq<GatewayConfig>, n: nat)
    requires n + 1 == |configs|
    ensures OncePlaced(configs) <==> LastApart(configs, n)
  {
    forall i, k, x | 0 <= i < n ensures At(configs, i, k, x) <==> At(configs[..n], i, k, x) {}
    if OncePlaced(configs) { OnceMeansApart(configs, n); }
    if LastApart(configs, n) { ApartMeansOnce(configs, n); }
  }

  lemma OnceMeansApart(configs: seq<GatewayConfig>, n: nat)
    requires n + 1 == |configs| && OncePlaced(configs)
    ensures LastApart(configs, n)
  {
    var last := configs[n].clusters;
    forall k, m | 0 <= k < m < |last| ensures last[k] != last[m] { assert At(configs, n, k, last[k]) && At(configs, n, m, last[m]); }
    forall i, x | 0 <= i < n && x in configs[i].clusters ensures x !in last {
      var k :| 0 <= k < |configs[i].clusters| && configs[i].clusters[k] == x;
      assert At(configs, i, k, x);
      forall m | 0 <= m < |last| ensures last[m] != x { assert last[m] == x ==> At(configs, n, m, x); }
    }
    forall i, k, j, m, x | At(configs[..n], i, k, x) && At(configs[..n], j, m, x) ensures i == j && k == m {
      assert At(configs, i, k, x) && At(configs, j, m, x);
    }
  }

  lemma OnePlace(s: seq<string>, k: int, m: int)
    requires NoDup(s) && 0 <= k < |s| && 0 <= m < |s| && s[k] == s[m]
    ensures k == m
  {
  }

  lemma ApartMeansOnce(configs: seq<GatewayConfig>, n: nat)
    requires n + 1 == |configs| && LastApart(configs, n)
    ensures OncePlaced(configs)
  {
    forall i, k, j, m, x | At(configs, i, k, x) && At(configs, j, m, x) ensures i == j && k == m {
      assert x in configs[i].clusters && x in configs[j].clusters;
      if i < n && j < n {
        assert At(configs[..n], i, k, x) && At(configs[..n], j, m, x);
      } else if i == n && j == n {
        OnePlace(configs[n].clusters, k, m);
      }
    }
  }

  lemma {:induction false} SomeStar(configs: seq<GatewayConfig>)
    requires StarCount(configs) >= 1
    ensures exists i :: 0 <= i < |configs| && ALL in configs[i].clusters
  {
    var n := |configs| - 1;
    if ALL !in configs[n].clusters {
      SomeStar(configs[..n]);
      var i :| 0 <= i < n && ALL in configs[..n][i].clusters;
      assert ALL in configs[i].clusters;
    }
  }

  lemma {:induction false} OneStar(configs: seq<GatewayConfig>)
    requires OncePlaced(configs)
    ensures StarCount(configs) <= 1
  {
    if configs != [] {
      var n := |configs| - 1;
      PlacesStep(configs, n);
      OneStar(configs[..n]);
      if StarCount(configs[..n]) >= 1 {
        SomeStar(configs[..n]);
        var i :| 0 <= i < n && ALL in configs[..n][i].clusters;
        assert ALL in configs[i].clusters;
      }
    }
  }

  /** A list is admitted exactly when no name is given twice and each takes part or is a * that is alone; that * is in one
      config only need not be asked. */
  lemma AdmittedExactly(configs: seq<GatewayConfig>, participating: seq<string>)
    ensures ConfigsAdmitted(configs, participating) <==> OncePlaced(configs) && EachSuits(configs, participating)
  {
    FlattenPlaces(configs);
    if OncePlaced(configs) { OneStar(configs); }
    forall i | 0 <= i < |configs|
      ensures EntryAdmitted(configs[i], participating) <==>
        forall k :: 0 <= k < |configs[i].clusters| ==>
          if configs[i].clusters[k] == "*" then |configs[i].clusters| == 1 else configs[i].clusters[k] in participating
    {
    }
  }

  // ----- The choice -----

  /** The labelled loop of ReconcileWorkerSliceConfig: a * is remembered, the cluster's own name ends the search. */
  method Pick(configs: seq<GatewayConfig>, cluster: string) returns (picked: GatewayConfig)
    ensures picked == Chosen(configs, cluster)
  {
    picked := GatewayConfig([], "");
    for i := 0 to |configs|
      invariant picked == Chosen(configs[..i], cluster)
      invariant forall j :: 0 <= j < i ==> !NamesCluster(configs[j], cluster)
    {
      assert configs[..i + 1][..i] == configs[..i] && configs[..i + 1][i] == configs[i];
      ghost var before := picked;
      for k := 0 to |configs[i].clusters|
        invariant !(cluster != ALL && cluster in configs[i].clusters[..k])
        invariant picked == if ALL in configs[i].clusters[..k] then configs[i] else before
      {
        assert configs[i].clusters[..k + 1] == configs[i].clusters[..k] + [configs[i].clusters[k]];
        if configs[i].clusters[k] == ALL {
          picked := configs[i];
        } else if configs[i].clusters[k] == cluster {
          picked := configs[i];
          FirstNamed(configs, cluster, i);
          return;
        }
      }
      assert configs[i].clusters[..|configs[i].clusters|] == configs[i].clusters;
    }
    assert configs[..|configs|] == configs;
  }

  predicate NamesCluster(c: GatewayConfig, cluster: string) {
    cluster != ALL && cluster in c.clusters
  }

  /** The first config naming the cluster, else the last one with *, else the empty one. */
  function Chosen(configs: seq<GatewayConfig>, cluster: string): GatewayConfig {
    if configs == [] then GatewayConfig([], "")
    else
      var front, last := configs[..|configs| - 1], configs[|configs| - 1];
      if exists i :: 0 <= i < |front| && NamesCluster(front[i], cluster) then Chosen(front, cluster)
      else if NamesCluster(last, cluster) || ALL in last.clusters then last
      else Chosen(front, cluster)
  }

  lemma {:induction false} FirstNamed(configs: seq<GatewayConfig>, cluster: string, i: nat)
    requires i < |configs| && NamesCluster(configs[i], cluster)
    requires forall j :: 0 <= j < i ==> !NamesCluster(configs[j], cluster)
    ensures Chosen(configs, cluster) == configs[i]
  {
    var front := configs[..|configs| - 1];
    if i < |front| {
      assert front[i] == configs[i];
      FirstNamed(front, cluster, i);
    } else {
      assert forall j :: 0 <= j < |front| ==> front[j] == configs[j];
    }
  }

  lemma {:induction false} OnlyStar(configs: seq<GatewayConfig>, cluster: string, i: nat)
    requires i < |configs| && ALL in configs[i].clusters && StarCount(configs) <= 1
    requires forall j :: 0 <= j < |configs| ==> !NamesCluster(configs[j], cluster)
    ensures Chosen(configs, cluster) == configs[i]
  {
    var front := configs[..|configs| - 1];
    assert forall j :: 0 <= j < |front| ==> front[j] == configs[j];
    if i < |front| {
      StarCounted(front, i);
      OnlyStar(front, cluster, i);
    }
  }

  lemma {:induction false} LastStar(configs: seq<GatewayConfig>, cluster: string, i: nat)
    requires i < |configs| && ALL in configs[i].clusters
    requires forall j :: i < j < |configs| ==> ALL !in configs[j].clusters
    requires forall j :: 0 <= j < |configs| ==> !NamesCluster(configs[j], cluster)
    ensures Chosen(configs, cluster) == configs[i]
  {
    var front := configs[..|configs| - 1];
    assert forall j :: 0 <= j < |front| ==> front[j] == configs[j];
    if i < |front| { LastStar(front, cluster, i); }
  }

  lemma {:induction false} StarCounted(configs: seq<GatewayConfig>, i: nat)
    requires i < |configs| && ALL in configs[i].clusters
    ensures StarCount(configs) >= 1
  {
    if i < |configs| - 1 {
      assert configs[..|configs| - 1][i] == configs[i];
      StarCounted(configs[..|configs| - 1], i);
    }
  }

  lemma {:induction false} NothingChosen(configs: seq<GatewayConfig>, cluster: string)
    requires forall j :: 0 <= j < |configs| ==> !NamesCluster(configs[j], cluster) && ALL !in configs[j].clusters
    ensures Chosen(configs, cluster) == GatewayConfig([], "")
  {
    if configs != [] {
      assert forall j :: 0 <= j < |configs| - 1 ==> configs[..|configs| - 1][j] == configs[j];
      NothingChosen(configs[..|configs| - 1], cluster);
    }
  }

  lemma {:induction false} FlattenHolds(configs: seq<GatewayConfig>, i: nat, x: string)
    requires i < |configs| && x in configs[i].clusters
    ensures x in Flatten(configs)
  {
    if i < |configs| - 1 {
      assert configs[..|configs| - 1][i] == configs[i];
      FlattenHolds(configs[..|configs| - 1], i, x);
    }
  }

  /** In an admitted list two configs that name the same cluster are the same entry. */
  lemma {:induction false} NamedOnce(configs: seq<GatewayConfig>, i: nat, j: nat, x: string)
    requires i <= j < |configs| && x in configs[i].clusters && x in configs[j].clusters && NoDup(Flatten(configs))
    ensures i == j
  {
    var n := |configs| - 1;
    var a, b := Flatten(configs[..n]), configs[n].clusters;
    assert forall k :: 0 <= k < |a| ==> (a + b)[k] == a[k];
    if j < n {
      assert configs[..n][i] == configs[i] && configs[..n][j] == configs[j];
      NamedOnce(configs[..n], i, j, x);
    } else if i < n {
      assert configs[..n][i] == configs[i];
      FlattenHolds(configs[..n], i, x);
      assert (a + b)[|a|..] == b;
      SharedName(a, b, x);
    }
  }

  lemma SharedName(a: seq<string>, b: seq<string>, x: string)
    requires x in a && x in b
    ensures !NoDup(a + b)
  {
    var k :| 0 <= k < |a| && a[k] == x;
    var m :| 0 <= m < |b| && b[m] == x;
    assert (a + b)[k] == x && (a + b)[|a| + m] == x;
  }

  /** On any list, admitted or not: the first config that names the cluster; if none does, the last one with a *; else the
      empty one. */
  lemma ChosenOfAny(configs: seq<GatewayConfig>, cluster: string, i: nat)
    requires i < |configs|
    ensures NamesCluster(configs[i], cluster) && (forall j :: 0 <= j < i ==> !NamesCluster(configs[j], cluster)) ==>
      Chosen(configs, cluster) == configs[i]
    ensures (forall j :: 0 <= j < |configs| ==> !NamesCluster(configs[j], cluster)) && "*" in configs[i].clusters &&
            (forall j :: i < j < |configs| ==> "*" !in configs[j].clusters) ==>
      Chosen(configs, cluster) == configs[i]
    ensures (forall j :: 0 <= j < |configs| ==> !NamesCluster(configs[j], cluster) && "*" !in configs[j].clusters) ==>
      Chosen(configs, cluster) == GatewayConfig([], "")
  {
    if NamesCluster(configs[i], cluster) && forall j :: 0 <= j < i ==> !NamesCluster(configs[j], cluster) {
      FirstNamed(configs, cluster, i);
    }
    if forall j :: 0 <= j < |configs| ==> !NamesCluster(configs[j], cluster) {
      if ALL in configs[i].clusters && forall j :: i < j < |configs| ==> ALL !in configs[j].clusters {
        LastStar(configs, cluster, i);
      }
      if forall j :: 0 <= j < |configs| ==> ALL !in configs[j].clusters { NothingChosen(configs, cluster); }
    }
  }

  /** The meaning of the choice: the config naming the cluster, else the one with *, else none. */
  predicate IsChoice(configs: seq<GatewayConfig>, cluster: string, c: GatewayConfig) {
    if exists i :: 0 <= i < |configs| && NamesCluster(configs[i], cluster) then c in configs && NamesCluster(c, cluster)
    else if exists i :: 0 <= i < |configs| && ALL in configs[i].clusters then c in configs && ALL in c.clusters
    else c == GatewayConfig([], "")
  }

  lemma {:induction false} FirstIndex(configs: seq<GatewayConfig>, cluster: string, k: nat) returns (i: nat)
    requires k < |configs| && NamesCluster(configs[k], cluster)
    ensures i <= k && NamesCluster(configs[i], cluster) && forall j :: 0 <= j < i ==> !NamesCluster(configs[j], cluster)
  {
    i := k;
    if exists j :: 0 <= j < k && NamesCluster(configs[j], cluster) {
      var j :| 0 <= j < k && NamesCluster(configs[j], cluster);
      i := FirstIndex(configs, cluster, j);
    }
  }

  /** For every admitted list, the loop's choice is the one that choice means. */
  lemma ChosenIsChoice(configs: seq<GatewayConfig>, participating: seq<string>, cluster: string)
    requires ConfigsAdmitted(configs, participating)
    ensures IsChoice(configs, cluster, Chosen(configs, cluster))
  {
    if k :| 0 <= k < |configs| && NamesCluster(configs[k], cluster) {
      var i := FirstIndex(configs, cluster, k);
      FirstNamed(configs, cluster, i);
    } else if k :| 0 <= k < |configs| && ALL in configs[k].clusters {
      OnlyStar(configs, cluster, k);
    } else {
      NothingChosen(configs, cluster);
    }
  }

  /** And there is only one, so the order of the configs does not matter. */
  lemma ChoiceIgnoresOrder(configs: seq<GatewayConfig>, shuffled: seq<GatewayConfig>, participating: seq<string>, cluster: string)
    requires ConfigsAdmitted(configs, participating) && ConfigsAdmitted(shuffled, participating)
    requires forall c :: c in configs <==> c in shuffled
    ensures Chosen(configs, cluster) == Chosen(shuffled, cluster)
  {
    ChosenIsChoice(configs, participating, cluster);
    ChosenIsChoice(shuffled, participating, cluster);
    var c, d := Chosen(configs, cluster), Chosen(shuffled, cluster);
    SameChoice(configs, shuffled, cluster, d);
    if exists i :: 0 <= i < |configs| && NamesCluster(configs[i], cluster) {
      SameConfig(configs, c, d, cluster);
    } else if exists i :: 0 <= i < |configs| && ALL in configs[i].clusters {
      SameConfig(configs, c, d, ALL);
    }
  }

  lemma SameChoice(configs: seq<GatewayConfig>, shuffled: seq<GatewayConfig>, cluster: string, d: GatewayConfig)
    requires IsChoice(shuffled, cluster, d) && forall c :: c in configs <==> c in shuffled
    ensures IsChoice(configs, cluster, d)
  {
    assert forall i :: 0 <= i < |configs| ==> configs[i] in shuffled;
    assert forall i :: 0 <= i < |shuffled| ==> shuffled[i] in configs;
  }

  lemma SameConfig(configs: seq<GatewayConfig>, c: GatewayConfig, d: GatewayConfig, x: string)
    requires c in configs && d in configs && x in c.clusters && x in d.clusters && NoDup(Flatten(configs))
    ensures c == d
  {
    var i :| 0 <= i < |configs| && configs[i] == c;
    var j :| 0 <= j < |configs| && configs[j] == d;
    if i <= j { NamedOnce(configs, i, j, x); } else { NamedOnce(configs, j, i, x); }
  }
}
