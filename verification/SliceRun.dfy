/** Whole runs of one slice: cluster list updates, reconcile passes, finalizers, completed deletions, and the turns of
    the gateways' own reconciler. */
module SliceRun {
  import opened Text
  import opened Sequences
  import opened Cidr
  import opened IpText
  import opened Pools
  import opened Ipam
  import opened OwnerLabel
  import opened SliceStore

  /** before: the octets of the mesh as it last stood when the cluster list changed. */
  datatype State = State(clusters: seq<string>, configs: Configs, gws: Gateways, held: set<GatewayKey>,
                         dying: set<GatewayKey>, before: map<string, int>)
  {
    function GatewayStore(): Store { Store(gws, held, dying) }
  }

  datatype Event =
    | Update(clusters: seq<string>)                    // an admitted change of the cluster list
    | Pass(l: seq<Listed>, registered: set<string>)    // a reconcile, with the config list it saw
    | Hold(cluster: string)                            // the config's own reconciler adds its finalizer
    | Finish(cluster: string)                          // a terminating config disappears
    | Turn(gateway: GatewayKey)                        // a gateway's own reconciler runs

  /** The webhook's rule for cluster lists: no duplicates, at most maxClusters. */
  predicate Admitted(s: Slice, clusters: seq<string>) {
    NoDup(clusters) && |clusters| <= s.maxClusters
  }

  ghost predicate Enabled(s: Slice, st: State, e: Event) {
    match e
    case Update(clusters) => Admitted(s, clusters)
    case Pass(l, _) => Enumerates(l, CleanUp(st.configs, st.clusters))
    case Hold(c) => c in st.configs && !st.configs[c].terminating
    case Finish(c) => c in st.configs && st.configs[c].terminating
    case Turn(_) => true
  }

  /** Whether a pass gets past ComputeClusterMap. */
  predicate Completes(clusters: seq<string>, l: seq<Listed>) {
    ClusterMap(clusters, l).Some? && Names(clusters) <= ClusterMap(clusters, l).value.Keys
  }

  function Apply(s: Slice, st: State, e: Event): State {
    match e
    case Update(clusters) => st.(clusters := clusters, before := OctetMap(st.configs))
    case Pass(l, registered) =>
      var base := CleanUp(st.configs, st.clusters);
      if !Completes(st.clusters, l) then st.(configs := base)
      else
        var cm := ClusterMap(st.clusters, l).value;
        var selector := Selector(s, LastCreated(base, st.clusters));
        st.(configs := Written(s, base, st.clusters, cm),
            gws := GatewayPass(s, st.gws, st.clusters, cm, selector, st.held, registered).gws,
            dying := st.dying + Doomed(st.gws, st.clusters, cm, selector) * st.held)
    case Hold(c) => if c in st.configs then st.(configs := st.configs[c := st.configs[c].(held := true)]) else st
    case Finish(c) => st.(configs := st.configs - {c})
    case Turn(k) =>
      var x := Turned(st.GatewayStore(), st.clusters, k);
      st.(gws := x.gws, held := x.held, dying := x.dying)
  }

  // ----- Allocation, under any interleaving -----

  /** Every config, terminating or not, has its own index below maxClusters, and the block of that index. */
  ghost predicate Allocated(s: Slice, configs: Configs) {
    && (forall c :: c in configs ==>
          && configs[c].octet.Some? && 0 <= configs[c].octet.value < s.maxClusters
          && configs[c].cidr == s.pool(configs[c].octet.value))
    && Injective(OctetMap(configs))
  }

  lemma CleanUpAllocated(s: Slice, configs: Configs, clusters: seq<string>)
    requires Allocated(s, configs)
    ensures Allocated(s, CleanUp(configs, clusters))
  {
    CleanUpKeepsOctets(configs, clusters);
  }

  /** Octets after the write loop are the computed ones. */
  lemma WrittenOctets(s: Slice, base: Configs, clusters: seq<string>, cm: map<string, int>)
    requires cm.Keys == base.Keys + Names(clusters)
    requires forall c :: c in base ==> base[c].octet == Some(cm[c])
    ensures OctetMap(Written(s, base, clusters, cm)) == cm
  {
  }

  lemma WrittenAllocated(s: Slice, base: Configs, clusters: seq<string>, cm: map<string, int>)
    requires cm.Keys == base.Keys + Names(clusters) && Injective(cm)
    requires forall c :: c in cm ==> 0 <= cm[c] < s.maxClusters
    requires forall c :: c in base ==> base[c].octet == Some(cm[c]) && base[c].cidr == s.pool(cm[c])
    ensures Allocated(s, Written(s, base, clusters, cm))
  {
  }

  /** What a completing pass computes: every config kept its index, every cluster has one, all below maxClusters. */
  lemma PassComputes(s: Slice, base: Configs, clusters: seq<string>, l: seq<Listed>)
    requires Allocated(s, base) && Admitted(s, clusters) && Enumerates(l, base)
    ensures Completes(clusters, l) <==> ClusterMap(clusters, l).Some?
    ensures Completes(clusters, l) ==>
      var cm := ClusterMap(clusters, l).value;
      && cm.Keys == base.Keys + Names(clusters) && Injective(cm)
      && (forall c :: c in cm ==> 0 <= cm[c] < s.maxClusters)
      && (forall c :: c in base ==> base[c].octet == Some(cm[c]))
  {
    EnumeratedOctets(l, base);
    if ClusterMap(clusters, l).Some? {
      ClusterMapFacts(clusters, l);
      var o, cm := OctetMap(base), ClusterMap(clusters, l).value;
      assert o.Keys == base.Keys;
      forall c | c in cm ensures 0 <= cm[c] < s.maxClusters {
        if c in o { assert cm[c] == o[c]; }
      }
    }
  }

  /** A pass keeps configs allocated; if it completes, their octets are the computed map. */
  lemma PassAllocates(s: Slice, configs: Configs, clusters: seq<string>, l: seq<Listed>)
    requires Allocated(s, configs) && Admitted(s, clusters) && Enumerates(l, CleanUp(configs, clusters))
    ensures Allocated(s, CleanUp(configs, clusters))
    ensures Completes(clusters, l) ==>
      var base, cm := CleanUp(configs, clusters), ClusterMap(clusters, l).value;
      Allocated(s, Written(s, base, clusters, cm)) && OctetMap(Written(s, base, clusters, cm)) == cm
  {
    var base := CleanUp(configs, clusters);
    CleanUpAllocated(s, configs, clusters);
    PassComputes(s, base, clusters, l);
    if Completes(clusters, l) {
      WrittenOctets(s, base, clusters, ClusterMap(clusters, l).value);
      WrittenAllocated(s, base, clusters, ClusterMap(clusters, l).value);
    }
  }

  lemma StepAllocates(s: Slice, st: State, e: Event)
    requires Allocated(s, st.configs) && Admitted(s, st.clusters) && Enabled(s, st, e)
    ensures Allocated(s, Apply(s, st, e).configs) && Admitted(s, Apply(s, st, e).clusters)
  {
    match e
    case Update(_) =>
    case Pass(l, _) => PassAllocates(s, st.configs, st.clusters, l);
    case Hold(c) =>
      assert OctetMap(Apply(s, st, e).configs) == OctetMap(st.configs);
    case Finish(c) =>
      assert OctetMap(Apply(s, st, e).configs) == OctetMap(st.configs) - {c};
    case Turn(_) =>
  }

  function After(s: Slice, st: State, es: seq<Event>): State {
    if es == [] then st else Apply(s, After(s, st, es[..|es| - 1]), es[|es| - 1])
  }

  ghost predicate IsRun(s: Slice, st: State, es: seq<Event>) {
    es == [] || (IsRun(s, st, es[..|es| - 1]) && Enabled(s, After(s, st, es[..|es| - 1]), es[|es| - 1]))
  }

  lemma RunAppend(s: Slice, st: State, es: seq<Event>, e: Event)
    requires IsRun(s, st, es) && Enabled(s, After(s, st, es), e)
    ensures IsRun(s, st, es + [e]) && After(s, st, es + [e]) == Apply(s, After(s, st, es), e)
  {
    assert (es + [e])[..|es|] == es;
  }

  lemma {:induction false} RunConcat(s: Slice, st: State, es: seq<Event>, fs: seq<Event>)
    requires IsRun(s, st, es) && IsRun(s, After(s, st, es), fs)
    ensures IsRun(s, st, es + fs) && After(s, st, es + fs) == After(s, After(s, st, es), fs)
  {
    if fs == [] {
      assert es + fs == es;
    } else {
      RunConcat(s, st, es, fs[..|fs| - 1]);
      assert (es + fs)[..|es + fs| - 1] == es + fs[..|fs| - 1];
    }
  }

  lemma RunOne(s: Slice, st: State, e: Event)
    requires Enabled(s, st, e)
    ensures IsRun(s, st, [e]) && After(s, st, [e]) == Apply(s, st, e)
  {
    assert [e][..0] == [];
    assert After(s, st, []) == st;
  }

  lemma RunPrepend(s: Slice, st: State, e: Event, es: seq<Event>)
    requires Enabled(s, st, e) && IsRun(s, Apply(s, st, e), es)
    ensures IsRun(s, st, [e] + es) && After(s, st, [e] + es) == After(s, Apply(s, st, e), es)
  {
    RunOne(s, st, e);
    RunConcat(s, st, [e], es);
  }

  predicate OnlyTurns(ts: seq<Event>) {
    forall i :: 0 <= i < |ts| ==> ts[i].Turn?
  }

  /** A slice just created with this cluster list. */
  function Created(clusters: seq<string>): State {
    State(clusters, map[], map[], {}, {}, map[])
  }

  /** Over every run, whatever the interleaving, all configs stay allocated. */
  lemma {:induction false} RunAllocates(s: Slice, clusters: seq<string>, es: seq<Event>)
    requires Admitted(s, clusters) && IsRun(s, Created(clusters), es)
    ensures Allocated(s, After(s, Created(clusters), es).configs)
    ensures Admitted(s, After(s, Created(clusters), es).clusters)
  {
    if es != [] {
      RunAllocates(s, clusters, es[..|es| - 1]);
      StepAllocates(s, After(s, Created(clusters), es[..|es| - 1]), es[|es| - 1]);
    }
  }

  /** A pass panics exactly when leaving configs that linger hold too many low indexes; never if none lingers. */
  lemma PassPanics(s: Slice, st: State, l: seq<Listed>, registered: set<string>)
    requires Allocated(s, st.configs) && Admitted(s, st.clusters) && Enabled(s, st, Pass(l, registered))
    ensures var o := OctetMap(CleanUp(st.configs, st.clusters));
      !Completes(st.clusters, l) <==> |LeavingBelow(st.clusters, o)| > |StayingAbove(st.clusters, o)|
    ensures (forall c :: c in st.configs && c !in st.clusters ==> !st.configs[c].held) ==> Completes(st.clusters, l)
  {
    var base := CleanUp(st.configs, st.clusters);
    CleanUpAllocated(s, st.configs, st.clusters);
    PassComputes(s, base, st.clusters, l);
    EnumeratedOctets(l, base);
    StaysInsideFreeList(st.clusters, l);
    if forall c :: c in st.configs && c !in st.clusters ==> !st.configs[c].held {
      assert LeavingBelow(st.clusters, OctetMap(base)) == {};
    }
  }

  // ----- What a pass does to one config -----

  /** A pass leaves the config of a listed cluster exactly as it is. That of another cluster stays exactly while held, and is
      terminating from then on. A missing one is created exactly if the pass completes, live, with the block of its index. */
  lemma ConfigFate(s: Slice, st: State, l: seq<Listed>, registered: set<string>, c: string)
    requires s.PoolsDerived() && Allocated(s, st.configs) && Admitted(s, st.clusters)
    requires Enabled(s, st, Pass(l, registered))
    ensures var configs, configs' := st.configs, Apply(s, st, Pass(l, registered)).configs;
      && (c !in st.clusters ==>
          && (c in configs' <==> c in configs && configs[c].held)
          && (c in configs' ==> configs'[c] == configs[c].(terminating := true)))
      && (c in st.clusters && c in configs ==> c in configs' && configs'[c] == configs[c])
      && (c in st.clusters && c !in configs ==>
          && (c in configs' <==> Completes(st.clusters, l))
          && (c in configs' ==>
              && configs'[c].octet.Some? && PoolText(s.subnet, configs'[c].octet.value, s.CidrText()) == Some(configs'[c].cidr)
              && !configs'[c].held && !configs'[c].terminating))
  {
    var base := CleanUp(st.configs, st.clusters);
    CleanUpAllocated(s, st.configs, st.clusters);
    PassComputes(s, base, st.clusters, l);
    if Completes(st.clusters, l) && c in st.clusters {
      var v := ClusterMap(st.clusters, l).value[c];
      assert PoolText(s.subnet, v, s.CidrText()) == Some(s.pool(v));
    }
  }

  /** The listed clusters are those with a config, all with an octet. */
  lemma ListedConfigs(s: Slice, base: Configs, l: seq<Listed>)
    requires Allocated(s, base) && Enumerates(l, base)
    ensures forall c :: HasOctet(l, c) <==> c in base
  {
    forall c ensures HasOctet(l, c) <==> c in base {
      if c in base { assert Listed(c, base[c].octet) in l && base[c].octet.Some?; }
    }
  }

  /** The index v is held after a pass, by a config that was there before or by that of a cluster named before place j. */
  ghost predicate HeldBefore(st: State, configs': Configs, j: nat, v: int)
    requires j <= |st.clusters|
  {
    exists d :: d in configs' && configs'[d].octet == Some(v) && (d in st.configs || d in st.clusters[..j])
  }

  /** New configs get their indexes in the order of the cluster list, each the least that is not held. */
  lemma NewOctets(s: Slice, st: State, l: seq<Listed>, registered: set<string>, j: nat)
    requires Allocated(s, st.configs) && Admitted(s, st.clusters)
    requires Enabled(s, st, Pass(l, registered)) && Completes(st.clusters, l)
    requires j < |st.clusters| && st.clusters[j] !in st.configs
    ensures var configs' := Apply(s, st, Pass(l, registered)).configs;
      && (forall c :: c in st.clusters ==> c in configs' && configs'[c].octet.Some?)
      && var v := configs'[st.clusters[j]].octet.value;
      && (forall i :: 0 <= i < j && st.clusters[i] !in st.configs ==> configs'[st.clusters[i]].octet.value < v)
      && forall u :: 0 <= u < v ==> HeldBefore(st, configs', j, u)
  {
    var configs' := Apply(s, st, Pass(l, registered)).configs;
    PassOctetMap(s, st, l, registered);
    DealtInOrder(st.clusters, l, j);
    var cm := ClusterMap(st.clusters, l).value;
    forall u | 0 <= u < cm[st.clusters[j]] ensures HeldBefore(st, configs', j, u) {
      HeldOf(s, st, configs', cm, l, j, u);
    }
  }

  lemma PassOctetMap(s: Slice, st: State, l: seq<Listed>, registered: set<string>)
    requires Allocated(s, st.configs) && Admitted(s, st.clusters)
    requires Enabled(s, st, Pass(l, registered)) && Completes(st.clusters, l)
    ensures var configs', cm := Apply(s, st, Pass(l, registered)).configs, ClusterMap(st.clusters, l).value;
      && (forall c :: c in CleanUp(st.configs, st.clusters) || c in st.clusters ==>
           c in configs' && c in cm && configs'[c].octet == Some(cm[c]))
    ensures forall c :: HasOctet(l, c) <==> c in CleanUp(st.configs, st.clusters)
    ensures forall c :: c in CleanUp(st.configs, st.clusters) ==>
      Some(ClusterMap(st.clusters, l).value[c]) == CleanUp(st.configs, st.clusters)[c].octet
  {
    var base := CleanUp(st.configs, st.clusters);
    CleanUpAllocated(s, st.configs, st.clusters);
    PassComputes(s, base, st.clusters, l);
    ListedConfigs(s, base, l);
  }

  lemma HeldOf(s: Slice, st: State, configs': Configs, cm: map<string, int>, l: seq<Listed>, j: nat, u: int)
    requires j < |st.clusters| && Enumerates(l, CleanUp(st.configs, st.clusters))
    requires forall c :: c in CleanUp(st.configs, st.clusters) || c in st.clusters ==>
      c in configs' && c in cm && configs'[c].octet == Some(cm[c])
    requires forall c :: c in CleanUp(st.configs, st.clusters) ==> Some(cm[c]) == CleanUp(st.configs, st.clusters)[c].octet
    requires IsTaken(l, u) || exists i :: 0 <= i < j && !HasOctet(l, st.clusters[i]) && cm[st.clusters[i]] == u
    ensures HeldBefore(st, configs', j, u)
  {
    if IsTaken(l, u) {
      var d: string :| Listed(d, Some(u)) in l;
      assert configs'[d].octet == Some(u);
    } else {
      var i :| 0 <= i < j && !HasOctet(l, st.clusters[i]) && cm[st.clusters[i]] == u;
      assert st.clusters[i] in st.clusters[..j] && configs'[st.clusters[i]].octet == Some(u);
    }
  }

  // ----- Lingering configs -----

  /** The configs of clusters that are not listed. */
  function Absent(st: State): set<string> {
    set c | c in st.configs && c !in st.clusters
  }

  /** After any pass of any run, completed or not, every config of a cluster that left is terminating, so it can finish. */
  lemma AbsentTerminate(s: Slice, clusters: seq<string>, es: seq<Event>, l: seq<Listed>, registered: set<string>)
    requires s.PoolsDerived() && Admitted(s, clusters) && IsRun(s, Created(clusters), es)
    requires Enabled(s, After(s, Created(clusters), es), Pass(l, registered))
    ensures var st' := Apply(s, After(s, Created(clusters), es), Pass(l, registered));
      forall c :: c in Absent(st') ==> st'.configs[c].terminating && Enabled(s, st', Finish(c))
  {
    RunAllocates(s, clusters, es);
    var st := After(s, Created(clusters), es);
    var st' := Apply(s, st, Pass(l, registered));
    forall c | c in Absent(st') ensures st'.configs[c].terminating { ConfigFate(s, st, l, registered, c); }
  }

  predicate OnlyFinishes(fs: seq<Event>) {
    forall i :: 0 <= i < |fs| ==> fs[i].Finish?
  }

  /** They can all finish, and then only configs of listed clusters are left, untouched. */
  lemma {:induction false} AllFinish(s: Slice, st: State) returns (fs: seq<Event>)
    requires forall c :: c in Absent(st) ==> st.configs[c].terminating
    ensures OnlyFinishes(fs) && IsRun(s, st, fs) && After(s, st, fs) == st.(configs := st.configs - Absent(st))
    decreases |Absent(st)|
  {
    if Absent(st) == {} {
      fs := [];
      assert st.configs - Absent(st) == st.configs;
    } else {
      var c :| c in Absent(st);
      OneFinishes(s, st, c);
      var gs := AllFinish(s, Apply(s, st, Finish(c)));
      RunPrepend(s, st, Finish(c), gs);
      fs := [Finish(c)] + gs;
      assert fs[0].Finish? && forall i :: 0 < i < |fs| ==> fs[i] == gs[i - 1];
    }
  }

  lemma OneFinishes(s: Slice, st: State, c: string)
    requires c in Absent(st) && st.configs[c].terminating
    ensures Enabled(s, st, Finish(c))
    ensures var st' := Apply(s, st, Finish(c));
      && Absent(st') == Absent(st) - {c} && (forall d :: d in Absent(st') ==> st'.configs[d] == st.configs[d])
      && st'.(configs := st'.configs - Absent(st')) == st.(configs := st.configs - Absent(st))
  {
    var st' := Apply(s, st, Finish(c));
    assert Absent(st') == Absent(st) - {c};
    assert st.configs - Absent(st) == st'.configs - Absent(st');
  }

  /** So a pass may panic, but once the configs it left terminating have finished no pass does. */
  lemma PanicPasses(s: Slice, clusters: seq<string>, es: seq<Event>, l: seq<Listed>, registered: set<string>)
      returns (fs: seq<Event>)
    requires s.PoolsDerived() && Admitted(s, clusters) && IsRun(s, Created(clusters), es)
    requires Enabled(s, After(s, Created(clusters), es), Pass(l, registered))
    ensures OnlyFinishes(fs) && IsRun(s, Created(clusters), es + [Pass(l, registered)] + fs)
    ensures var st := After(s, Created(clusters), es + [Pass(l, registered)] + fs);
      && Absent(st) == {} && st.clusters == After(s, Created(clusters), es).clusters
      && forall l', r :: Enabled(s, st, Pass(l', r)) ==> Completes(st.clusters, l')
  {
    var start := Created(clusters);
    AbsentTerminate(s, clusters, es, l, registered);
    RunAppend(s, start, es, Pass(l, registered));
    fs := AllFinish(s, After(s, start, es + [Pass(l, registered)]));
    RunConcat(s, start, es + [Pass(l, registered)], fs);
    var st := After(s, start, es + [Pass(l, registered)] + fs);
    RunAllocates(s, clusters, es + [Pass(l, registered)] + fs);
    assert Absent(st) == {};
    forall l', r | Enabled(s, st, Pass(l', r)) ensures Completes(st.clusters, l') {
      assert forall c :: c in st.configs && c !in st.clusters ==> c in Absent(st);
      PassPanics(s, st, l', r);
    }
  }

  lemma TextNamesBlock(subnet: string, cidr: string, text: string, i: nat, p: nat)
    requires SubnetAdmitted(subnet) && ':' !in subnet && 17 <= p <= 24 && i < Blocks(p)
    requires cidr == "/" + Itoa(p) && PoolText(subnet, i, cidr) == Some(text)
    ensures ParseCidr(text) == Some(Pool(subnet, i, p))
  {
    PoolParses(subnet, i, p);
  }

  /** There is a valid slice for every admitted subnet in four dotted parts and every admitted maximum. */
  lemma ValidSliceExists(name: string, namespace: string, subnet: string, maxClusters: int) returns (s: Slice)
    requires SubnetAdmitted(subnet) && ':' !in subnet && 2 <= maxClusters <= 32
    ensures s.Valid() && s.name == name && s.namespace == namespace && s.subnet == subnet && s.maxClusters == maxClusters
  {
    PrefixIsLeast(maxClusters);
    SubnetAddressNames(subnet, 0, 0, 0);
    var p := FindPrefix(maxClusters);
    var cidr := "/" + Itoa(p);
    forall i: int ensures PoolText(subnet, i, cidr).Some? { AlwaysText(subnet, i, p); }
    s := Slice(name, namespace, subnet, maxClusters, OwnerLabels("SliceConfig-" + name),
               i => var t := PoolText(subnet, i, cidr); if t.Some? then t.value else "",
               SubnetAddress(subnet, VPN_OCTET, 1), SubnetAddress(subnet, VPN_OCTET, 2));
    assert s.CidrText() == cidr;
  }

  lemma AlwaysText(subnet: string, i: int, p: nat)
    requires |Split(subnet, '.')| == 4 && 17 <= p <= 24
    ensures PoolText(subnet, i, "/" + Itoa(p)).Some?
  {
    PrefixTextRoundTrip(p);
    OctetStep(p);
  }

  /** The block text of an index of the slice. */
  lemma IndexBlock(s: Slice, i: nat, p: nat)
    requires SubnetAdmitted(s.subnet) && ':' !in s.subnet && s.PoolsDerived() && 2 <= s.maxClusters <= 32
    requires i < s.maxClusters && p == s.Prefix()
    ensures 17 <= p <= 24 && i < Blocks(p) && ParseCidr(s.pool(i)) == Some(Pool(s.subnet, i, p))
    ensures s.maxClusters < Blocks(p) ==> i < Blocks(p) - 1
  {
    PrefixIsLeast(s.maxClusters);
    assert PoolText(s.subnet, i, s.CidrText()) == Some(s.pool(i));
    TextNamesBlock(s.subnet, s.CidrText(), s.pool(i), i, p);
  }

  /** What holds of the block n of index i beside another block m of the slice, and a CNI subnet. */
  ghost predicate BlockSound(subnet: string, maxClusters: int, p: nat, i: nat, n: Net, m: Net, same: bool, cni: string)
    requires ParseCidr(subnet).Some? && 16 <= p && n.prefix <= 32 && m.prefix <= 32
  {
    && (forall x :: InRange(n, x) ==> InRange(ParseCidr(subnet).value, x))
    && (!same ==> !Meet(n, m))
    && (ParseIpNet(cni).Some? && !OverlapIP(cni, subnet) ==> !Share(Four(n), ParseIpNet(cni).value))
    && (Meet(n, VpnNet(subnet)) <==> i == Blocks(p) - 1)
    && (maxClusters < Blocks(p) ==> !Meet(n, VpnNet(subnet)))
  }

  lemma BlockPair(subnet: string, maxClusters: int, i: nat, j: nat, p: nat, cni: string)
    requires SubnetAdmitted(subnet) && ':' !in subnet && 17 <= p <= 24 && i < Blocks(p) && j < Blocks(p)
    requires maxClusters < Blocks(p) ==> i < Blocks(p) - 1
    ensures BlockSound(subnet, maxClusters, p, i, Pool(subnet, i, p), Pool(subnet, j, p), i == j, cni)
  {
    PoolsInsideAndDisjoint(subnet, i, j, p);
    VpnMeetsLastPool(subnet, i, p);
    if ParseIpNet(cni).Some? && !OverlapIP(cni, subnet) { PoolAvoidsCni(subnet, i, p, cni); }
  }

  /** The blocks of two configs parse and are sound. */
  ghost predicate BlocksSound(s: Slice, configs: Configs, c: string, d: string, cni: string)
    requires c in configs && d in configs
  {
    var n, m, i := ParseCidr(configs[c].cidr), ParseCidr(configs[d].cidr), configs[c].octet;
    && n.Some? && m.Some? && i.Some? && i.value >= 0 && ParseCidr(s.subnet).Some? && 17 <= s.Prefix() <= 24
    && BlockSound(s.subnet, s.maxClusters, s.Prefix(), i.value, n.value, m.value, c == d, cni)
  }

  lemma AllocatedBlocks(s: Slice, configs: Configs, c: string, d: string, cni: string)
    requires SubnetAdmitted(s.subnet) && ':' !in s.subnet && s.PoolsDerived() && 2 <= s.maxClusters <= 32
    requires Allocated(s, configs) && c in configs && d in configs
    ensures BlocksSound(s, configs, c, d, cni)
  {
    var i, j, p := configs[c].octet.value, configs[d].octet.value, s.Prefix();
    assert i == j <==> c == d by { assert OctetMap(configs)[c] == i && OctetMap(configs)[d] == j; }
    IndexBlock(s, i, p);
    IndexBlock(s, j, p);
    BlockPair(s.subnet, s.maxClusters, i, j, p, cni);
  }

  /** Over every run of an admitted overlay slice, the blocks written to configs parse, lie inside the /16, share no
      address with each other or with a CNI subnet cleared at admission, and meet the VPN network exactly at the last
      index, so never while maxClusters is below the number of blocks. */
  lemma RunBlocks(s: Slice, clusters: seq<string>, es: seq<Event>, c: string, d: string, cni: string)
    requires s.Valid() && ':' !in s.subnet && Admitted(s, clusters) && IsRun(s, Created(clusters), es)
    requires c in After(s, Created(clusters), es).configs && d in After(s, Created(clusters), es).configs
    ensures BlocksSound(s, After(s, Created(clusters), es).configs, c, d, cni)
  {
    RunAllocates(s, clusters, es);
    AllocatedBlocks(s, After(s, Created(clusters), es).configs, c, d, cni);
  }
}
