/** The objects derived from one slice, and the reconcile pass that writes them. */
module SliceStore {
  import opened Text
  import opened Sequences
  import opened Cidr
  import opened Pools
  import opened Ipam
  import opened OwnerLabel
  import opened GatewayNumber

  // ----- Data -----

  /** What a slice fixes at admission; pool(i), serverVpn and clientVpn name texts derived from the subnet. */
  datatype Slice = Slice(
    name: string, namespace: string, subnet: string, maxClusters: int,
    owner: Labels, pool: int -> string, serverVpn: string, clientVpn: string)
  {
    function Prefix(): int { FindPrefix(maxClusters) }

    function CidrText(): string { "/" + Itoa(Prefix()) }

    ghost predicate PoolsDerived() {
      forall i: int {:trigger PoolText(subnet, i, CidrText())} :: PoolText(subnet, i, CidrText()) == Some(pool(i))
    }

    /** The slice passed the webhook, and the derived texts are the ones the code computes. */
    ghost predicate Valid() {
      && SubnetAdmitted(subnet) && 2 <= maxClusters <= 32
      && owner == OwnerLabels("SliceConfig-" + name)
      && PoolsDerived()
      && |Split(subnet, '.')| >= 2
      && serverVpn == SubnetAddress(subnet, VPN_OCTET, 1)
      && clientVpn == SubnetAddress(subnet, VPN_OCTET, 2)
    }
  }

  /** A worker slice config; held means a finalizer keeps it after deletion. */
  datatype Config = Config(octet: Option<int>, cidr: string, held: bool, terminating: bool)

  /** Configs by cluster: the object name is the slice name, a hyphen and the cluster. */
  type Configs = map<string, Config>

  datatype Role = Server | Client

  datatype End = End(cluster: string, subnet: string, vpn: string)

  datatype Gateway = Gateway(role: Role, number: int, local: End, remote: End, labels: Labels)

  /** A gateway by source and destination, see GatewayNamesClash for when that is the object name. */
  type GatewayKey = (string, string)

  /** The other gateway of the pair. */
  function Rev(k: GatewayKey): GatewayKey {
    (k.1, k.0)
  }

  type Gateways = map<GatewayKey, Gateway>

  /** The gateways that exist, those under a finalizer, and those with a deletion timestamp. */
  datatype Store = Store(gws: Gateways, held: set<GatewayKey>, dying: set<GatewayKey>) {
    /** Only what a finalizer holds outlives its deletion. */
    predicate Marked() { dying <= held <= gws.Keys }
  }

  function OctetMap(configs: Configs): map<string, int> {
    map c | c in configs && configs[c].octet.Some? :: configs[c].octet.value
  }

  /** A list call may return the objects in any order, each once. */
  ghost predicate Enumerates(l: seq<Listed>, configs: Configs) {
    && OnePerCluster(l)
    && forall x :: x in l <==> x.cluster in configs && configs[x.cluster].octet == x.octet
  }

  lemma EnumeratedOctets(l: seq<Listed>, configs: Configs)
    requires Enumerates(l, configs)
    ensures Octets(l) == OctetMap(configs)
  {
    OctetsAreListed(l);
    ListedAreOctets(l);
    forall c | c in OctetMap(configs) ensures c in Octets(l) && Octets(l)[c] == OctetMap(configs)[c] {
      assert Listed(c, configs[c].octet) in l;
    }
  }

  /** Every store can be listed. */
  lemma {:induction false} SomeEnumeration(configs: Configs) returns (l: seq<Listed>)
    ensures Enumerates(l, configs)
    decreases |configs|
  {
    if configs == map[] {
      l := [];
    } else {
      var c :| c in configs;
      var rest := SomeEnumeration(configs - {c});
      l := rest + [Listed(c, configs[c].octet)];
    }
  }

  // ----- Worker slice configs -----

  /** After deletion of every config whose cluster left: gone, or terminating while held. */
  function CleanUp(configs: Configs, clusters: seq<string>): Configs {
    map c | c in configs && (c in clusters || configs[c].held) ::
      if c in clusters then configs[c] else configs[c].(terminating := true)
  }

  /** After every cluster's config was created, or updated with its octet and block. */
  function Written(s: Slice, configs: Configs, clusters: seq<string>, cm: map<string, int>): Configs
    requires Names(clusters) <= cm.Keys
  {
    map c | c in configs.Keys + Names(clusters) ::
      if c !in clusters then configs[c]
      else if c in configs then configs[c].(octet := Some(cm[c]), cidr := s.pool(cm[c]))
      else Config(Some(cm[c]), s.pool(cm[c]), false, false)
  }

  /** One cluster's config created or updated. */
  function Touched(s: Slice, configs: Configs, c: string, octet: int): Configs {
    configs[c := if c in configs then configs[c].(octet := Some(octet), cidr := s.pool(octet))
                 else Config(Some(octet), s.pool(octet), false, false)]
  }

  lemma WrittenStep(s: Slice, base: Configs, front: seq<string>, c: string, cm: map<string, int>)
    requires Names(front) <= cm.Keys && c in cm && c !in front
    ensures Names(front + [c]) <= cm.Keys
    ensures Written(s, base, front + [c], cm) == Touched(s, Written(s, base, front, cm), c, cm[c])
    ensures c in Written(s, base, front, cm) <==> c in base
    ensures LastCreated(base, front + [c]) == if c in base then LastCreated(base, front) else Some(c)
  {
  }

  /** One turn of the create loop, for the configs and for the label map. */
  lemma WriteLoopStep(s: Slice, base: Configs, clusters: seq<string>, i: nat, cm: map<string, int>)
    requires NoDup(clusters) && Names(clusters) <= cm.Keys && i < |clusters|
    ensures Names(clusters[..i]) <= cm.Keys && Names(clusters[..i + 1]) <= cm.Keys && clusters[i] in cm
    ensures var c, was := clusters[i], Written(s, base, clusters[..i], cm);
      && Written(s, base, clusters[..i + 1], cm) == Touched(s, was, c, cm[c])
      && Selector(s, LastCreated(base, clusters[..i + 1])) ==
         if c in was then Selector(s, LastCreated(base, clusters[..i]))
         else ConfigTags(s, Selector(s, LastCreated(base, clusters[..i])), c)
  {
    var c, front := clusters[i], clusters[..i];
    assert clusters[..i + 1] == front + [c];
    assert c !in front && c in Names(clusters);
    forall x | x in Names(front) ensures x in cm { assert x in Names(clusters); }
    SelectorGrows(s, LastCreated(base, front), c);
    WrittenStep(s, base, front, c, cm);
  }

  lemma CleanUpKeepsOctets(configs: Configs, clusters: seq<string>)
    ensures var o, o' := OctetMap(configs), OctetMap(CleanUp(configs, clusters));
      && (forall c :: c in o' ==> c in o && o'[c] == o[c])
      && (Injective(o) ==> Injective(o'))
  {
  }

  /** The last cluster whose config had to be created. */
  function LastCreated(configs: Configs, clusters: seq<string>): Option<string> {
    if clusters == [] then None
    else
      var c := clusters[|clusters| - 1];
      if c !in configs then Some(c) else LastCreated(configs, clusters[..|clusters| - 1])
  }

  /** c is listed and has no config; every cluster behind it has one. */
  predicate LastMissing(configs: Configs, clusters: seq<string>, c: string) {
    exists i :: 0 <= i < |clusters| && clusters[i] == c && c !in configs && Names(clusters[i + 1..]) <= configs.Keys
  }

  lemma {:induction false} LastCreatedFacts(configs: Configs, clusters: seq<string>)
    ensures var r := LastCreated(configs, clusters);
      && (r.None? <==> Names(clusters) <= configs.Keys)
      && (forall c :: r == Some(c) <==> LastMissing(configs, clusters, c))
  {
    if clusters != [] {
      var front, c := clusters[..|clusters| - 1], clusters[|clusters| - 1];
      LastCreatedFacts(configs, front);
      assert clusters == front + [c];
      if c in configs {
        forall d ensures LastMissing(configs, clusters, d) <==> LastMissing(configs, front, d) {
          LastMissingFront(configs, front, c, d);
        }
      } else {
        assert clusters[|front| + 1..] == [];
        assert LastMissing(configs, clusters, c);
        forall d | LastMissing(configs, clusters, d) ensures d == c { OnlyLastMissing(configs, front, c, d); }
      }
    }
  }

  lemma OnlyLastMissing(configs: Configs, front: seq<string>, c: string, d: string)
    requires c !in configs && LastMissing(configs, front + [c], d)
    ensures d == c
  {
    var s := front + [c];
    var i :| 0 <= i < |s| && s[i] == d && d !in configs && Names(s[i + 1..]) <= configs.Keys;
    LastBehind(front, c, i);
  }

  lemma LastBehind(front: seq<string>, c: string, i: nat)
    ensures i < |front| ==> c in Names((front + [c])[i + 1..])
  {
    if i < |front| { assert (front + [c])[i + 1..][|front| - i - 1] == c; }
  }

  lemma LastMissingFront(configs: Configs, front: seq<string>, c: string, d: string)
    requires c in configs
    ensures LastMissing(configs, front + [c], d) <==> LastMissing(configs, front, d)
  {
    var s := front + [c];
    forall i | 0 <= i < |front| ensures Names(s[i + 1..]) == Names(front[i + 1..]) + {c} && s[i] == front[i] {
      assert s[i + 1..] == front[i + 1..] + [c];
    }
  }

  // ----- Labels -----

  const MANAGER := "kubeslice-manager"
  const PROJECT := "project-namespace"
  const ORIGINAL := "original-slice-name"
  const WORKER := "worker-cluster"
  const REMOTE := "remote-cluster"

  /** The four keys written when a config is created. */
  function ConfigTags(s: Slice, tags: Labels, c: string): Labels {
    tags[PROJECT := s.namespace][ORIGINAL := s.name][WORKER := c][MANAGER := "controller"]
  }

  /** The label map after the config step: the owner labels, and four more once a config was created. */
  function Selector(s: Slice, created: Option<string>): Labels {
    if created.None? then s.owner else ConfigTags(s, s.owner, created.value)
  }

  function GatewayLabels(s: Slice, source: string, destination: string): Labels {
    ConfigTags(s, s.owner, source)[REMOTE := destination]
  }

  predicate OwnerClear(owner: Labels) {
    PROJECT !in owner && ORIGINAL !in owner && WORKER !in owner && MANAGER !in owner && REMOTE !in owner
  }

  lemma KeyShape(i: nat)
    ensures |LabelKey(i)| > 10 && LabelKey(i)[0] == 'k' && LabelKey(i)[10] == 'c'
  {
  }

  /** The labels of a gateway by key. */
  lemma GatewayLabelsByKey(s: Slice, source: string, destination: string)
    requires OwnerClear(s.owner)
    ensures var t := GatewayLabels(s, source, destination);
      && t.Keys == s.owner.Keys + {"project-namespace", "original-slice-name", "worker-cluster", "remote-cluster", "kubeslice-manager"}
      && t["project-namespace"] == s.namespace && t["original-slice-name"] == s.name
      && t["worker-cluster"] == source && t["remote-cluster"] == destination && t["kubeslice-manager"] == "controller"
      && forall k :: k in s.owner ==> t[k] == s.owner[k]
  {
    KeysApart();
  }

  lemma NotAnOwnerKey(name: string, k: string)
    requires |k| > 10 && (k[0] != 'k' || k[10] == 'm')
    ensures k !in OwnerLabels(name)
  {
    LabelsAreChunks(name, Chunks(name));
    assert LABEL_RESOURCE_OWNER[0] == 'k' && LABEL_RESOURCE_OWNER[10] == 'r';
    forall i: nat ensures k != LabelKey(i) { KeyShape(i); }
  }

  /** Owner labels never use the keys written for configs and gateways. */
  lemma OwnerLabelsClear(name: string)
    ensures OwnerClear(OwnerLabels(name))
  {
    assert PROJECT[0] == 'p' && ORIGINAL[0] == 'o' && WORKER[0] == 'w' && REMOTE[0] == 'r' && MANAGER[10] == 'm';
    NotAnOwnerKey(name, PROJECT);
    NotAnOwnerKey(name, ORIGINAL);
    NotAnOwnerKey(name, WORKER);
    NotAnOwnerKey(name, MANAGER);
    NotAnOwnerKey(name, REMOTE);
  }

  lemma ValidOwner(s: Slice)
    requires s.Valid()
    ensures OwnerClear(s.owner) && s.maxClusters >= 2
  {
    OwnerLabelsClear("SliceConfig-" + s.name);
  }

  /** Once a config was created, the list of gateways is narrowed to those of the last created cluster. */
  lemma NarrowedList(s: Slice, created: Option<string>, source: string, destination: string)
    requires OwnerClear(s.owner)
    ensures Selects(Selector(s, created), GatewayLabels(s, source, destination)) <==>
            created.None? || created.value == source
  {
    var sel, labels := Selector(s, created), GatewayLabels(s, source, destination);
    KeysApart();
    if created.Some? { assert WORKER in sel && sel[WORKER] == created.value && labels[WORKER] == source; }
  }

  lemma SelectorGrows(s: Slice, created: Option<string>, c: string)
    ensures ConfigTags(s, Selector(s, created), c) == Selector(s, Some(c))
  {
  }

  lemma KeysApart()
    ensures PROJECT != ORIGINAL && PROJECT != WORKER && PROJECT != MANAGER && PROJECT != REMOTE
    ensures ORIGINAL != WORKER && ORIGINAL != MANAGER && ORIGINAL != REMOTE
    ensures WORKER != MANAGER && WORKER != REMOTE && MANAGER != REMOTE
  {
  }

  // ----- Gateways -----

  function IndexOf(cm: map<string, int>, c: string): int {
    if c in cm then cm[c] else 0
  }

  /** buildMinimumGateway with the addresses of BuildNetworkAddresses. */
  function Make(s: Slice, source: string, destination: string, role: Role, cm: map<string, int>): Gateway {
    MakeAt(s, source, destination, role, IndexOf(cm, source), IndexOf(cm, destination))
  }

  /** The gateway built when source and destination hold the indexes x and y. */
  function MakeAt(s: Slice, source: string, destination: string, role: Role, x: int, y: int): Gateway {
    Gateway(role, Number(x, y),
            End(source, s.pool(x), if role == Server then s.serverVpn else s.clientVpn),
            End(destination, s.pool(y), if role == Server then s.clientVpn else s.serverVpn),
            GatewayLabels(s, source, destination))
  }

  /** A gateway has the subnets and VPN addresses that are built for its pair, its own end first: the server's as the
      source, the client's as the destination. */
  lemma GatewayFields(s: Slice, source: string, destination: string, role: Role, x: int, y: int)
    requires s.Valid()
    ensures var g := MakeAt(s, source, destination, role, x, y);
      var n := if role == Server then BuildNetworkAddresses(s.subnet, x, y, s.CidrText())
               else BuildNetworkAddresses(s.subnet, y, x, s.CidrText());
      && n.Some? && g.role == role && g.number == Number(x, y)
      && var server, client := End(if role == Server then source else destination, n.value.serverSubnet, n.value.serverVpnAddress),
                               End(if role == Server then destination else source, n.value.clientSubnet, n.value.clientVpnAddress);
      if role == Server then g.local == server && g.remote == client else g.local == client && g.remote == server
  {
    assert PoolText(s.subnet, x, s.CidrText()) == Some(s.pool(x)) && PoolText(s.subnet, y, s.CidrText()) == Some(s.pool(y));
  }

  predicate Obsolete(g: Gateway, clusters: seq<string>, cm: map<string, int>) {
    || g.local.cluster !in clusters
    || g.remote.cluster !in clusters
    || Number(IndexOf(cm, g.local.cluster), IndexOf(cm, g.remote.cluster)) != g.number
  }

  /** What cleanupObsoleteGateways deletes under the selector it lists with. */
  function Doomed(gws: Gateways, clusters: seq<string>, cm: map<string, int>, selector: Labels): set<GatewayKey> {
    set k | k in gws && Selects(selector, gws[k].labels) && Obsolete(gws[k], clusters, cm)
  }

  /** What exists after it: a deleted gateway is gone, unless a finalizer holds it. */
  function Cleaned(gws: Gateways, clusters: seq<string>, cm: map<string, int>, selector: Labels,
                   held: set<GatewayKey>): Gateways
  {
    gws - (Doomed(gws, clusters, cm, selector) - held)
  }

  /** Deletion of one gateway. */
  function Delete(x: Store, k: GatewayKey): Store {
    if k !in x.gws then x
    else if k in x.held then x.(dying := x.dying + {k})
    else x.(gws := x.gws - {k})
  }

  /** Deletion of several. */
  function Swept(x: Store, dropped: set<GatewayKey>): Store {
    Store(x.gws - (dropped - x.held), x.held, x.dying + dropped * x.held)
  }

  /** One turn of the clean-up loop. */
  lemma SweptNext(x: Store, doomed: set<GatewayKey>, todo: set<GatewayKey>, k: GatewayKey)
    requires k in x.gws && k in todo
    ensures k in Swept(x, doomed - todo).gws && Swept(x, doomed - todo).gws[k] == x.gws[k]
    ensures Swept(x, doomed - (todo - {k})) ==
            if k in doomed then Delete(Swept(x, doomed - todo), k) else Swept(x, doomed - todo)
  {
    assert doomed - (todo - {k}) == if k in doomed then doomed - todo + {k} else doomed - todo;
  }

  lemma SweptEnds(x: Store, doomed: set<GatewayKey>)
    ensures Swept(x, doomed - {}) == Swept(x, doomed)
    ensures Swept(x, {}) == x
  {
  }

  /** ReconcileWorkerSliceGateways: a live gateway gets its finalizer. One being deleted loses it, is gone, and takes the
      other gateway of its pair with it while its source is listed. */
  function Turned(x: Store, clusters: seq<string>, k: GatewayKey): Store {
    if k !in x.gws then x
    else if k !in x.dying then x.(held := x.held + {k})
    else
      var y := Store(x.gws - {k}, x.held - {k}, x.dying - {k});
      if k.0 in clusters then Delete(y, Rev(k)) else y
  }

  /** A turn takes gateways away, at most the two of a pair, and changes none. */
  lemma TurnedFacts(x: Store, clusters: seq<string>, k: GatewayKey)
    requires x.Marked()
    ensures var y := Turned(x, clusters, k);
      && y.Marked() && y.gws.Keys <= x.gws.Keys && (forall j :: j in y.gws ==> y.gws[j] == x.gws[j])
      && x.gws.Keys - y.gws.Keys <= {k, Rev(k)}
  {
  }

  /** In its turn a live gateway comes under its finalizer and nothing else happens; a terminating one goes, and the other of
      its pair, if the source of the first is listed, goes too, or is terminating if a finalizer holds it; no other gateway
      is touched. */
  lemma TurnExactly(x: Store, clusters: seq<string>, k: GatewayKey)
    requires x.Marked()
    ensures var y := Turned(x, clusters, k);
      && (k in x.gws && k !in x.dying ==> y == Store(x.gws, x.held + {k}, x.dying))
      && (k in x.dying ==> k !in y.gws)
      && (k in x.dying && Rev(k) != k && Rev(k) in x.gws ==>
          if k.0 in clusters then (if Rev(k) in x.held then Rev(k) in y.dying else Rev(k) !in y.gws)
          else Rev(k) in y.gws && (Rev(k) in y.dying <==> Rev(k) in x.dying))
      && (forall j :: j in x.gws && j != k && (j != Rev(k) || k !in x.dying) ==>
          j in y.gws && (j in y.held <==> j in x.held) && (j in y.dying <==> j in x.dying))
  {
  }

  /** The complete name of slice x has 63 characters and begins that of slice y. */
  predicate Swallows(x: string, y: string) {
    |"SliceConfig-" + x| == MAX_LABEL && x < y
  }

  lemma PrefixKept(pre: string, x: string, y: string)
    ensures pre + x < pre + y <==> x < y
    ensures pre + x == pre + y <==> x == y
  {
    assert (pre + x)[|pre|..] == x && (pre + y)[|pre|..] == y;
    if x < y { assert pre + y == pre + x + y[|x|..]; }
    if pre + x < pre + y {
      assert (pre + y)[..|pre + x|] == pre + x;
      assert (pre + y)[|pre|..|pre + x|] == (pre + x)[|pre|..];
    }
  }

  /** A pass of slice s lists the configs of another slice t exactly when s swallows t, and its gateways exactly when it
      also created no config; of the gateways it then deletes the ones that are obsolete for s. */
  lemma OtherSliceTouched(s: Slice, t: Slice, created: Option<string>, c: string,
                          gws: Gateways, k: GatewayKey, x: int, y: int, clusters: seq<string>, cm: map<string, int>)
    requires s.owner == OwnerLabels("SliceConfig-" + s.name) && t.owner == OwnerLabels("SliceConfig-" + t.name)
    requires s.name != t.name && k in gws && gws[k] == MakeAt(t, k.0, k.1, gws[k].role, x, y)
    ensures Selects(s.owner, ConfigTags(t, t.owner, c)) <==> Swallows(s.name, t.name)
    ensures k in Doomed(gws, clusters, cm, Selector(s, created)) <==>
            created.None? && Swallows(s.name, t.name) && Obsolete(gws[k], clusters, cm)
  {
    SelectorIsExact("SliceConfig-" + s.name, "SliceConfig-" + t.name);
    PrefixKept("SliceConfig-", s.name, t.name);
    OwnerLabelsClear("SliceConfig-" + s.name);
    OwnerLabelsClear("SliceConfig-" + t.name);
    KeysApart();
    OwnerSelects(s.owner, t.owner, ConfigTags(t, t.owner, c));
    OwnerSelects(s.owner, t.owner, GatewayLabels(t, k.0, k.1));
    if created.Some? {
      assert Selector(s, created)[ORIGINAL] == s.name && GatewayLabels(t, k.0, k.1)[ORIGINAL] == t.name;
    }
  }

  /** Labels written beside owner labels do not matter to a selector of owner labels. */
  lemma OwnerSelects(selector: Labels, owner: Labels, labels: Labels)
    requires OwnerClear(selector) && Overwritten(owner, labels)
    ensures Selects(selector, labels) <==> Selects(selector, owner)
  {
    forall k | k in selector ensures k !in {PROJECT, ORIGINAL, WORKER, MANAGER, REMOTE} {}
  }

  datatype Outcome = Outcome(gws: Gateways, ok: bool)

  /** Builds the gateway from a source to a destination in a role. */
  type Builder = (string, string, Role) -> Gateway

  function BuilderOf(s: Slice, cm: map<string, int>): Builder {
    (source, destination, role) => Make(s, source, destination, role, cm)
  }

  /** createMinimumGateWayPairIfNotExists; Create fails on a name that exists. */
  function AddPair(g: Gateways, a: string, b: string, build: Builder): Outcome {
    if (a, b) in g && (b, a) in g then Outcome(g, true)
    else if (a, b) in g then Outcome(g, false)
    else
      var g' := g[(a, b) := build(a, b, Server)];
      if (b, a) in g' then Outcome(g', false) else Outcome(g'[(b, a) := build(b, a, Client)], true)
  }

  function AddRow(g: Gateways, a: string, bs: seq<string>, build: Builder): Outcome
    decreases bs
  {
    if bs == [] then Outcome(g, true)
    else
      var r := AddPair(g, a, bs[0], build);
      if r.ok then AddRow(r.gws, a, bs[1..], build) else r
  }

  function AddAll(g: Gateways, cs: seq<string>, build: Builder): Outcome
    decreases cs
  {
    if cs == [] then Outcome(g, true)
    else
      var r := AddRow(g, cs[0], cs[1..], build);
      if r.ok then AddAll(r.gws, cs[1..], build) else r
  }

  /** CreateMinimumWorkerSliceGateways; nothing is created while a cluster object is missing. */
  function GatewayPass(s: Slice, g: Gateways, clusters: seq<string>, cm: map<string, int>,
                       selector: Labels, held: set<GatewayKey>, registered: set<string>): Outcome
  {
    var g' := Cleaned(g, clusters, cm, selector, held);
    if |clusters| < 2 || !(Names(clusters) <= registered) then Outcome(g', true)
    else AddAll(g', clusters, BuilderOf(s, cm))
  }

  /** The swapped labels list exactly the other gateway of the pair. */
  lemma PairIsListed(s: Slice, gws: Gateways, selector: Labels, k: GatewayKey)
    requires OwnerClear(s.owner) && forall j :: j in gws ==> gws[j].labels == GatewayLabels(s, j.0, j.1)
    requires selector == s.owner[WORKER := k.1][REMOTE := k.0]
    ensures (set j | j in gws && Selects(selector, gws[j].labels)) == if Rev(k) in gws then {Rev(k)} else {}
  {
    KeysApart();
    forall j | j in gws ensures Selects(selector, gws[j].labels) <==> j == Rev(k) {
      var labels := GatewayLabels(s, j.0, j.1);
      assert labels[WORKER] == j.0 && labels[REMOTE] == j.1 && j == (j.0, j.1);
      assert WORKER in selector && REMOTE in selector;
    }
  }

  /** Some of the five keys overwritten. */
  predicate Overwritten(owner: Labels, tags: Labels) {
    && owner.Keys <= tags.Keys <= owner.Keys + {PROJECT, ORIGINAL, WORKER, MANAGER, REMOTE}
    && forall k :: k in owner && k !in {PROJECT, ORIGINAL, WORKER, MANAGER, REMOTE} ==> tags[k] == owner[k]
  }

  lemma FiveTags(s: Slice, tags: Labels, source: string, destination: string)
    requires Overwritten(s.owner, tags)
    ensures var t := tags[WORKER := source][REMOTE := destination][MANAGER := "controller"];
      t[PROJECT := s.namespace][ORIGINAL := s.name] == GatewayLabels(s, source, destination)
    ensures Overwritten(s.owner, GatewayLabels(s, source, destination))
  {
    KeysApart();
  }

  lemma SelectorOverwrites(s: Slice, created: Option<string>)
    ensures Overwritten(s.owner, Selector(s, created))
  {
  }

  // ----- The controller -----

  /** The store of one slice and the label map that the steps of a pass share. */
  class Controller {
    const slice: Slice
    var configs: Configs
    var gateways: Gateways
    /** The gateways with a finalizer, and those with a deletion timestamp. */
    var held: set<GatewayKey>
    var dying: set<GatewayKey>
    /** The names that have a Cluster object. */
    var registered: set<string>
    var tags: Labels

    constructor (slice: Slice, registered: set<string>)
      ensures this.slice == slice && configs == map[] && GatewayStore() == Store(map[], {}, {})
      ensures this.registered == registered && tags == slice.owner
    {
      this.slice := slice;
      configs, gateways, held, dying, tags := map[], map[], {}, {}, slice.owner;
      this.registered := registered;
    }

    function GatewayStore(): Store
      reads this`gateways, this`held, this`dying
    {
      Store(gateways, held, dying)
    }

    method ListWorkerSliceConfigs() returns (l: seq<Listed>)
      ensures Enumerates(l, configs)
    {
      l := [];
      var todo := configs.Keys;
      while todo != {}
        invariant todo <= configs.Keys && OnePerCluster(l)
        invariant forall x :: x in l <==> x.cluster in configs.Keys - todo && configs[x.cluster].octet == x.octet
        decreases |todo|
      {
        var c :| c in todo;
        l := l + [Listed(c, configs[c].octet)];
        todo := todo - {c};
      }
    }

    method DeleteConfig(c: string)
      requires c in configs
      modifies this`configs
      ensures old(configs)[c].held ==> configs == old(configs)[c := old(configs)[c].(terminating := true)]
      ensures !old(configs)[c].held ==> configs == old(configs) - {c}
    {
      configs := if configs[c].held then configs[c := configs[c].(terminating := true)] else configs - {c};
    }

    method CleanUpSlices(clusters: seq<string>)
      modifies this`configs
      ensures configs == CleanUp(old(configs), clusters)
      ensures forall c :: c in clusters ==> (c in configs <==> c in old(configs)) && (c in configs ==> configs[c] == old(configs)[c])
      ensures forall c :: c !in clusters ==>
        && (c in configs <==> c in old(configs) && old(configs)[c].held)
        && (c in configs ==> configs[c] == old(configs)[c].(terminating := true))
    {
      var l := ListWorkerSliceConfigs();
      ghost var was := configs;
      ghost var seen: set<string> := {};
      for i := 0 to |l|
        invariant seen == set x | x in l[..i] :: x.cluster
        invariant forall c :: c in configs <==> c in was && (c in seen && c !in clusters ==> was[c].held)
        invariant forall c :: c in configs ==>
          configs[c] == if c in seen && c !in clusters then was[c].(terminating := true) else was[c]
      {
        var c := l[i].cluster;
        assert l[i] in l;
        assert l[..i + 1] == l[..i] + [l[i]];
        assert c !in seen;
        if c !in clusters { DeleteConfig(c); }
        seen := seen + {c};
      }
      assert l[..|l|] == l;
      forall c | c in was ensures c in seen { assert Listed(c, was[c].octet) in l; }
      assert configs == CleanUp(was, clusters);
    }

    /** One turn of the create loop: a new config, with four label keys written, or an update in place. */
    method WriteConfig(c: string, octet: int)
      requires slice.PoolsDerived()
      modifies this`configs, this`tags
      ensures configs == Touched(slice, old(configs), c, octet)
      ensures tags == if c in old(configs) then old(tags) else ConfigTags(slice, old(tags), c)
    {
      var text := GetClusterPrefixPool(slice.subnet, octet, slice.CidrText());
      assert text == Some(slice.pool(octet));
      if c !in configs {
        tags := ConfigTags(slice, tags, c);
        configs := configs[c := Config(Some(octet), text.value, false, false)];
      } else {
        configs := configs[c := configs[c].(octet := Some(octet), cidr := text.value)];
      }
    }

    method WriteConfigs(clusters: seq<string>, cm: map<string, int>)
      requires slice.PoolsDerived() && NoDup(clusters) && Names(clusters) <= cm.Keys && tags == slice.owner
      modifies this`configs, this`tags
      ensures configs == Written(slice, old(configs), clusters, cm)
      ensures tags == Selector(slice, LastCreated(old(configs), clusters))
    {
      ghost var base := configs;
      assert configs == Written(slice, base, clusters[..0], cm);
      for i := 0 to |clusters|
        invariant Names(clusters[..i]) <= cm.Keys
        invariant configs == Written(slice, base, clusters[..i], cm)
        invariant tags == Selector(slice, LastCreated(base, clusters[..i]))
      {
        WriteLoopStep(slice, base, clusters, i, cm);
        WriteConfig(clusters[i], cm[clusters[i]]);
      }
      assert clusters[..|clusters|] == clusters;
    }

    /** CreateMinimalWorkerSliceConfig: None is the panic of ComputeClusterMap, with the clean-up already done. */
    method CreateMinimalWorkerSliceConfig(clusters: seq<string>)
        returns (cm: Option<map<string, int>>, ghost l: seq<Listed>)
      requires slice.PoolsDerived() && NoDup(clusters) && tags == slice.owner
      requires Injective(OctetMap(configs))
      modifies this`configs, this`tags
      ensures Enumerates(l, CleanUp(old(configs), clusters)) && cm == ClusterMap(clusters, l)
      ensures cm.None? ==> configs == CleanUp(old(configs), clusters)
      ensures cm.Some? ==> Names(clusters) <= cm.value.Keys
      ensures cm.Some? ==> configs == Written(slice, CleanUp(old(configs), clusters), clusters, cm.value)
      ensures cm.Some? ==> tags == Selector(slice, LastCreated(CleanUp(old(configs), clusters), clusters))
    {
      CleanUpSlices(clusters);
      var listed := ListWorkerSliceConfigs();
      l := listed;
      cm := ComputeClusterMap(clusters, listed);
      if cm.Some? {
        EnumeratedOctets(l, configs);
        CleanUpKeepsOctets(old(configs), clusters);
        ClusterMapFacts(clusters, l);
        WriteConfigs(clusters, cm.value);
      }
    }

    /** The objects that a selector lists. */
    function ListGateways(selector: Labels): set<GatewayKey>
      reads this`gateways
    {
      set j | j in gateways && Selects(selector, gateways[j].labels)
    }

    method DeleteGateway(k: GatewayKey)
      modifies this`gateways, this`dying
      ensures GatewayStore() == Delete(old(GatewayStore()), k)
    {
      if k in gateways {
        if k in held { dying := dying + {k}; } else { gateways := gateways - {k}; }
      }
    }

    method CleanupObsoleteGateways(clusters: seq<string>, cm: map<string, int>)
      modifies this`gateways, this`dying
      ensures gateways == Cleaned(old(gateways), clusters, cm, tags, held)
      ensures dying == old(dying) + Doomed(old(gateways), clusters, cm, tags) * held
    {
      ghost var x := GatewayStore();
      ghost var doomed := Doomed(gateways, clusters, cm, tags);
      var todo := ListGateways(tags);
      assert doomed - todo == {};
      SweptEnds(x, doomed);
      while todo != {}
        invariant todo <= x.gws.Keys && forall k :: k in todo ==> Selects(tags, x.gws[k].labels)
        invariant GatewayStore() == Swept(x, doomed - todo)
        decreases |todo|
      {
        var k :| k in todo;
        SweptNext(x, doomed, todo, k);
        assert k in doomed <==> Obsolete(gateways[k], clusters, cm);
        if Obsolete(gateways[k], clusters, cm) { DeleteGateway(k); }
        todo := todo - {k};
      }
    }

    /** Every gateway has the labels it was created with. */
    ghost predicate Labelled()
      reads this`gateways
    {
      forall j :: j in gateways ==> gateways[j].labels == GatewayLabels(slice, j.0, j.1)
    }

    /** ReconcileWorkerSliceGateways for a slice that is not being deleted: finalizers, and the search for the pair by
        swapped labels. */
    method ReconcileWorkerSliceGateway(clusters: seq<string>, k: GatewayKey)
      requires Labelled() && OwnerClear(slice.owner)
      modifies this`gateways, this`held, this`dying
      ensures GatewayStore() == Turned(old(GatewayStore()), clusters, k)
    {
      if k !in gateways { return; }
      if k !in dying {
        held := held + {k};
        return;
      }
      var labels := gateways[k].labels;
      KeysApart();
      gateways, held, dying := gateways - {k}, held - {k}, dying - {k};
      if labels[WORKER] in clusters {
        var pairLabels := slice.owner[WORKER := labels[REMOTE]][REMOTE := labels[WORKER]];
        var pair := ListGateways(pairLabels);
        PairIsListed(slice, gateways, pairLabels, k);
        if pair != {} {
          var j :| j in pair;
          DeleteGateway(j);
        }
      }
    }

    method CreateGateway(key: GatewayKey, g: Gateway) returns (ok: bool)
      modifies this`gateways
      ensures ok == (key !in old(gateways))
      ensures gateways == if ok then old(gateways)[key := g] else old(gateways)
    {
      ok := key !in gateways;
      if ok { gateways := gateways[key := g]; }
    }

    /** buildMinimumGateway: writes five keys of the shared label map and labels the object with it. */
    method BuildMinimumGateway(source: string, destination: string, role: Role, cm: map<string, int>)
        returns (g: Gateway)
      requires LabelsShared()
      modifies this`tags
      ensures LabelsShared() && g == Make(slice, source, destination, role, cm)
    {
      FiveTags(slice, tags, source, destination);
      tags := tags[WORKER := source][REMOTE := destination][MANAGER := "controller"];
      tags := tags[PROJECT := slice.namespace][ORIGINAL := slice.name];
      var x, y := IndexOf(cm, source), IndexOf(cm, destination);
      var ours := if role == Server then slice.serverVpn else slice.clientVpn;
      var theirs := if role == Server then slice.clientVpn else slice.serverVpn;
      g := Gateway(role, Number(x, y), End(source, slice.pool(x), ours), End(destination, slice.pool(y), theirs), tags);
    }

    /** The shared map always is the owner labels with some of the five keys overwritten. */
    ghost predicate LabelsShared()
      reads this`tags
    {
      Overwritten(slice.owner, tags)
    }

    method CreatePairIfNotExists(a: string, b: string, cm: map<string, int>) returns (ok: bool)
      requires LabelsShared()
      modifies this`gateways, this`tags
      ensures LabelsShared()
      ensures Outcome(gateways, ok) == AddPair(old(gateways), a, b, BuilderOf(slice, cm))
    {
      if (a, b) in gateways && (b, a) in gateways { return true; }
      var server := BuildMinimumGateway(a, b, Server, cm);
      ok := CreateGateway((a, b), server);
      if !ok { return; }
      var client := BuildMinimumGateway(b, a, Client, cm);
      ok := CreateGateway((b, a), client);
    }

    /** The inner loop: one cluster against the ones after it. */
    method CreateRow(a: string, bs: seq<string>, cm: map<string, int>) returns (ok: bool)
      requires LabelsShared()
      modifies this`gateways, this`tags
      ensures LabelsShared()
      ensures Outcome(gateways, ok) == AddRow(old(gateways), a, bs, BuilderOf(slice, cm))
    {
      ghost var row := AddRow(gateways, a, bs, BuilderOf(slice, cm));
      assert bs[0..] == bs;
      for j := 0 to |bs|
        invariant LabelsShared()
        invariant AddRow(gateways, a, bs[j..], BuilderOf(slice, cm)) == row
      {
        assert bs[j..][0] == bs[j] && bs[j..][1..] == bs[j + 1..];
        ok := CreatePairIfNotExists(a, bs[j], cm);
        if !ok { return; }
      }
      ok := true;
    }

    method CreateMinimumGatewaysIfNotExists(clusters: seq<string>, cm: map<string, int>) returns (ok: bool)
      requires LabelsShared()
      modifies this`gateways, this`tags
      ensures LabelsShared()
      ensures Outcome(gateways, ok) ==
              if Names(clusters) <= registered then AddAll(old(gateways), clusters, BuilderOf(slice, cm)) else Outcome(old(gateways), true)
    {
      for i := 0 to |clusters|
        invariant Names(clusters[..i]) <= registered
        invariant gateways == old(gateways) && LabelsShared()
      {
        assert clusters[i] in Names(clusters);
        if clusters[i] !in registered { return true; }
      }
      assert clusters[..|clusters|] == clusters;
      ghost var goal := AddAll(gateways, clusters, BuilderOf(slice, cm));
      assert clusters[0..] == clusters;
      for i := 0 to |clusters|
        invariant LabelsShared()
        invariant AddAll(gateways, clusters[i..], BuilderOf(slice, cm)) == goal
      {
        assert clusters[i..][0] == clusters[i] && clusters[i..][1..] == clusters[i + 1..];
        ok := CreateRow(clusters[i], clusters[i + 1..], cm);
        if !ok { return; }
      }
      ok := true;
    }

    /** Steps 4 and 5 of ReconcileSliceConfig. */
    method Reconcile(clusters: seq<string>) returns (cm: Option<map<string, int>>, ok: bool, ghost l: seq<Listed>)
      requires slice.PoolsDerived() && NoDup(clusters) && Injective(OctetMap(configs)) && GatewayStore().Marked()
      modifies this`configs, this`gateways, this`dying, this`tags
      ensures Enumerates(l, CleanUp(old(configs), clusters)) && cm == ClusterMap(clusters, l)
      ensures cm.None? ==> configs == CleanUp(old(configs), clusters) && GatewayStore() == old(GatewayStore())
      ensures cm.Some? ==>
        var base := CleanUp(old(configs), clusters);
        var selector := Selector(slice, LastCreated(base, clusters));
        && Names(clusters) <= cm.value.Keys
        && configs == Written(slice, base, clusters, cm.value)
        && Outcome(gateways, ok) == GatewayPass(slice, old(gateways), clusters, cm.value, selector, held, registered)
        && dying == old(dying) + Doomed(old(gateways), clusters, cm.value, selector) * held
    {
      tags := slice.owner;
      ok := false;
      cm, l := CreateMinimalWorkerSliceConfig(clusters);
      if cm.Some? {
        SelectorOverwrites(slice, LastCreated(CleanUp(old(configs), clusters), clusters));
        CleanupObsoleteGateways(clusters, cm.value);
        ok := true;
        if |clusters| >= 2 {
          ok := CreateMinimumGatewaysIfNotExists(clusters, cm.value);
        }
      }
    }
  }
}
