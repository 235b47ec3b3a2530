# KubeSlice controller: slice networking, verified

A Dafny 4.11 model of the parts of the KubeSlice controller that hand out addresses, connect clusters, rotate VPN keys
and keep track of namespaces and deletions, with proofs about whole runs of these parts.

- `Text`, `Sequences`, `Powers`, `IpText`, `Cidr`, `Pools`: from a cluster's index to the text of its address block, and
  back to a set of addresses. Parsing follows section 3.1 of RFC 4632 and section 2.2 of RFC 4291; the private ranges are
  those of section 3 of RFC 1918. `MappedSubnet` treats slice subnets in IPv4-mapped notation.
- `Ipam`: `ComputeClusterMap`, which keeps octets and deals free ones.
- `GatewayNumber`, `OwnerLabel`: the numbering of cluster pairs and the owner labels used as selectors.
- `SliceStore`: the worker slice configs and gateways of one slice, the reconcile pass that writes them and the
  reconciler of single gateways, as a class with the label map that the steps of a pass share.
- `SliceRun`, `AnyRun`: what holds at every moment of every run, for configs and for single gateways.
- `ControllerSteps`: the class does what the runs say.
- `Mesh`, `Mending`: the create loops on any store.
- `PairStates`, `Reconnect`, `Convergence`, `PassOutcomes`: passes and the gateways' own reconciler together, first on one
  pair of gateways, then over runs: which states they connect, in some order and in every order, and how soon they rest.
- `MeshRun`: runs in which the list changes only from a settled mesh.
- `PlainRuns`, `StaleGateway`, `Wedge`: concrete runs from the creation of a slice that go wrong.
- `GoSlices`, `AppNamespaces`, `DefaultSlice`: namespace lists, edited in place over shared arrays while being ranged
  over.
- `VpnRotation`, `Mirror`, `Deregistration`: three protocols as state machines over their steps.
- `ExternalGateway`: an admission rule and the choice that it makes unambiguous.

Verify with `dafny verify dfyconfig.toml`.

## How to read the runs

A run is a sequence of events, each enabled in the state before it. Every for-all-runs lemma quantifies over all such
sequences. What the API server answers (list order, which updates succeed, which clusters are registered, the time) is
part of the event, so it is quantified over too.

`SliceRun` allows list updates, passes, finalizers being added, deletions completing and turns of the gateways' own
reconciler in any order. It starts from a slice created in an overlay mode, so that the webhook bounds the cluster count
by `MaxClusters` and freezes subnet and `MaxClusters`. Every moment of every such run is `Consistent`
(`AnyRun.RunConsistent`); lemmas that take `Consistent` as hypothesis therefore speak of all of them. `Underway` says
besides which octets passes will compute, and holds of every such moment at which no config of a cluster that left is
held (`Reconnect.SomeMap`).

"Steps" are passes that see every cluster registered, and turns; "at rest" means that no step changes anything any more.
A pair is wedged when none of its gateways is being deleted or obsolete, and yet it is neither right nor will be made so.

`MeshRun` restricts one event: the cluster list changes only while the mesh is settled. There two passes always mesh the
slice; in general passes and turns do under the conditions of `Convergence`.

Modelling decisions:

- Gateways are keyed by (source, destination). Their objects are named `slice-source-destination`;
  `Mesh.GatewayNamesClash` and `Mesh.NamesByWords` say exactly when two keys, of one slice or of two, share a name, and
  the mesh results are for slices without such names.
- A deleted worker slice config or gateway is gone at once, or terminating while a finalizer holds it. A gateway gets its
  finalizer in its first turn. In the turn of a terminating one it goes, and the other gateway of its pair is deleted if
  its source is listed (service/worker_slice_gateway_service.go:96-180). The pass that this asks for is one of the passes
  that runs allow at any time.
- A pass lists the objects of its own slice only. It also lists another slice's exactly when "SliceConfig-" and the name
  have 63 characters and begin the other one's (`SliceStore.OtherSliceTouched`); runs are of slices without such names.
- Octets are 0-based, as in the code (service/worker_slice_config_service.go:616), although the comment at line 601 says
  1 to n.
- A panic (index out of range, nil time) is a `None` or a `Crashed` outcome.
- The texts that look-up maps use as keys, `namespace=…&cluster=…`, are modelled as pairs: names have no `=` or `&`.
- Times are integer hours in `VpnRotation` and integer seconds in `Deregistration`.

## Findings

Properties that do not hold of the code, each with a witness and its exact condition:

- `ComputeClusterMap` runs out of free indexes while a leaving cluster's config lingers
  (`Ipam.SwapWhileLingeringPanics`; exactly when: `Ipam.StaysInsideFreeList`, over runs `SliceRun.PassPanics`).
- A pass that creates a config lists gateways with a narrowed selector: it deletes obsolete ones of the last created
  cluster only (`AnyRun.CreatingPassRemoves`), so one pass may leave a mesh that is not exact (exactly when:
  `PassOutcomes.OnePassConnects`).
- If a cluster returns before the mesh has settled, that pass can delete one half of a pair, keep the stale other half and
  create the first half again. If the stale half has no finalizer yet, the next pass takes it away at once and the first
  half stays alone for good (`PassOutcomes.StaleHalfWedges`, as a run `Wedge.WedgedAfterReturn`). If it has one, the pair
  is repaired (`PassOutcomes.StaleHalfHeals`). A pair stays half for good exactly when: `Convergence.HalfForGood`. Passes
  and turns connect a slice in some order, or in every order, exactly when: `Convergence.RunConnects`.
- The owner labels of a slice whose complete name has 63 characters select the objects of slices with longer names that
  begin with it (`OwnerLabel.SelectorIsExact`), and its passes then delete those that do not suit its own list
  (`SliceStore.OtherSliceTouched`).
- A gateway can keep blocks that its clusters no longer hold (`StaleGateway.SwappedForGood`,
  `StaleGateway.StaleGatewayStays`). After a pass it does exactly when it was built from other octets and either was not
  listed or has a number that does not tell the two pairs of octets apart (`AnyRun.StaleInRun`), which is when the two
  were swapped or are {0,m} and {m-2,m-1} (`GatewayNumber.MissedChange`).
- The VPN network meets the block of the last index (`Pools.VpnMeetsLastPool`), so a slice with as many clusters as
  blocks hands that block out (`SliceRun.RunBlocks`).
- The webhook admits slice subnets in IPv4-mapped notation, such as `::ffff:10.1.0.0/16`. Then all cluster blocks
  coincide and every IPv4 CNI subnet is cleared (`MappedSubnet.MappedBlocksShare`). An admitted subnet is the /16 it
  should be exactly when its text has no colon (`Pools.AdmittedShape`).
- A certificate request names a cluster's block by its first address and the mask 255.255.255.0, which is the whole block
  for prefix 24 only (`Pools.CertNetworkIsBlock`); no admitted slice of up to 32 clusters has it (`Pools.CertMissesPart`).
- Sweeping clusters out of a list while ranging over it skips some (exactly when: `GoSlices.SweptIsFilter`; exactly which:
  `GoSlices.SweptExactly`). Repeated passes catch up, unless an entry is selected with all its clusters and has 2, 5 to 6,
  11 to 14, or generally 3*2^k-1 to 4*2^k-2 of them (`AppNamespaces.RepeatedPassesSeparate`, `AppNamespaces.StallsExactly`).
- The rotation flag is shared: a slice can rotate on another slice's jobs (`VpnRotation.BorrowedFromStart`; exactly when:
  `VpnRotation.BorrowsExactly`).
- A listed namespace that is reported unassigned is removed and added back by turns (`DefaultSlice.UnassignedFlaps`;
  passes settle exactly when: `DefaultSlice.SettlesExactly`).
- A cluster that is deregistered while it has no namespace in the default slice stays on that slice's cluster list, and one
  that joins without an unassigned namespace does not come on it (exactly when a pass stores the list:
  `DefaultSlice.DeregisterClusterFromDefaultSlice`, `DefaultSlice.DefaultSliceOperations`).
- A restart during the ten minutes of grace loses the wake-up (`Deregistration.RestartMayLoseTimeout`).

## Model

| member | source | states |
|---|---|---|
| Powers.IntPow | util/common.go:164-174 | binary powering returns a to the power b for every b >= 0, and 1 for a negative b |
| Cidr.FindCIDRByMaxClusters | util/common.go:150-161 | the loop returns the text of the prefix, and the empty text up to one cluster |
| Cidr.PrefixIsLeast | util/common.go:150-161 | from two clusters on the prefix is in 17..24, it is the least p with 2^(p-16) >= max exactly when max is at most 256, and 24 above that |
| Cidr.SubnetOctetDiffIsRight | util/common.go:176-187 | the answer is the octet the prefix ends in and the block size in units of that octet exactly for prefixes 17 to 32 |
| Cidr.GetClusterPrefixPool | util/common.go:189-202 | the octet-editing loop yields the specified text, and panics exactly when the control octet or the subnet has no such part |
| Cidr.PanicsExactly | util/common.go:176-202 | the text is missing, by an index panic, exactly for prefixes outside 9 to 32 and for subnets with fewer than four dotted parts |
| Cidr.PoolSpelled | util/common.go:189-202 | the text is x.y.T.0/p with T = index * 2^(24-p), all in plain decimal |
| Cidr.ThirdOctetBound | util/common.go:189-202 | the third octet is at most 255 exactly for indexes below 2^(p-16) |
| Pools.OverlapIsIntersection | util/common.go:104-112 | on any two parseable CIDRs, IPv4 or IPv6, OverlapIP is true exactly when some address is in both, 4-byte and 16-byte addresses being different |
| Pools.AdmittedShape | service/slice_config_webhook_validation.go:260-274 | an admitted slice subnet parses to the /16 at a.b.0.0 and splits into four dotted parts exactly when its text has no colon, although its prefix is checked by the last two characters only; with a colon it is no IPv4 CIDR at all |
| Pools.AdmittedExactly | service/slice_config_webhook_validation.go:260-274 | without a colon exactly the /16 blocks are admitted whose address ends in two zero octets and lies in one of the three private ranges |
| MappedSubnet.MappedBlocksShare | service/slice_config_webhook_validation.go:260-274 | every private a.b.0.0 is admitted as ::ffff:a.b.0.0/16; any two cluster blocks of such a subnet share addresses, and every IPv4 CNI subnet is cleared against it |
| Pools.PoolParses | util/common.go:189-202 | on an admitted subnet without a colon the block text parses back exactly when the index is below 2^(p-16), and then to base + index * 2^(32-p) with prefix p |
| Pools.PoolsInsideAndDisjoint | util/common.go:189-202 | every block lies inside the slice's /16, and blocks of different indexes share no address |
| Pools.PoolAvoidsCni | service/slice_config_webhook_validation.go:317-329 | no block meets a CNI subnet, IPv4 or IPv6, that admission cleared against the slice subnet |
| Pools.SubnetAddressNames | service/worker_slice_gateway_service.go:578-592 | the address texts x.y.c.d/p built from the slice subnet parse to that address in the /16 |
| Pools.BuiltAddresses | service/worker_slice_gateway_service.go:578-592 | for any two indexes that fit, the seven texts name the blocks of server and client, the first addresses of these, the network x.y.255.0/24, and the first two addresses in it, server first |
| Pools.CertNetworkIsBlock | service/worker_slice_gateway_service.go:722-746 | the network a certificate request names, a first address with mask 255.255.255.0, lies in the cluster's block, and is all of it exactly for prefix 24 |
| Pools.CertMissesPart | service/worker_slice_gateway_service.go:722-746 | for every admitted slice of 2 to 32 clusters it is only part of the block |
| Pools.VpnMeetsLastPool | service/worker_slice_gateway_service.go:578-592 | the VPN network, which `BuiltAddresses` ties to the texts built, meets a block exactly when its index is the last one |
| Ipam.ComputeClusterMap | service/worker_slice_config_service.go:602-631 | the three loops compute the specified map for any names and any list, or panic exactly when the specification says so |
| Ipam.StaysInsideFreeList | service/worker_slice_config_service.go:602-631 | no panic exactly when the leaving clusters with an octet below n are at most as many as the staying ones with an octet outside 0..n-1 |
| Ipam.ClusterMapFacts | service/worker_slice_config_service.go:602-631 | existing octets are kept, every name has one, all differ, and new ones are below n |
| Ipam.DealtInOrder | service/worker_slice_config_service.go:602-631 | of two names without a listed octet the earlier one gets the smaller index, and below the index of such a name every number is a listed octet or went to an earlier such name |
| Ipam.OrderDoesNotMatter | service/worker_slice_config_service.go:602-631 | the result does not depend on the order in which configs are listed |
| Ipam.SwapWhileLingeringPanics | service/worker_slice_config_service.go:618-628 | replacing the holder of octet 1 of two while its config lingers panics |
| GatewayNumber.Collisions | service/worker_slice_gateway_service.go:749-755 | over all naturals two different pairs get one number exactly when they are {0,m} and {m-2,m-1} |
| GatewayNumber.OneToOne | service/worker_slice_gateway_service.go:749-755 | on pairs of positive numbers the number determines the pair |
| GatewayNumber.Within | service/worker_slice_gateway_service.go:749-755 | pairs from 1..n are numbered inside 1..n(n-1)/2 |
| GatewayNumber.Onto | service/worker_slice_gateway_service.go:749-755 | every number in 1..n(n-1)/2 belongs to a pair from 1..n |
| GatewayNumber.MissedChange | service/worker_slice_gateway_service.go:749-755 | the number of (x,y) and of a different (u,v) is the same exactly when they are swapped or are {0,m} and {m-2,m-1} |
| GatewayNumber.MissedChangeOfOne | service/worker_slice_gateway_service.go:749-755 | with one member fixed that leaves {0,1} and {0,2} only |
| OwnerLabel.GetOwnerLabel | util/reconciliation_utility.go:223-250 | the loop produces the fixed label and the chunks of the name under their keys, for every length |
| OwnerLabel.ChunksSpell | util/reconciliation_utility.go:223-250 | the chunks in index order concatenate back to the name |
| OwnerLabel.LabelsAreChunks | util/reconciliation_utility.go:223-250 | the labels hold the fixed one and exactly the chunk keys, each with its chunk |
| OwnerLabel.LabelsByText | util/reconciliation_utility.go:223-250 | in texts: label number i, the first without a number, is there exactly if a longer name reaches 63*i characters, and holds the characters from there on, 63 at most |
| OwnerLabel.SelectorIsExact | util/reconciliation_utility.go:223-250 | the labels of s select those of t exactly when s = t, or s has 63 characters and is a proper prefix of t |
| SliceStore.OwnerLabelsClear | service/worker_slice_config_service.go:339-342 | the keys written for configs and gateways are never owner label keys, whatever the slice name |
| SliceStore.NarrowedList | service/slice_config_service.go:201-207 | once a config was created, the shared label map selects exactly the gateways whose source is the last created cluster |
| SliceStore.LastCreatedFacts | service/worker_slice_config_service.go:338-342 | the cluster that the label map ends up with is the last one in the list without a config; none exactly if every cluster has one |
| SliceStore.GatewayLabelsByKey | service/worker_slice_gateway_service.go:598-602 | a gateway's labels are the owner labels and five more, each key with its value |
| SliceStore.GatewayFields | service/worker_slice_gateway_service.go:478-647 | a server gateway has its own end from the server's side of the built addresses and the other end from the client's, a client gateway the other way round, for the same pair of indexes |
| SliceStore.OtherSliceTouched | service/worker_slice_gateway_service.go:383-432 | a pass lists another slice's configs exactly when its own complete name has 63 characters and begins the other one's, and its gateways, to delete those obsolete for its own list, exactly when it also created no config |
| SliceStore.Controller.CleanUpSlices | service/worker_slice_config_service.go:634-684 | a config of a listed cluster is untouched; one of another cluster exists afterwards exactly if it was held, and is then terminating with everything else unchanged |
| SliceStore.Controller.CreateMinimalWorkerSliceConfig | service/worker_slice_config_service.go:291-427 | after the clean-up every cluster's config has the computed octet and its block, the label map has the four keys of the last created one, and a panic leaves the cleaned store |
| SliceStore.Controller.CleanupObsoleteGateways | service/worker_slice_gateway_service.go:380-436 | exactly the selected gateways that lost a cluster or whose number changed are deleted: gone, or terminating while held |
| SliceStore.Controller.ReconcileWorkerSliceGateway | service/worker_slice_gateway_service.go:96-180 | a live gateway gets its finalizer; a terminating one goes, and the gateway found under the swapped labels, which is the other one of its pair, is deleted if the source is listed |
| SliceStore.TurnExactly | service/worker_slice_gateway_service.go:96-180 | what a turn leaves of the gateway, of the other one of its pair, source listed or not, and of all others |
| SliceStore.Controller.BuildMinimumGateway | service/worker_slice_gateway_service.go:595-647 | the gateway has number, blocks, VPN addresses by role, and labels that are independent of what the shared map held before |
| SliceStore.Controller.CreatePairIfNotExists | service/worker_slice_gateway_service.go:478-575 | a whole pair is left alone, terminating gateways counting as there, an absent one created, half a pair is an error |
| SliceStore.Controller.CreateMinimumGatewaysIfNotExists | service/worker_slice_gateway_service.go:439-475 | every cluster is paired with those after it, up to the first error; nothing is created while a cluster object is missing |
| SliceStore.Controller.Reconcile | service/slice_config_service.go:193-210 | configs and gateways after steps 4 and 5, and what a panic leaves |
| Mesh.AddAllExtends | service/worker_slice_gateway_service.go:439-575 | from a pair-closed store the create loops never fail, keep what was there, add exactly all ordered pairs, and stay pair-closed |
| Mesh.EarlierServes | service/worker_slice_gateway_service.go:459-471 | of a new pair the cluster named earlier in the list is the server |
| Mesh.PairsCount | service/worker_slice_gateway_service.go:459-471 | n clusters have n(n-1) ordered pairs |
| Mesh.ExactMeshFacts | service/worker_slice_gateway_service.go:349-575 | in an exact mesh there are n(n-1) gateways; each pair has one server and one client, with swapped ends and one number |
| Mesh.GatewayNamesClash | service/worker_slice_gateway_service.go:482-483 | two gateways of one slice share an object name exactly when one is the other with a hyphen of a cluster name taken for the separator |
| Mesh.NamesByWords | service/worker_slice_gateway_service.go:482-483 | two gateways of any slices share an object name exactly when the hyphen-separated words of slice, source and destination in a row are the same |
| Mesh.SlicesClash | service/worker_slice_gateway_service.go:482-483 | a hyphen can move between slice and source: s with a-b, and s-a with b |
| Mending.AddAllSucceeds | service/worker_slice_gateway_service.go:439-575 | from any store the create loops succeed exactly when no pair of present clusters is half there |
| Mending.AddListEffect | service/worker_slice_gateway_service.go:439-575 | on any store the loops stop at the first half pair, and before it change a pair only by adding a new server, with a new client or beside what was there |
| Mending.AddListStops | service/worker_slice_gateway_service.go:439-575 | the loops leave the pairs behind a half pair alone |
| Mending.OrderIsLexicographic | service/worker_slice_gateway_service.go:459-471 | the loops visit the pair of clusters i and j before that of u and v exactly if i < u, or i = u and j < v, each pair one way round only |
| Mending.AddListMendable | service/worker_slice_gateway_service.go:478-575 | creation neither mends a store that is not mendable nor breaks one that is |
| Mending.SucceedsExactly | service/worker_slice_gateway_service.go:439-575 | the loops succeed and leave the exact mesh exactly when the pairs they found were whole, opposite in role and built from present octets |
| SliceRun.PassAllocates | service/worker_slice_config_service.go:305-427 | a pass, panicking or not, keeps octets distinct, below MaxClusters and matched by the blocks, and writes the computed map |
| SliceRun.RunAllocates | service/worker_slice_config_service.go:305-427 | over every run in any interleaving each config, terminating ones included, has its own octet below MaxClusters and the block of that octet |
| SliceRun.PassPanics | service/worker_slice_config_service.go:314-327 | in a run a pass panics exactly when lingering configs hold more low octets than staying ones left free; never if none is held |
| SliceRun.ConfigFate | service/worker_slice_config_service.go:305-427 | a pass leaves the config of a listed cluster exactly as it is; that of another stays exactly while held and is terminating; a missing one is created exactly if the pass completes, live, with the block of its octet |
| SliceRun.NewOctets | service/worker_slice_config_service.go:305-427 | new configs get octets in list order, and below each such octet every number is held by a config from before or by an earlier new one |
| SliceRun.AbsentTerminate | service/worker_slice_config_service.go:634-684 | after any pass of any run, completed or not, every config of a cluster that left is terminating, so its deletion can complete |
| SliceRun.PanicPasses | service/worker_slice_config_service.go:314-327 | after any pass of any run, the deletions it left pending can all complete, and then the next pass does not panic, whatever list it sees |
| SliceRun.RunBlocks | service/slice_config_webhook_validation.go:634-656 | over every run of a slice whose subnet has no colon the blocks written parse, lie inside the /16, are pairwise disjoint, avoid every cleared CNI subnet, and meet the VPN network exactly at the last index, never while MaxClusters is below the number of blocks |
| SliceRun.ValidSliceExists | service/slice_config_webhook_validation.go:634-643 | there is a valid slice for every admitted subnet without a colon and every maximum from 2 to 32 |
| AnyRun.RunConsistent | service/worker_slice_gateway_service.go:439-647 | over every run, whenever the list changes, each gateway was built from two different octets below MaxClusters |
| AnyRun.RunAddresses | service/worker_slice_gateway_service.go:478-647 | over every run the subnets of a gateway parse to the blocks of two different octets, its number is theirs, and its VPN addresses are the first two of the VPN network, the server's first |
| AnyRun.GatewayFate | service/worker_slice_gateway_service.go:380-575 | at any moment of any run a pass keeps a surviving gateway as it is, role included, terminating from then on exactly if it was or is deleted; one that does not survive is gone, or rebuilt from present octets without a finalizer |
| AnyRun.CreatingPassRemoves | service/slice_config_service.go:201-207 | if c is the last listed cluster without a config, the pass deletes exactly the gateways of c that lost the other cluster or changed their number |
| AnyRun.BlocksRightExactly | service/worker_slice_gateway_service.go:595-647 | a gateway has the blocks of its clusters' configs exactly when it was built from the octets they hold |
| AnyRun.StaleExactly | service/worker_slice_gateway_service.go:380-432 | after a pass a gateway between present clusters is live with wrong blocks exactly when it was live before, built from other octets, and was not listed or its number missed the change |
| AnyRun.StaleInRun | service/worker_slice_gateway_service.go:380-432 | the same for every gateway at every moment of every run |
| AnyRun.RotationExactly | service/vpn_key_rotation_service.go:341-361 | at any moment of any run key rotation recomputes the subnets a gateway was created with exactly when it was built from the octets computed now, a cluster without one counting as octet 0 |
| AnyRun.PassSucceeds | service/worker_slice_gateway_service.go:349-575 | the gateway step of any pass succeeds exactly when a cluster is not registered, or of every two present clusters both gateways exist after the clean-up, terminating ones included, or neither does |
| ControllerSteps.ReconcileIsPass | service/slice_config_service.go:193-210 | a reconcile of the controller on a store of any run is one enabled pass of the runs |
| ControllerSteps.GatewayReconcileIsTurn | service/worker_slice_gateway_service.go:96-180 | and a reconcile of one of its gateways is a turn |
| PairStates.PassView | service/worker_slice_gateway_service.go:349-575 | what a pass does to the two gateways of a pair: obsolete ones go or terminate, and creation changes the pair only where the forward gateway is missing |
| PairStates.TurnView | service/worker_slice_gateway_service.go:96-180 | what a turn does to them: a finalizer for a live one; a terminating one goes, and while its source is listed the other one goes or terminates |
| PairStates.PassRank | service/worker_slice_gateway_service.go:349-575 | every pass that changes what is seen of a pair lowers its rank, whatever it listed and however far it got |
| PairStates.TurnRank | service/worker_slice_gateway_service.go:96-180 | so does every turn of either gateway |
| Reconnect.WedgedForGood | service/worker_slice_gateway_service.go:96-575 | whatever passes and turns follow, a wedged pair stays wedged and the slice is not connected |
| Reconnect.FewChanges | service/worker_slice_gateway_service.go:96-575 | of any run of passes and turns at most 20 n(n-1) steps change a gateway, where n counts the clusters listed or named by a gateway |
| Reconnect.StillConnected | service/worker_slice_gateway_service.go:96-575 | at rest the slice is connected exactly when no pair is wedged |
| Convergence.GuardedConnects | service/worker_slice_gateway_service.go:96-575 | from any moment where every obsolete gateway has its finalizer and no pair is wedged: whatever the order of passes and turns no pair ever is, and at rest the slice is connected |
| Convergence.ConnectsExactly | service/worker_slice_gateway_service.go:96-575 | some passes and turns connect the slice exactly when no pair is wedged |
| Convergence.MustConnectExactly | service/worker_slice_gateway_service.go:96-575 | with the configs in place, passes and turns leave the slice connected whenever they come to rest, in whatever order, exactly when the next clean-up leaves no pair wedged |
| Convergence.RunConnects | service/slice_config_service.go:193-210 | both at every moment of every run from the creation of an admitted slice, deletions of configs completing |
| Convergence.HalfForGood | service/worker_slice_gateway_service.go:485-516 | with the configs in place a pair stays half for good exactly when its one gateway is live and fit and is the forward one, or lies behind a pair stuck like that |
| Convergence.NothingBehind | service/worker_slice_gateway_service.go:459-471 | behind a pair stuck with its forward gateway no gateway is ever created |
| PassOutcomes.OnePassConnects | service/worker_slice_gateway_service.go:349-575 | any pass succeeds and leaves the exact mesh exactly when the gateways its clean-up keeps are of present clusters, in whole pairs, opposite in role and built from the computed octets |
| PassOutcomes.QuietPassConnects | service/worker_slice_gateway_service.go:349-575 | with the configs in place a pass succeeds and connects the slice exactly when its clean-up leaves nothing terminating, and whole pairs of present clusters, opposite in role and built from present octets |
| PassOutcomes.LastPassConnectsExactly | service/slice_config_service.go:193-210 | the same for the last pass after a first one and any further steps, from any moment of any run, deletions of configs completing |
| PassOutcomes.StaleHalfHeals | service/worker_slice_gateway_service.go:96-180 | a pair with its forward gateway beside an obsolete other one that has its finalizer: after a pass, the turns of the two and a pass it is whole and right, if no other pair is half |
| PassOutcomes.StaleHalfWedges | service/worker_slice_gateway_service.go:380-575 | if it has none, the next pass takes it away at once, leaves the forward one alone and creates nothing behind it |
| Wedge.WedgedAfterReturn | service/worker_slice_gateway_service.go:380-575 | the run: a slice of a, d, b swaps b for c and takes b back in front, all before the gateways had a turn; b then has one gateway to d and none to c, whatever passes and turns follow |
| MeshRun.MeshOfRun | service/worker_slice_gateway_service.go:349-575 | at any moment of any mesh run two passes bring about exactly n(n-1) live gateways, one server and one client per pair, swapped ends, one number, and the blocks of the clusters' configs; one turn of each terminating gateway then leaves nothing else |
| MeshRun.RunConverges | service/worker_slice_gateway_service.go:96-575 | over every mesh run the pairs of present clusters stay whole and live, staying clusters keep their octets, and every gateway is of the old mesh or of present clusters with present octets |
| MeshRun.RunKeepsGateway | service/worker_slice_gateway_service.go:478-516 | while two clusters stay in the list, in whatever order, their gateway keeps its role and all its data |
| MeshRun.SubnetsOfRun | service/worker_slice_gateway_service.go:595-647 | at every moment of every mesh run a gateway between present clusters has the blocks of their configs |
| MeshRun.RotationOfRun | service/vpn_key_rotation_service.go:341-361 | at every moment of every mesh run the addresses recomputed when keys are rotated are the ones the server gateway was created with |
| StaleGateway.SwappedForGood | service/worker_slice_gateway_service.go:392-432 | the run, with any turns of gateways in between: a slice of a, b swaps both for c, d and takes them back in the other order; the gateway from a to b keeps both blocks, now each other's, and no passes and turns that follow connect the slice |
| StaleGateway.StaleGatewayStays | service/worker_slice_gateway_service.go:392-432 | the run, with any turns of gateways in between: a slice of a, b swaps b for c and takes b back; b holds block 2 while its gateway names block 1, and no passes and turns that follow connect the slice |
| GoSlices.RemoveElement | util/common.go:239-246 | the first match is shifted out of the caller's array, whose position behind the new end keeps its value; no match changes nothing |
| GoSlices.SweepEntry | service/slice_config_service.go:364-370 | the range loop over the shrinking list, arrays and all, leaves the swept list |
| GoSlices.SweptKeeps | service/slice_config_service.go:364-370 | sweeping keeps the order and loses no cluster outside the set |
| GoSlices.SweptIsFilter | service/slice_config_service.go:364-370 | sweeping is the plain filter exactly when no two neighbours, apart from the last two, are both in the set |
| GoSlices.SweptExactly | service/slice_config_service.go:364-370 | exactly these clusters are left: those outside the set, and every one in the set that is passed over, since the one before it was just taken out, unless it is the last |
| AppNamespaces.RemoveSliceApplicationNamespaces | service/slice_config_service.go:360-382 | the loop over entries with separate arrays yields the specified list, and panics exactly on an entry without clusters |
| AppNamespaces.RemovedDisjoint | service/slice_config_service.go:360-382 | no marked pair is left exactly when every longer entry has no two marked neighbours before its end |
| AppNamespaces.RemovedKeeps | service/slice_config_service.go:360-382 | no unmarked pair is lost and none is invented |
| AppNamespaces.NamespacePairsPlain | service/slice_config_service.go:341-358 | in a list without * the look-up map holds exactly the pairs the list selects |
| AppNamespaces.ConstructApplicationNamespaceMap | service/slice_config_service.go:341-358 | the two loops hold a pair exactly if some entry has its namespace and begins with * while the cluster is one of the slice's, or does not and lists the cluster |
| AppNamespaces.NamespacePairsExactly | service/slice_config_service.go:341-358 | the same of the specified set |
| AppNamespaces.RemovedExactly | service/slice_config_service.go:360-382 | the pairs left are exactly those of clusters not marked, or marked but passed over before the end of a longer entry |
| AppNamespaces.RemovedNamespaces | service/slice_config_service.go:360-382 | a namespace stays listed exactly if an entry of it is longer than one cluster or not marked |
| AppNamespaces.RemovedUnique | service/slice_config_service.go:360-382 | no namespace is listed twice afterwards |
| AppNamespaces.HandleDefaultSliceConfigAppns | service/slice_config_service.go:384-433 | from the two slices' own lists: panic exactly on an empty entry, nothing to do exactly if the list is unchanged, though the comparison reads old headers over edited arrays, refusal exactly if an entry is emptied, else the new list is stored |
| AppNamespaces.SlicesSeparated | service/slice_config_service.go:384-433 | after the pass the default slice lists nothing that the slice's own list, * included, selects exactly when it listed nothing of it before, or every default-slice entry was clearable and none has two clusters, both marked |
| AppNamespaces.RemovedEmpties | service/slice_config_webhook_validation.go:505-513 | the new list has an entry without clusters, which admission refuses, exactly when some entry has two clusters, both marked |
| AppNamespaces.HandledFacts | service/slice_config_service.go:384-433 | a pass changes the default slice exactly when the slices share a pair and no entry is blocked; it then gets strictly shorter, losing none but the slice's pairs |
| AppNamespaces.RepeatedPassesSeparate | service/slice_config_service.go:384-433 | as many passes as there are clusters listed leave nothing that the slice's own list, * included, selects exactly when no entry selected with all its clusters has a stalling size, and in any case lose only selected pairs |
| AppNamespaces.StallsExactly | service/slice_config_service.go:364-370 | the stalling sizes are 3*2^k-1 to 4*2^k-2 |
| DefaultSlice.AddPhase | service/default_slice_service.go:96-137 | the pairs afterwards are the old ones and the cluster's unassigned namespaces, the cluster standing last in its entry and new entries last in the list; names stay unique, no entry is empty, and it reports whether anything was new |
| DefaultSlice.KeepEntry | service/default_slice_service.go:151-173 | the inner loop, ranging over the list it shrinks, keeps an entry exactly once, without the cluster if its namespace is not confirmed, or drops it |
| DefaultSlice.RemovalPhase | service/default_slice_service.go:147-173 | the loop over entries yields the specified list and reports whether some entry lost the cluster |
| DefaultSlice.KeptPairs | service/default_slice_service.go:147-173 | exactly the cluster's unconfirmed pairs go |
| DefaultSlice.KeptUnique | service/default_slice_service.go:147-173 | no surviving namespace is listed twice |
| DefaultSlice.KeptListed | service/default_slice_service.go:147-173 | a namespace stays listed exactly if one of its pairs is left |
| DefaultSlice.DefaultSliceOperations | service/default_slice_service.go:84-188 | a pass stores exactly when a namespace is new or a pair unconfirmed; the pairs are the old ones with the new ones, or else without the unconfirmed ones, names unique, no entry empty, and a new cluster on the cluster list |
| DefaultSlice.NextPairsExactly | service/default_slice_service.go:106-188 | pair by pair, from the reports: with an unassigned namespace missing exactly the unassigned ones are added; otherwise exactly those of the cluster go that are not reported as the slice's |
| DefaultSlice.CreateDefaultSlice | service/default_slice_service.go:47-80 | a missing default slice is made with the cluster and exactly its unassigned namespaces, no entry empty |
| DefaultSlice.WritesNothing | service/default_slice_service.go:84-188 | a pass writes nothing exactly when no namespace is unassigned and every pair of the cluster is reported as owned by the default slice |
| DefaultSlice.SettlesExactly | service/default_slice_service.go:84-188 | under a fixed report passes settle exactly when no namespace is reported unassigned: then after one pass, and otherwise every pass changes the list |
| DefaultSlice.UnassignedFlaps | service/default_slice_service.go:84-188 | from any list with all unassigned namespaces one pass removes these and the next adds them back |
| DefaultSlice.DeregisteredPairs | service/default_slice_service.go:195-274 | deregistering leaves no pair of the cluster and keeps all others |
| DefaultSlice.DeregisterClusterFromDefaultSlice | service/default_slice_service.go:195-284 | stores exactly if the cluster is on the cluster list and has a pair; then it is off the list, exactly its pairs are gone, names are unique and no entry is empty |
| VpnRotation.VerifyAllJobsAreCompleted | service/vpn_key_rotation_service.go:407-442 | not created exactly without jobs; error or suspended exactly by the kind of the first condition that stops a job; complete exactly if there are jobs, none stopped and none active |
| VpnRotation.RenewedUntilExpiry | service/vpn_key_rotation_service.go:228-312 | jobs and rotations come only past expiry; after a renewal reconciles do nothing for the interval less an hour, and then something unless prevented |
| VpnRotation.VpnKeyRotationService.CreateMinimalVpnKeyRotationConfig | service/vpn_key_rotation_service.go:82-117 | a missing object is created without times and with count 1, an existing one is left alone |
| VpnRotation.VpnKeyRotationService.ReconcileVpnKeyRotationConfig | service/vpn_key_rotation_service.go:228-312 | for every answer of the surroundings: when exactly each effect occurs; a renewal sets creation to now and expiry to the interval less an hour later, and counts unless it is the first; every other effect leaves all objects as they were; the flag is set by a trigger and cleared by a rotation only |
| VpnRotation.RunSound | service/vpn_key_rotation_service.go:237-309 | over every run with any number of slices and restarts each trigger is rotated on, lent, forgotten or pending; count is one more than the rotations; a creation time implies an expiry time |
| VpnRotation.TriggersAndCompletions | service/vpn_key_rotation_service.go:267-311 | triggers minus completions is 1 with the flag set and 0 otherwise without a restart; completions never exceed triggers even with restarts |
| VpnRotation.RunMonotone | service/slice_config_webhook_validation.go:152-226 | between any two moments of any run, with reconciles, renew-now, interval changes and restarts, creation times do not move back |
| VpnRotation.RenewsExactly | service/vpn_key_rotation_service.go:237-309 | a reconcile renews an object exactly when the jobs are complete and either no time was set or it is expired with jobs triggered, and otherwise leaves it as it was |
| VpnRotation.RunTimes | service/slice_config_webhook_validation.go:152-226 | over every run an object's creation time is that of its last renewal, and its expiry time is that of the last renewal, renew-now or interval change, the last counted from the creation time |
| VpnRotation.RunNeverCrashes | service/vpn_key_rotation_service.go:266-268 | no reconcile of any run meets a missing expiry time |
| VpnRotation.BorrowedFromStart | service/vpn_key_rotation_service.go:267-311 | the run: two slices are created and renewed at once; one rotates without ever triggering, and the other has to trigger twice |
| VpnRotation.BorrowsExactly | service/vpn_key_rotation_service.go:267-311 | a reconcile uses up another slice's trigger exactly when it is expired with complete jobs while that slice set the flag |
| VpnRotation.AloneNeverBorrows | service/vpn_key_rotation_service.go:267-311 | a slice that is the only one rotates at most as often as it triggered |
| Mirror.GatewayPair.ReconcileNodeIPAndNodePort | service/worker_slice_gateway_service.go:244-274 | the other half, if it exists, gets all of this half's node data exactly when the compared fields differ, and nothing else changes |
| Mirror.WriteClosesGap | service/worker_slice_gateway_service.go:244-274 | a write removes exactly one mismatch and touches no local data |
| Mirror.MirroringConverges | service/worker_slice_gateway_service.go:244-274 | under any interleaving at most two writes occur, and once both halves had a turn each copy equals the other's local data, load balancer addresses for a server |
| ExternalGateway.ValidateExternalGatewayConfig | service/slice_config_webhook_validation.go:478-502 | admits exactly the lists where * stands alone and once, other names take part, and none occurs twice |
| ExternalGateway.AdmittedExactly | service/slice_config_webhook_validation.go:478-502 | a list is admitted exactly if no name is at two places and each takes part or is a * that is alone; counting the * is not needed |
| ExternalGateway.HasDuplicate | util/common.go:115-128 | reports a duplicate exactly when two positions hold the same name |
| ExternalGateway.Pick | service/worker_slice_config_service.go:216-229 | the labelled loop computes the specified choice for every list, admitted or not |
| ExternalGateway.ChosenOfAny | service/worker_slice_config_service.go:216-229 | on any list: the first config naming the cluster, else the last one with *, else the empty one |
| ExternalGateway.ChosenIsChoice | service/worker_slice_config_service.go:216-229 | for admitted lists the choice is the config naming the cluster, else the * config, else the empty one |
| ExternalGateway.ChoiceIgnoresOrder | service/worker_slice_config_service.go:216-229 | admitted lists with the same configs in another order give the same choice |
| Deregistration.ClusterObject.ReconcileDeletion | service/cluster_service.go:88-204 | for every answer of the surroundings: when exactly each finalizer goes, when the progress mark is set, and which wake-up is asked for; nothing else changes |
| Deregistration.RunSafe | service/cluster_service.go:88-204 | in every interleaving the controller's finalizer goes only once the worker's is gone and the clean-up done, and the controller takes the worker's off itself only more than ten minutes after deletion |
| Deregistration.WaitsOnce | service/cluster_service.go:184-204 | while status updates succeed at most one wait is announced, and the cluster is marked exactly from then on |
| Deregistration.CallWaitsExactly | service/cluster_service.go:156-204 | a wait, with a wake-up 610 seconds ahead, is announced exactly within the grace period with nothing reported or marked; once the worker has reported, a call within it changes nothing |
| Deregistration.QuietRunWillTimeOut | service/cluster_service.go:130-204 | with a silent worker and no restart a wake-up is always pending, and past the grace period once waiting began |
| Deregistration.LateWakeTimesOut | service/cluster_service.go:130-155 | such a wake-up takes the timeout branch, and the call it asks for finishes the deletion |
| Deregistration.RestartMayLoseTimeout | service/cluster_service.go:184-204 | the look after a restart reaches the timeout exactly when the grace period is over; otherwise nothing is pending any more |

## Left out

- Powers.IntPow: 64-bit wrap-around is not modelled; the program calls it with base 2 and exponents up to 31 only.
- SliceRun.RunBlocks: slices that move from the no-network mode to an overlay mode are outside, since their cluster count is not checked on that path.
- MeshRun.MeshOfRun: the case of runs whose list changes from a settled mesh only; every run is covered by `Convergence.RunConnects` and `PassOutcomes.LastPassConnectsExactly`.
- MeshRun.RunConverges: as for MeshOfRun; what every run keeps is `AnyRun.RunConsistent`.
- MeshRun.RunKeepsGateway: as for MeshOfRun; what a pass of any run does to a gateway is `AnyRun.GatewayFate`.
- MeshRun.SubnetsOfRun: as for MeshOfRun; for every run `AnyRun.StaleInRun` gives the exact condition.
- MeshRun.RotationOfRun: as for MeshOfRun; for every run `AnyRun.RotationExactly` gives the exact condition.
- Convergence.RunConnects: steps are about moments where no config of a cluster that left is held; while one is, `SliceRun.PassPanics` says when passes get through.
- SliceStore.Controller.ReconcileWorkerSliceGateway: the wait for finalizers of the worker is a later turn, deletion of the slice itself, secrets and the gateway's service type are not modelled, and its updates succeed.
- SliceStore.Controller.BuildMinimumGateway: node addresses, ports, protocol, service type, secret name and the gateway names inside specs are not in the record.
- SliceStore.Controller.CreatePairIfNotExists: an error of `GenerateCerts` after both creations is not modelled; only "jobs were triggered for this slice" is kept of certificate jobs.
- DefaultSlice.AddPhase: works on values; that `append` may reuse the spare capacity of a list's own array is not modelled.
- DefaultSlice.DefaultSliceOperations: the look-ups of project and default slice, and the guards on a cluster being deregistered, are not modelled.
- AppNamespaces.HandleDefaultSliceConfigAppns: of the webhook's checks on the stored list only the one for entries without clusters is modelled.
- VpnRotation.VpnKeyRotationService.ReconcileVpnKeyRotationConfig: requeue delays are not modelled; runs allow a reconcile at any time.
- VpnRotation.RunSound: deletion of a rotation object, concurrent reconciles, calendar and daylight-saving behaviour of `AddDate` are not modelled; an interval change before the first creation time, a nil dereference in the program, leaves the object as it is.
- VpnRotation.RunNeverCrashes: a renew time of year 1, January 1, 0:00 UTC, is not modelled; it is past, so the webhook admits it, and as a zero time it is stored as none, which can leave an object with a creation time and no expiry.
- VpnRotation.RunMonotone: the refusal of renew-now while a gateway's rotation state is not complete is not modelled; runs allow the step whenever its time is past.
- Mirror.MirroringConverges: says nothing of a client's load balancer addresses, which the program compares for servers only and copies along with other data.
- Pools.CertNetworkIsBlock: of a certificate request only the networks and their mask are modelled.
- Deregistration.QuietRunWillTimeOut: the queue's retries after an error are not modelled; the lemma is about calls whose updates succeed.
- `getSliceGwSvcTypes`, gateway service type validation, QoS profiles, namespace isolation projection and labels: would add easy members only.
- Slice, project and namespace deletion; RBAC rules; service export and import; the clean-up job.
- Node IP, geolocation and regular-expression validation.
- Events, metrics, logging, retries and conflict errors of the API server.
