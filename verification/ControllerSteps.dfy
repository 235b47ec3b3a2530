/** The controller does what the runs say: each of its operations on a store is one event of a run. */
module ControllerSteps {
  import opened Text
  import opened Sequences
  import opened Ipam
  import opened OwnerLabel
  import opened SliceStore
  import opened SliceRun
  import opened AnyRun

  ghost predicate Holds(c: Controller, st: State)
    reads c
  {
    c.configs == st.configs && c.GatewayStore() == st.GatewayStore()
  }

  lemma BuiltLabels(s: Slice, gws: Gateways)
    requires GatewaysBuilt(s, gws)
    ensures forall k :: k in gws ==> gws[k].labels == GatewayLabels(s, k.0, k.1)
  {
    forall k | k in gws ensures gws[k].labels == GatewayLabels(s, k.0, k.1) {
      var x, y :| BuiltAt(s, k, gws[k], x, y);
    }
  }

  /** A reconcile of the slice is a pass that saw the list it read and the clusters that are registered. */
  method ReconcileIsPass(c: Controller, clusters: seq<string>, ghost st: State) returns (ghost e: Event)
    requires c.slice.Valid() && Consistent(c.slice, st) && Holds(c, st) && clusters == st.clusters
    modifies c
    ensures e.Pass? && e.registered == old(c.registered) && Enabled(c.slice, st, e)
    ensures Holds(c, Apply(c.slice, st, e))
  {
    ghost var registered := c.registered;
    var cm, ok, l := c.Reconcile(clusters);
    e := Pass(l, registered);
  }

  /** A reconcile of a gateway is its turn. */
  method GatewayReconcileIsTurn(c: Controller, clusters: seq<string>, k: GatewayKey, ghost st: State)
    requires c.slice.Valid() && Consistent(c.slice, st) && Holds(c, st) && clusters == st.clusters
    modifies c
    ensures Enabled(c.slice, st, Turn(k)) && Holds(c, Apply(c.slice, st, Turn(k)))
  {
    BuiltLabels(c.slice, c.gateways);
    ValidOwner(c.slice);
    c.ReconcileWorkerSliceGateway(clusters, k);
  }
}
