/** Deleting a cluster: two finalizers, a worker that may stay silent, a clock and a wake-up. */
module Deregistration {
  import opened Text

  datatype Status = Other | DeregisterFailed | Deregistered

  /** A cluster being deleted; times are seconds. */
  datatype Cluster = Cluster(
    deletedAt: int, controllerFinalizer: bool, workerFinalizer: bool, status: Status, inProgress: bool)

  const GRACE := 600
  const WAKE_UP := 610

  /** What the surroundings answer: default slice left, other clean-up done, update accepted, status update accepted. */
  datatype World = World(now: int, deregisterOk: bool, cleanupOk: bool, updateOk: bool, statusOk: bool) {
    predicate Obliging() {
      deregisterOk && cleanupOk && updateOk
    }
  }

  datatype Effect = Nothing | Finished | TimedOut | Waiting

  /** The deletion branch of ReconcileCluster. */
  function DeletionTurn(c: Cluster, w: World): (Cluster, Effect) {
    if !w.deregisterOk then (c, Nothing)
    else if !c.workerFinalizer then
      if w.cleanupOk && w.updateOk then (c.(controllerFinalizer := false), Finished) else (c, Nothing)
    else if c.deletedAt + GRACE < w.now then
      if w.updateOk then (c.(workerFinalizer := false), TimedOut) else (c, Nothing)
    else if c.status != Other || c.inProgress then (c, Nothing)
    else (c.(inProgress := w.statusOk), Waiting)
  }

  /** The call announces a wait: the worker's finalizer is on, within the grace period, with nothing reported or marked. */
  predicate Waits(c: Cluster, w: World) {
    w.deregisterOk && c.workerFinalizer && w.now <= c.deletedAt + 600 && c.status == Other && !c.inProgress
  }

  /** The call takes the worker's finalizer off: the grace period is over. */
  predicate TimesOut(c: Cluster, w: World) {
    w.deregisterOk && c.workerFinalizer && c.deletedAt + 600 < w.now && w.updateOk
  }

  /** The call takes the controller's finalizer off: the worker's is gone and everything is cleaned up. */
  predicate Finishes(c: Cluster, w: World) {
    w.deregisterOk && !c.workerFinalizer && w.cleanupOk && w.updateOk
  }

  class ClusterObject {
    var cluster: Cluster

    constructor (cluster: Cluster)
      ensures this.cluster == cluster
    {
      this.cluster := cluster;
    }

    /** Returns when to be called again: now for Requeue, later for RequeueAfter. */
    method ReconcileDeletion(w: World) returns (again: Option<int>)
      modifies this
      ensures cluster == DeletionTurn(old(cluster), w).0
      ensures again == NextWake(DeletionTurn(old(cluster), w).1, w.now)
      ensures cluster.deletedAt == old(cluster).deletedAt && cluster.status == old(cluster).status
      ensures cluster.controllerFinalizer == (old(cluster).controllerFinalizer && !Finishes(old(cluster), w))
      ensures cluster.workerFinalizer == (old(cluster).workerFinalizer && !TimesOut(old(cluster), w))
      ensures cluster.inProgress == if Waits(old(cluster), w) then w.statusOk else old(cluster).inProgress
      ensures again == if TimesOut(old(cluster), w) then Some(w.now)
                       else if Waits(old(cluster), w) then Some(w.now + 610) else None
    {
      again := None;
      if !w.deregisterOk { return; }
      if !cluster.workerFinalizer {
        if !w.cleanupOk { return; }
        if !w.updateOk { return; }
        cluster := cluster.(controllerFinalizer := false);
      } else if cluster.deletedAt + 600 < w.now {
        if !w.updateOk { return; }
        cluster := cluster.(workerFinalizer := false);
        again := Some(w.now);
      } else if cluster.status == DeregisterFailed {
        return;
      } else if cluster.status == Deregistered {
        return;
      } else if !cluster.inProgress {
        cluster := cluster.(inProgress := w.statusOk);
        again := Some(w.now + 610);
      }
    }
  }

  function NextWake(e: Effect, now: int): Option<int> {
    match e
    case TimedOut => Some(now)
    case Waiting => Some(now + WAKE_UP)
    case Nothing => None
    case Finished => None
  }

  // ----- Runs -----

  /** wakes: the times at which the controller's queue will call again; removedAt: when the controller itself took the
      worker's finalizer off; waits: how often a wait was announced; cleaned: the default slice was left and the clean-up
      done in one call. */
  datatype Sys = Sys(cluster: Cluster, now: int, wakes: set<int>, removedAt: Option<int>, waits: nat, cleaned: bool)

  datatype Event =
    | Tick(seconds: nat)
    | WorkerRemoves
    | WorkerReports(status: Status)
    | Reconcile(world: World)               // some change of the object calls the controller
    | Fire(at: int, world: World)           // a wake-up is due
    | Restart                               // the queue is lost; every object is looked at once

  predicate Enabled(st: Sys, e: Event) {
    match e
    case Reconcile(w) => w.now == st.now
    case Fire(at, w) => at in st.wakes && at <= st.now && w.now == st.now
    case _ => true
  }

  function Called(st: Sys, w: World): Sys {
    var (c, e) := DeletionTurn(st.cluster, w);
    var next := NextWake(e, w.now);
    st.(cluster := c,
        wakes := st.wakes + (if next.Some? then {next.value} else {}),
        removedAt := if e == TimedOut then Some(w.now) else st.removedAt,
        waits := st.waits + if e == Waiting then 1 else 0,
        cleaned := st.cleaned || (w.deregisterOk && w.cleanupOk && !st.cluster.workerFinalizer))
  }

  function Apply(st: Sys, e: Event): Sys {
    match e
    case Tick(n) => st.(now := st.now + n)
    case WorkerRemoves => st.(cluster := st.cluster.(workerFinalizer := false))
    case WorkerReports(s) => st.(cluster := st.cluster.(status := s))
    case Reconcile(w) => Called(st, w)
    case Fire(at, w) => Called(st.(wakes := st.wakes - {at}), w)
    case Restart => st.(wakes := {st.now})
  }

  /** The moment of deletion: both finalizers on, the deletion itself calls the controller. */
  function Deleted(at: int): Sys {
    Sys(Cluster(at, true, true, Other, false), at, {at}, None, 0, false)
  }

  function After(st: Sys, es: seq<Event>): Sys {
    if es == [] then st else Apply(After(st, es[..|es| - 1]), es[|es| - 1])
  }

  predicate IsRun(st: Sys, es: seq<Event>) {
    es == [] || (IsRun(st, es[..|es| - 1]) && Enabled(After(st, es[..|es| - 1]), es[|es| - 1]))
  }

  /** The controller's finalizer is gone only when the worker's is and the clean-up was done, and the controller removed the
      worker's only late. */
  predicate Safe(st: Sys, at: int) {
    && st.cluster.deletedAt == at <= st.now
    && (!st.cluster.controllerFinalizer ==> !st.cluster.workerFinalizer && st.cleaned)
    && (st.removedAt.Some? ==> at + GRACE < st.removedAt.value <= st.now)
  }

  /** In every interleaving of worker, clock, reconciles, wake-ups and restarts. */
  lemma {:induction false} RunSafe(at: int, es: seq<Event>)
    requires IsRun(Deleted(at), es)
    ensures Safe(After(Deleted(at), es), at)
  {
    if es != [] { RunSafe(at, es[..|es| - 1]); }
  }

  predicate StatusUpdateSucceeds(e: Event) {
    match e
    case Reconcile(w) => w.statusOk
    case Fire(_, w) => w.statusOk
    case _ => true
  }

  predicate StatusUpdatesSucceed(es: seq<Event>) {
    forall i :: 0 <= i < |es| ==> StatusUpdateSucceeds(es[i])
  }

  /** While status updates succeed at most one wait is announced, and the cluster is marked exactly from then on. */
  lemma {:induction false} WaitsOnce(at: int, es: seq<Event>)
    requires IsRun(Deleted(at), es) && StatusUpdatesSucceed(es)
    ensures var st := After(Deleted(at), es); st.waits <= 1 && (st.cluster.inProgress <==> st.waits == 1)
  {
    if es != [] {
      WaitsOnce(at, es[..|es| - 1]);
      assert StatusUpdateSucceeds(es[|es| - 1]);
    }
  }

  /** A call announces a wait, which adds a wake-up ten minutes and ten seconds ahead, exactly if nothing was reported or
      marked within the grace period; once the worker has reported, a call within it changes nothing and adds no wake-up. */
  lemma CallWaitsExactly(st: Sys, w: World)
    ensures Called(st, w).waits != st.waits <==> Waits(st.cluster, w)
    ensures Waits(st.cluster, w) ==>
      Called(st, w) == st.(cluster := st.cluster.(inProgress := w.statusOk), wakes := st.wakes + {w.now + 610}, waits := st.waits + 1)
    ensures st.cluster.status != Other && st.cluster.workerFinalizer && w.now <= st.cluster.deletedAt + 600 ==>
      Called(st, w) == st
  {
    assert st.wakes + {} == st.wakes;
  }

  /** A silent worker, an obliging API server and no restart. */
  predicate Quiet(e: Event) {
    match e
    case Tick(_) => true
    case Reconcile(w) => w.Obliging()
    case Fire(_, w) => w.Obliging()
    case _ => false
  }

  predicate AllQuiet(es: seq<Event>) {
    forall i :: 0 <= i < |es| ==> Quiet(es[i])
  }

  predicate Late(st: Sys, w: int) {
    w in st.wakes && st.cluster.deletedAt + GRACE < w
  }

  /** While the worker's finalizer is on, a wake-up is pending, and once waiting was announced, one past the grace period. */
  ghost predicate WillTimeOut(st: Sys) {
    && st.cluster.status == Other && st.cluster.deletedAt <= st.now
    && (st.cluster.workerFinalizer ==> st.wakes != {} && (st.cluster.inProgress ==> exists w :: Late(st, w)))
  }

  lemma CallKeepsWake(st: Sys, st0: Sys, w: World)
    requires st0.cluster == st.cluster && st0.now == st.now == w.now && w.Obliging()
    requires st.cluster.status == Other && st.cluster.deletedAt <= st.now
    requires st.cluster.workerFinalizer && st.cluster.inProgress && st.now <= st.cluster.deletedAt + GRACE ==>
      exists v :: Late(st0, v)
    ensures WillTimeOut(Called(st0, w))
  {
    var st' := Called(st0, w);
    if st.cluster.workerFinalizer && st.now <= st.cluster.deletedAt + GRACE {
      if st.cluster.inProgress {
        var v :| Late(st0, v);
        assert Late(st', v);
      } else {
        assert Late(st', st.now + WAKE_UP);
      }
    }
  }

  lemma StepKeepsWake(st: Sys, e: Event)
    requires WillTimeOut(st) && Enabled(st, e) && Quiet(e)
    ensures WillTimeOut(Apply(st, e))
  {
    match e
    case Tick(n) =>
      if st.cluster.workerFinalizer && st.cluster.inProgress {
        var v :| Late(st, v);
        assert Late(Apply(st, e), v);
      }
    case Reconcile(w) => CallKeepsWake(st, st, w);
    case Fire(at, w) =>
      var st0 := st.(wakes := st.wakes - {at});
      if st.cluster.workerFinalizer && st.cluster.inProgress && st.now <= st.cluster.deletedAt + GRACE {
        var v :| Late(st, v);
        assert Late(st0, v);
      }
      CallKeepsWake(st, st0, w);
  }

  /** With a silent worker and no restart a wake-up past the grace period is always pending while it is needed ... */
  lemma {:induction false} QuietRunWillTimeOut(at: int, es: seq<Event>)
    requires IsRun(Deleted(at), es) && AllQuiet(es)
    ensures WillTimeOut(After(Deleted(at), es))
  {
    if es != [] {
      QuietRunWillTimeOut(at, es[..|es| - 1]);
      assert Quiet(es[|es| - 1]);
      StepKeepsWake(After(Deleted(at), es[..|es| - 1]), es[|es| - 1]);
    }
  }

  /** ... and when it fires the timeout branch runs; the call after it finishes the deletion. */
  lemma LateWakeTimesOut(st: Sys, at: int, w: World)
    requires st.cluster.workerFinalizer && Late(st, at) && Enabled(st, Fire(at, w)) && w.Obliging()
    ensures var st' := Apply(st, Fire(at, w));
      && !st'.cluster.workerFinalizer && st'.removedAt == Some(st.now) && st.now in st'.wakes
      && Enabled(st', Fire(st.now, w)) && !Apply(st', Fire(st.now, w)).cluster.controllerFinalizer
  {
  }

  /** After a restart the look at start-up reaches the timeout exactly when the grace period is over; else nothing is
      pending any more, and the clock alone changes nothing. */
  lemma RestartMayLoseTimeout(st: Sys, w: World, n: nat)
    requires st.cluster.workerFinalizer && st.cluster.inProgress && st.cluster.status == Other
    requires w.now == st.now && w.Obliging()
    ensures var st' := Apply(Apply(st, Restart), Fire(st.now, w));
      && Enabled(Apply(st, Restart), Fire(st.now, w))
      && (!st'.cluster.workerFinalizer <==> st.cluster.deletedAt + GRACE < st.now)
      && (st'.cluster.workerFinalizer ==> st'.wakes == {} && Apply(st', Tick(n)).cluster == st'.cluster)
  {
  }
}
