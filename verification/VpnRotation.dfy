/** VPN key rotation: one in-memory flag shared by all slices, and per slice an expiry time and a rotation count. */
module VpnRotation {
  import opened Text

  // ----- Jobs -----

  datatype Condition = Condition(kind: ConditionKind, isTrue: bool)

  datatype ConditionKind = JobFailed | JobSuspended | OtherCondition

  datatype Job = Job(conditions: seq<Condition>, active: int)

  datatype JobStatus = Complete | Error | Suspended | Running | NotCreated

  predicate Stopped(j: Job) {
    exists i :: 0 <= i < |j.conditions| && Stops(j.conditions[i])
  }

  predicate Stops(c: Condition) {
    c.isTrue && !c.kind.OtherCondition?
  }

  /** Condition i of job j is of this kind and true, and is the first one that stops a job. */
  predicate FirstStop(jobs: seq<Job>, j: int, i: int, kind: ConditionKind) {
    && 0 <= j < |jobs| && 0 <= i < |jobs[j].conditions| && jobs[j].conditions[i] == Condition(kind, true)
    && (forall k :: 0 <= k < j ==> !Stopped(jobs[k]))
    && forall k :: 0 <= k < i ==> !Stops(jobs[j].conditions[k])
  }

  lemma OneFirstStop(jobs: seq<Job>, j: int, i: int, kind: ConditionKind)
    requires FirstStop(jobs, j, i, kind) && !kind.OtherCondition?
    ensures Stopped(jobs[j])
    ensures forall j', i', kind' :: FirstStop(jobs, j', i', kind') && !kind'.OtherCondition? ==> kind' == kind
  {
    assert Stops(jobs[j].conditions[i]);
    forall j', i', kind' | FirstStop(jobs, j', i', kind') && !kind'.OtherCondition? ensures kind' == kind {
      assert Stops(jobs[j'].conditions[i']);
    }
  }

  /** verifyAllJobsAreCompleted on the listed jobs of a slice. */
  method VerifyAllJobsAreCompleted(jobs: seq<Job>) returns (status: JobStatus)
    ensures status == NotCreated <==> jobs == []
    ensures status == Error || status == Suspended <==> exists j :: 0 <= j < |jobs| && Stopped(jobs[j])
    ensures status == Error <==> exists j, i :: FirstStop(jobs, j, i, JobFailed)
    ensures status == Suspended <==> exists j, i :: FirstStop(jobs, j, i, JobSuspended)
    ensures status == Complete <==> AllComplete(jobs)
  {
    if jobs == [] { return NotCreated; }
    for j := 0 to |jobs|
      invariant forall k :: 0 <= k < j ==> !Stopped(jobs[k])
    {
      for i := 0 to |jobs[j].conditions|
        invariant forall k :: 0 <= k < i ==> !Stops(jobs[j].conditions[k])
      {
        var condition := jobs[j].conditions[i];
        if condition.kind == JobFailed && condition.isTrue {
          assert FirstStop(jobs, j, i, JobFailed);
          OneFirstStop(jobs, j, i, JobFailed);
          return Error;
        }
        if condition.kind == JobSuspended && condition.isTrue {
          assert FirstStop(jobs, j, i, JobSuspended);
          OneFirstStop(jobs, j, i, JobSuspended);
          return Suspended;
        }
      }
    }
    for j := 0 to |jobs|
      invariant forall k :: 0 <= k < j ==> jobs[k].active <= 0
    {
      if jobs[j].active > 0 { return Running; }
    }
    status := Complete;
  }

  /** There are jobs, none stopped and none active. */
  predicate AllComplete(jobs: seq<Job>) {
    jobs != [] && forall j :: 0 <= j < |jobs| ==> !Stopped(jobs[j]) && jobs[j].active <= 0
  }

  // ----- One reconcile -----

  /** A VpnKeyRotation object; times are hours. */
  datatype Rotation = Rotation(creation: Option<int>, expiry: Option<int>, interval: int, count: int)

  /** What the surroundings answer during one reconcile; jobs is None when listing them fails. */
  datatype World = World(now: int, jobs: Option<seq<Job>>, triggerOk: bool, updateOk: bool)

  datatype Effect = Nothing | Initialised | Triggered | Rotated | Crashed

  /** A day count later, less one hour. */
  function ExpiryFrom(start: int, days: int): int {
    start + 24 * days - 1
  }

  predicate Renewable(w: World) {
    w.jobs.Some? && AllComplete(w.jobs.value) && w.updateOk
  }

  predicate Expired(r: Rotation, now: int) {
    r.expiry.Some? && r.expiry.value < now
  }

  /** The jobs are done, and either no time was ever set or the expiry time is past with jobs triggered. */
  predicate Due(flag: bool, r: Rotation, w: World) {
    Renewable(w) && ((r.creation.None? && r.expiry.None?) || (flag && Expired(r, w.now)))
  }

  /** Valid from now for the interval less an hour, counted unless it is the first time. */
  predicate Renewed(r: Rotation, r': Rotation, now: int) {
    && r'.creation == Some(now) && r'.expiry == Some(now + 24 * r.interval - 1) && r'.interval == r.interval
    && r'.count == r.count + if r.creation.None? && r.expiry.None? then 0 else 1
  }

  /** reconcileVpnKeyRotationConfig: the flag, the stored object and what happened. */
  function RotationTurn(flag: bool, r: Rotation, w: World): (bool, Rotation, Effect) {
    var renewed := r.(creation := Some(w.now), expiry := Some(ExpiryFrom(w.now, r.interval)));
    if r.creation.None? && r.expiry.None? then
      if Renewable(w) then (flag, renewed, Initialised) else (flag, r, Nothing)
    else if r.expiry.None? then (flag, r, Crashed)
    else if w.now <= r.expiry.value then (flag, r, Nothing)
    else if !flag then
      if w.triggerOk then (true, r, Triggered) else (flag, r, Nothing)
    else if Renewable(w) then (false, renewed.(count := r.count + 1), Rotated)
    else (flag, r, Nothing)
  }

  /** Jobs are triggered and keys rotated only past the expiry time; after a renewal no reconcile does anything for the
      interval less an hour, and from then on each does unless its surroundings prevent it. */
  lemma RenewedUntilExpiry(flag: bool, r: Rotation, w: World, later: bool, w': World)
    ensures RotationTurn(flag, r, w).2 == Triggered || RotationTurn(flag, r, w).2 == Rotated ==> r.expiry.Some? && r.expiry.value < w.now
    ensures RotationTurn(flag, r, w).2 == Initialised || RotationTurn(flag, r, w).2 == Rotated ==>
      (RotationTurn(later, RotationTurn(flag, r, w).1, w').2 == Nothing <==>
       w'.now < w.now + 24 * r.interval || if later then !Renewable(w') else !w'.triggerOk)
  {
  }

  /** The service object: its flag outlives a reconcile and is shared by every slice. */
  class VpnKeyRotationService {
    var jobCreationInProgress: bool
    var rotations: map<string, Rotation>

    constructor ()
      ensures !jobCreationInProgress && rotations == map[]
    {
      jobCreationInProgress, rotations := false, map[];
    }

    method CreateMinimalVpnKeyRotationConfig(slice: string, interval: int)
      modifies this`rotations
      ensures rotations ==
        if slice in old(rotations) then old(rotations) else old(rotations)[slice := Rotation(None, None, interval, 1)]
    {
      if slice !in rotations { rotations := rotations[slice := Rotation(None, None, interval, 1)]; }
    }

    method ReconcileVpnKeyRotationConfig(slice: string, w: World) returns (effect: Effect)
      requires slice in rotations
      modifies this
      ensures var (flag, r, e) := RotationTurn(old(jobCreationInProgress), old(rotations)[slice], w);
        jobCreationInProgress == flag && rotations == old(rotations)[slice := r] && effect == e
      ensures effect == Crashed <==> old(rotations)[slice].creation.Some? && old(rotations)[slice].expiry.None?
      ensures effect == Initialised || effect == Rotated <==> Due(old(jobCreationInProgress), old(rotations)[slice], w)
      ensures effect == Triggered <==>
        w.triggerOk && !old(jobCreationInProgress) && Expired(old(rotations)[slice], w.now)
      ensures jobCreationInProgress == (effect == Triggered || (effect != Rotated && old(jobCreationInProgress)))
      ensures effect == Initialised || effect == Rotated ==>
        Renewed(old(rotations)[slice], rotations[slice], w.now) && rotations == old(rotations)[slice := rotations[slice]]
      ensures effect == Nothing || effect == Triggered || effect == Crashed ==> rotations == old(rotations)
    {
      var copy := rotations[slice];
      effect := Nothing;
      if copy.creation.None? && copy.expiry.None? {
        if w.jobs.None? { return; }
        var status := VerifyAllJobsAreCompleted(w.jobs.value);
        if status == Running || status == Error || status == Suspended || status == NotCreated { return; }
        copy := copy.(creation := Some(w.now), expiry := Some(ExpiryFrom(w.now, copy.interval)));
        if !w.updateOk { return; }
        rotations := rotations[slice := copy];
        effect := Initialised;
      } else if copy.expiry.None? {
        effect := Crashed;
      } else if w.now > copy.expiry.value {
        if !jobCreationInProgress {
          if !w.triggerOk { return; }
          jobCreationInProgress := true;
          effect := Triggered;
          return;
        }
        if w.jobs.None? { return; }
        var status := VerifyAllJobsAreCompleted(w.jobs.value);
        if status == Running || status == Error || status == Suspended || status == NotCreated { return; }
        copy := copy.(creation := Some(w.now), expiry := Some(ExpiryFrom(w.now, copy.interval)), count := copy.count + 1);
        if !w.updateOk { return; }
        rotations := rotations[slice := copy];
        jobCreationInProgress := false;
        effect := Rotated;
      }
    }
  }

  // ----- Runs -----

  datatype Event =
    | Create(slice: string, days: int)
    | Reconcile(slice: string, world: World)
    | RenewNow(slice: string, at: int, now: int, updateOk: bool)     // the webhook moves expiry into the past
    | ChangeInterval(slice: string, days: int, updateOk: bool)       // the webhook recomputes expiry
    | SyncInterval(slice: string, days: int)                         // the reconciler copies the interval
    | Restart

  /** Tallies of one slice: jobs triggered, rotations done, rotations done on another slice's trigger,
      own triggers used up by another slice, own triggers forgotten at a restart. */
  datatype Tally = Tally(triggered: nat, done: nat, borrowed: nat, lent: nat, forgotten: nat)

  datatype Sys = Sys(
    flag: bool, rotations: map<string, Rotation>, clock: int,
    holder: Option<string>, tallies: map<string, Tally>,
    triggers: nat, completions: nat, forgotten: nat)

  predicate Enabled(st: Sys, e: Event) {
    match e
    case Create(_, _) => true
    case Reconcile(s, w) => s in st.rotations && w.now >= st.clock
    case RenewNow(s, at, now, _) => s in st.rotations && now >= st.clock && now > at
    case ChangeInterval(s, _, _) => s in st.rotations
    case SyncInterval(s, _) => s in st.rotations
    case Restart => true
  }

  function TallyOf(st: Sys, s: string): Tally {
    if s in st.tallies then st.tallies[s] else Tally(0, 0, 0, 0, 0)
  }

  function Lent(st: Sys, s: string): Sys {
    var t := TallyOf(st, s);
    st.(tallies := st.tallies[s := t.(lent := t.lent + 1)])
  }

  /** The books after the reconcile of s had this effect; holder is the slice that last set the flag. */
  function Book(st: Sys, s: string, e: Effect): Sys {
    var t := TallyOf(st, s);
    match e
    case Triggered =>
      st.(holder := Some(s), triggers := st.triggers + 1, tallies := st.tallies[s := t.(triggered := t.triggered + 1)])
    case Rotated =>
      if st.holder == Some(s) || st.holder.None? then
        st.(holder := None, completions := st.completions + 1, tallies := st.tallies[s := t.(done := t.done + 1)])
      else
        Lent(st.(holder := None, completions := st.completions + 1,
                 tallies := st.tallies[s := t.(done := t.done + 1, borrowed := t.borrowed + 1)]), st.holder.value)
    case Nothing => st
    case Initialised => st
    case Crashed => st
  }

  function Apply(st: Sys, e: Event): Sys {
    match e
    case Create(s, days) =>
      if s in st.rotations then st else st.(rotations := st.rotations[s := Rotation(None, None, days, 1)])
    case Reconcile(s, w) =>
      if s !in st.rotations then st
      else
        var (flag, r, effect) := RotationTurn(st.flag, st.rotations[s], w);
        Book(st, s, effect).(flag := flag, rotations := st.rotations[s := r], clock := w.now)
    case RenewNow(s, at, now, updateOk) =>
      if s in st.rotations && updateOk
      then st.(rotations := st.rotations[s := st.rotations[s].(expiry := Some(at))], clock := now)
      else st.(clock := now)
    case ChangeInterval(s, days, updateOk) =>
      if s in st.rotations && updateOk && st.rotations[s].creation.Some? then
        var expiry := ExpiryFrom(st.rotations[s].creation.value, days);
        st.(rotations := st.rotations[s := st.rotations[s].(interval := days, expiry := Some(expiry))])
      else st
    case SyncInterval(s, days) =>
      if s in st.rotations then st.(rotations := st.rotations[s := st.rotations[s].(interval := days)]) else st
    case Restart =>
      var forgot := st.(flag := false, holder := None, forgotten := st.forgotten + if st.flag then 1 else 0);
      if st.holder.None? then forgot
      else
        var t := TallyOf(st, st.holder.value);
        forgot.(tallies := st.tallies[st.holder.value := t.(forgotten := t.forgotten + 1)])
  }

  function Initial(clock: int): Sys {
    Sys(false, map[], clock, None, map[], 0, 0, 0)
  }

  function After(st: Sys, es: seq<Event>): Sys {
    if es == [] then st else Apply(After(st, es[..|es| - 1]), es[|es| - 1])
  }

  predicate IsRun(st: Sys, es: seq<Event>) {
    es == [] || (IsRun(st, es[..|es| - 1]) && Enabled(After(st, es[..|es| - 1]), es[|es| - 1]))
  }

  /** A slice's books balance: triggers and borrowed ones pay for rotations, loans, losses and the pending one. */
  predicate Balanced(st: Sys, s: string) {
    var t := TallyOf(st, s);
    t.triggered + t.borrowed == t.done + t.lent + t.forgotten + if st.holder == Some(s) then 1 else 0
  }

  /** The books: totals match the flag, every slice balances, and only known slices have tallies. */
  ghost predicate BooksSound(st: Sys) {
    && (st.flag <==> st.holder.Some?)
    && st.triggers == st.completions + st.forgotten + (if st.flag then 1 else 0)
    && (forall s :: Balanced(st, s))
    && (forall s :: s in st.tallies ==> s in st.rotations)
  }

  /** An object with a creation time, not in the future, has an expiry time; its count is one more than its rotations. */
  predicate ObjectSound(st: Sys, s: string)
    requires s in st.rotations
  {
    var r := st.rotations[s];
    && (r.creation.Some? ==> r.expiry.Some? && r.creation.value <= st.clock)
    && r.count == 1 + TallyOf(st, s).done
  }

  /** What every step keeps. */
  ghost predicate Sound(st: Sys) {
    BooksSound(st) && forall s :: s in st.rotations ==> ObjectSound(st, s)
  }

  lemma HolderKnown(st: Sys)
    requires BooksSound(st) && st.holder.Some?
    ensures st.holder.value in st.tallies && st.holder.value in st.rotations
  {
    assert Balanced(st, st.holder.value);
  }

  lemma BookBalances(st: Sys, s: string, e: Effect, x: string)
    requires forall y :: Balanced(st, y)
    requires e == Triggered ==> st.holder.None?
    requires e == Rotated ==> st.holder.Some?
    ensures Balanced(Book(st, s, e), x)
  {
    assert Balanced(st, x) && Balanced(st, s);
  }

  /** Bookkeeping counts a rotation for the slice that rotated and for no other. */
  lemma BookDone(st: Sys, s: string, e: Effect, x: string)
    ensures TallyOf(Book(st, s, e), x).done == TallyOf(st, x).done + if e == Rotated && x == s then 1 else 0
  {
  }

  lemma ReconcileBooks(st: Sys, s: string, w: World)
    requires BooksSound(st) && Enabled(st, Reconcile(s, w))
    ensures BooksSound(Apply(st, Reconcile(s, w)))
  {
    var effect := RotationTurn(st.flag, st.rotations[s], w).2;
    var st' := Apply(st, Reconcile(s, w));
    if st.holder.Some? { HolderKnown(st); }
    forall x ensures Balanced(st', x) {
      BookBalances(st, s, effect, x);
      assert TallyOf(st', x) == TallyOf(Book(st, s, effect), x);
    }
  }

  lemma ReconcileObject(st: Sys, s: string, w: World, x: string)
    requires Enabled(st, Reconcile(s, w)) && x in st.rotations && ObjectSound(st, x) && ObjectSound(st, s)
    ensures ObjectSound(Apply(st, Reconcile(s, w)), x)
  {
    var effect := RotationTurn(st.flag, st.rotations[s], w).2;
    BookDone(st, s, effect, x);
    assert TallyOf(Apply(st, Reconcile(s, w)), x) == TallyOf(Book(st, s, effect), x);
  }

  lemma RestartSound(st: Sys)
    requires Sound(st)
    ensures Sound(Apply(st, Restart))
  {
    var st' := Apply(st, Restart);
    if st.holder.Some? { HolderKnown(st); }
    forall x ensures Balanced(st', x) { assert Balanced(st, x); }
    forall x | x in st'.rotations ensures ObjectSound(st', x) { assert ObjectSound(st, x); }
  }

  /** Steps that leave flag and books alone. */
  lemma OtherStepSound(st: Sys, e: Event)
    requires Sound(st) && Enabled(st, e) && !e.Reconcile? && !e.Restart?
    ensures Sound(Apply(st, e))
  {
    var st' := Apply(st, e);
    forall x ensures Balanced(st', x) { assert Balanced(st, x); }
    forall x | x in st'.rotations ensures ObjectSound(st', x) { OtherObjectSound(st, e, x); }
  }

  lemma OtherObjectSound(st: Sys, e: Event, x: string)
    requires Sound(st) && Enabled(st, e) && !e.Reconcile? && !e.Restart? && x in Apply(st, e).rotations
    ensures ObjectSound(Apply(st, e), x)
  {
    if x in st.rotations { assert ObjectSound(st, x); } else { assert x !in st.tallies; }
  }

  lemma StepSound(st: Sys, e: Event)
    requires Sound(st) && Enabled(st, e)
    ensures Sound(Apply(st, e))
  {
    if e.Reconcile? {
      ReconcileBooks(st, e.slice, e.world);
      forall x | x in st.rotations ensures ObjectSound(Apply(st, e), x) {
        assert ObjectSound(st, x) && ObjectSound(st, e.slice);
        ReconcileObject(st, e.slice, e.world, x);
      }
    } else if e.Restart? {
      RestartSound(st);
    } else {
      OtherStepSound(st, e);
    }
  }

  /** Over every run, with any number of slices: no trigger is unaccounted for, counts match, expiry is always set. */
  lemma {:induction false} RunSound(clock: int, es: seq<Event>)
    requires IsRun(Initial(clock), es)
    ensures Sound(After(Initial(clock), es))
  {
    if es != [] {
      RunSound(clock, es[..|es| - 1]);
      StepSound(After(Initial(clock), es[..|es| - 1]), es[|es| - 1]);
    }
  }

  predicate NoRestart(es: seq<Event>) {
    forall i :: 0 <= i < |es| ==> !es[i].Restart?
  }

  lemma {:induction false} NothingForgotten(clock: int, es: seq<Event>)
    requires NoRestart(es)
    ensures After(Initial(clock), es).forgotten == 0
  {
    if es != [] { NothingForgotten(clock, es[..|es| - 1]); }
  }

  /** Without a restart triggers run ahead of completions by exactly the flag; with restarts never behind. */
  lemma TriggersAndCompletions(clock: int, es: seq<Event>)
    requires IsRun(Initial(clock), es)
    ensures var st := After(Initial(clock), es);
      && st.completions <= st.triggers
      && (NoRestart(es) ==> st.triggers - st.completions == if st.flag then 1 else 0)
  {
    RunSound(clock, es);
    if NoRestart(es) { NothingForgotten(clock, es); }
  }

  /** A reconcile never crashes on a missing expiry, and creation times never move back. */
  lemma StepMonotone(st: Sys, e: Event, s: string)
    requires Sound(st) && Enabled(st, e) && s in st.rotations
    ensures s in Apply(st, e).rotations
    ensures st.rotations[s].creation.Some? ==>
      && Apply(st, e).rotations[s].creation.Some?
      && st.rotations[s].creation.value <= Apply(st, e).rotations[s].creation.value
    ensures e.Reconcile? && e.slice == s ==> RotationTurn(st.flag, st.rotations[s], e.world).2 != Crashed
  {
    assert ObjectSound(st, s);
  }

  lemma {:induction false} FromSound(st: Sys, es: seq<Event>, s: string)
    requires Sound(st) && IsRun(st, es) && s in st.rotations
    ensures Sound(After(st, es)) && s in After(st, es).rotations
    ensures st.rotations[s].creation.Some? ==>
      && After(st, es).rotations[s].creation.Some?
      && st.rotations[s].creation.value <= After(st, es).rotations[s].creation.value
  {
    if es != [] {
      var front, e := es[..|es| - 1], es[|es| - 1];
      FromSound(st, front, s);
      StepSound(After(st, front), e);
      StepMonotone(After(st, front), e, s);
    }
  }

  /** Between any two moments of any run creation times do not move back. */
  lemma RunMonotone(clock: int, es: seq<Event>, later: seq<Event>, s: string)
    requires IsRun(Initial(clock), es) && IsRun(After(Initial(clock), es), later)
    requires s in After(Initial(clock), es).rotations
    ensures var st, end := After(Initial(clock), es), After(After(Initial(clock), es), later);
      && s in end.rotations
      && (st.rotations[s].creation.Some? ==>
          end.rotations[s].creation.Some? && st.rotations[s].creation.value <= end.rotations[s].creation.value)
  {
    RunSound(clock, es);
    FromSound(After(Initial(clock), es), later, s);
  }

  /** And no reconcile of any run meets a missing expiry time. */
  lemma RunNeverCrashes(clock: int, es: seq<Event>, s: string, w: World)
    requires IsRun(Initial(clock), es) && Enabled(After(Initial(clock), es), Reconcile(s, w))
    ensures var st := After(Initial(clock), es); RotationTurn(st.flag, st.rotations[s], w).2 != Crashed
  {
    RunSound(clock, es);
    StepMonotone(After(Initial(clock), es), Reconcile(s, w), s);
  }

  // ----- The times of an object over a run -----

  /** A reconcile renews the object exactly when that is due, and leaves it as it is otherwise. */
  lemma RenewsExactly(st: Sys, s: string, w: World)
    requires s in st.rotations
    ensures s in Apply(st, Reconcile(s, w)).rotations
    ensures var r, r' := st.rotations[s], Apply(st, Reconcile(s, w)).rotations[s];
      if Due(st.flag, r, w) then Renewed(r, r', w.now) else r' == r
    ensures Apply(st, Reconcile(s, w)).rotations - {s} == st.rotations - {s}
  {
  }

  /** When the object of s was renewed last. */
  function RenewedAt(st: Sys, es: seq<Event>, s: string): Option<int> {
    if es == [] then None
    else
      var front, e := es[..|es| - 1], es[|es| - 1];
      var before := After(st, front);
      if e.Reconcile? && e.slice == s && s in before.rotations && Due(before.flag, before.rotations[s], e.world)
      then Some(e.world.now)
      else RenewedAt(st, front, s)
  }

  /** What last set its expiry time: a renewal, a renewal forced by the webhook, or a new interval, counted from the last
      renewal. */
  function ExpiresAt(st: Sys, es: seq<Event>, s: string): Option<int> {
    if es == [] then None
    else
      var front, e := es[..|es| - 1], es[|es| - 1];
      var before := After(st, front);
      if s !in before.rotations then None
      else
        match e
        case Reconcile(t, w) =>
          if t == s && Due(before.flag, before.rotations[s], w) then Some(w.now + 24 * before.rotations[s].interval - 1)
          else ExpiresAt(st, front, s)
        case RenewNow(t, at, _, updateOk) => if t == s && updateOk then Some(at) else ExpiresAt(st, front, s)
        case ChangeInterval(t, days, updateOk) =>
          var renewed := RenewedAt(st, front, s);
          if t == s && updateOk && renewed.Some? then Some(renewed.value + 24 * days - 1) else ExpiresAt(st, front, s)
        case _ => ExpiresAt(st, front, s)
  }

  /** The webhook and the copying reconciler. */
  function ExpirySetBy(e: Event, r: Rotation, s: string): Option<int> {
    match e
    case RenewNow(t, at, _, true) => if t == s then Some(at) else r.expiry
    case ChangeInterval(t, days, true) =>
      if t == s && r.creation.Some? then Some(r.creation.value + 24 * days - 1) else r.expiry
    case _ => r.expiry
  }

  predicate SetsInterval(e: Event, r: Rotation, s: string) {
    (e.SyncInterval? && e.slice == s) || (e.ChangeInterval? && e.slice == s && e.updateOk && r.creation.Some?)
  }

  lemma StepTimes(st: Sys, e: Event, s: string)
    requires s in st.rotations
    ensures s in Apply(st, e).rotations
    ensures var r, r' := st.rotations[s], Apply(st, e).rotations[s];
      && (e.Reconcile? && e.slice == s ==> if Due(st.flag, r, e.world) then Renewed(r, r', e.world.now) else r' == r)
      && (!(e.Reconcile? && e.slice == s) ==>
          && r'.creation == r.creation && r'.count == r.count
          && r'.expiry == ExpirySetBy(e, r, s)
          && r'.interval == if SetsInterval(e, r, s) then e.days else r.interval)
  {
    if e.Reconcile? && e.slice == s { RenewsExactly(st, s, e.world); }
  }

  /** Over every run an object has no times until it is first renewed; its creation time is that of its last renewal, and its
      expiry time what was set last. */
  lemma {:induction false} RunTimes(clock: int, es: seq<Event>, s: string)
    requires IsRun(Initial(clock), es)
    ensures var st := After(Initial(clock), es);
      if s in st.rotations
      then st.rotations[s].creation == RenewedAt(Initial(clock), es, s) && st.rotations[s].expiry == ExpiresAt(Initial(clock), es, s)
      else RenewedAt(Initial(clock), es, s) == None == ExpiresAt(Initial(clock), es, s)
  {
    if es != [] {
      var front, e := es[..|es| - 1], es[|es| - 1];
      RunTimes(clock, front, s);
      if s in After(Initial(clock), front).rotations { StepTimes(After(Initial(clock), front), e, s); }
    }
  }

  /** The flag is shared: b rotates on the trigger of a, with no job of its own, and a has to trigger again. */
  lemma RotationOnBorrowedTrigger(st: Sys, a: string, b: string, w: World)
    requires Sound(st) && a != b && a in st.rotations && b in st.rotations && !st.flag && w.now >= st.clock
    requires forall s :: s == a || s == b ==>
      st.rotations[s].expiry.Some? && st.rotations[s].expiry.value < w.now && s !in st.tallies
    requires w.triggerOk && Renewable(w)
    ensures var st1 := Apply(st, Reconcile(a, w));
      var st2 := Apply(st1, Reconcile(b, w));
      var st3 := Apply(st2, Reconcile(a, w));
      && Enabled(st, Reconcile(a, w)) && Enabled(st1, Reconcile(b, w)) && Enabled(st2, Reconcile(a, w))
      && TallyOf(st2, b).done == 1 && TallyOf(st2, b).triggered == 0
      && TallyOf(st3, a).triggered == 2 && TallyOf(st3, a).done == 0
  {
    assert TallyOf(st, a) == Tally(0, 0, 0, 0, 0) && TallyOf(st, b) == Tally(0, 0, 0, 0, 0);
  }

  /** Two slices are created and renewed at once. */
  function RenewBoth(a: string, b: string, days: int, at: int, now: int): seq<Event> {
    [Create(a, days)] + [Create(b, days)] + [RenewNow(a, at, now, true)] + [RenewNow(b, at, now, true)]
  }

  lemma RunAppend(st: Sys, es: seq<Event>, e: Event)
    requires IsRun(st, es) && Enabled(After(st, es), e)
    ensures IsRun(st, es + [e]) && After(st, es + [e]) == Apply(After(st, es), e)
  {
    assert (es + [e])[..|es|] == es;
  }

  lemma RenewBothRun(clock: int, a: string, b: string, days: int, at: int, now: int)
    requires a != b && clock <= now && at < now
    ensures IsRun(Initial(clock), RenewBoth(a, b, days, at, now))
    ensures var st := After(Initial(clock), RenewBoth(a, b, days, at, now));
      && !st.flag && st.clock == now && st.tallies == map[] && st.rotations.Keys == {a, b}
      && forall s :: s in {a, b} ==> st.rotations[s].expiry == Some(at)
  {
    var st, es := Initial(clock), [Create(a, days)];
    assert [] + es == es;
    RunAppend(st, [], Create(a, days));
    RunAppend(st, es, Create(b, days));
    RunAppend(st, es + [Create(b, days)], RenewNow(a, at, now, true));
    RunAppend(st, es + [Create(b, days)] + [RenewNow(a, at, now, true)], RenewNow(b, at, now, true));
  }

  /** That is a run from the start: then a reconcile of a, of b and of a again shows it. */
  lemma BorrowedFromStart(clock: int, a: string, b: string, days: int, at: int, w: World)
    requires a != b && clock <= w.now && at < w.now && w.triggerOk && Renewable(w)
    ensures var es := RenewBoth(a, b, days, at, w.now);
      var st1 := After(Initial(clock), es + [Reconcile(a, w)] + [Reconcile(b, w)]);
      var st2 := After(Initial(clock), es + [Reconcile(a, w)] + [Reconcile(b, w)] + [Reconcile(a, w)]);
      && IsRun(Initial(clock), es + [Reconcile(a, w)] + [Reconcile(b, w)] + [Reconcile(a, w)])
      && TallyOf(st1, b).done == 1 && TallyOf(st1, b).triggered == 0
      && TallyOf(st2, a).triggered == 2 && TallyOf(st2, a).done == 0
  {
    var es := RenewBoth(a, b, days, at, w.now);
    RenewBothRun(clock, a, b, days, at, w.now);
    RunSound(clock, es);
    var st := After(Initial(clock), es);
    assert a in {a, b} && b in {a, b};
    RotationOnBorrowedTrigger(st, a, b, w);
    RunAppend(Initial(clock), es, Reconcile(a, w));
    RunAppend(Initial(clock), es + [Reconcile(a, w)], Reconcile(b, w));
    RunAppend(Initial(clock), es + [Reconcile(a, w)] + [Reconcile(b, w)], Reconcile(a, w));
  }

  /** A reconcile uses up another slice's trigger exactly when it rotates while that slice holds the flag. */
  lemma BorrowsExactly(st: Sys, s: string, w: World)
    requires Sound(st) && Enabled(st, Reconcile(s, w))
    ensures TallyOf(Apply(st, Reconcile(s, w)), s).borrowed != TallyOf(st, s).borrowed <==>
      && st.flag && st.holder != Some(s) && Renewable(w)
      && st.rotations[s].expiry.Some? && st.rotations[s].expiry.value < w.now
  {
    assert ObjectSound(st, s);
  }

  lemma AloneStep(st: Sys, e: Event, s: string)
    requires Sound(st) && Enabled(st, e) && st.rotations.Keys <= {s}
    ensures TallyOf(Apply(st, e), s).borrowed == TallyOf(st, s).borrowed
  {
    if st.holder.Some? { HolderKnown(st); }
  }

  lemma RotationsGrow(st: Sys, e: Event)
    ensures st.rotations.Keys <= Apply(st, e).rotations.Keys
  {
  }

  /** A slice borrows only while another one holds the flag: alone, it has a trigger of its own for every rotation. */
  lemma {:induction false} AloneNeverBorrows(clock: int, es: seq<Event>, s: string)
    requires IsRun(Initial(clock), es) && After(Initial(clock), es).rotations.Keys <= {s}
    ensures var st := After(Initial(clock), es);
      TallyOf(st, s).borrowed == 0 && TallyOf(st, s).done <= TallyOf(st, s).triggered
  {
    if es != [] {
      var front, e := es[..|es| - 1], es[|es| - 1];
      var before := After(Initial(clock), front);
      RotationsGrow(before, e);
      AloneNeverBorrows(clock, front, s);
      RunSound(clock, front);
      AloneStep(before, e, s);
    }
    RunSound(clock, es);
    assert Balanced(After(Initial(clock), es), s);
  }
}
