/** Any number of processes refreshing the built-in release through one control file and one active
    file.  Each stretch under a file lock is one step; lease ids are never reused, the processes share
    one endpoint, and the clock never goes back. */
module BuiltinRefresh {
  import opened Wrappers
  import opened BuiltinRelease
  import opened BuiltinLease

  datatype Lease = Lease(id: LeaseId, until: int)

  /** Where a process is in its refresh, from taking the lease on. */
  datatype Task =
    | Resting
    | Fetching(lease: Lease)
    | Applying(lease: Lease, release: Release)
    | Finishing(lease: Lease, ending: Ending)

  datatype Process = Process(bundled: Candidate, disposed: bool, task: Task)

  /** `updates` is a history: the revisions whose application answered "updated". */
  datatype World = World(
    clock: int, nextLease: LeaseId, control: Control, active: Candidate, processes: seq<Process>, updates: seq<nat>)

  datatype Setting = Setting(t: Timing, endpoint: Endpoint)

  datatype Step =
    | Tick(elapsed: nat)
    | Acquire(p: nat, force: bool)
    // the download came (None when there is no release), or failed
    | Fetched(p: nat, release: Option<Release>)
    | FetchFailed(p: nat)
    | Apply(p: nat)
    // between download and application an abort was noticed or the endpoint could not be resolved
    | ApplyAborted(p: nat)
    | Finish(p: nat)
    | ReadSource(p: nat)
    | Dispose(p: nat)

  predicate Enabled(w: World, step: Step) {
    match step
    case Tick(_) => true
    case Acquire(p, _) => p < |w.processes| && w.processes[p].task.Resting? && !w.processes[p].disposed
    case Fetched(p, _) => p < |w.processes| && w.processes[p].task.Fetching?
    case FetchFailed(p) => p < |w.processes| && w.processes[p].task.Fetching?
    case Apply(p) => p < |w.processes| && w.processes[p].task.Applying?
    case ApplyAborted(p) => p < |w.processes| && w.processes[p].task.Applying?
    case Finish(p) => p < |w.processes| && w.processes[p].task.Finishing?
    case ReadSource(p) => p < |w.processes|
    case Dispose(p) => p < |w.processes|
  }

  function Set(w: World, p: nat, task: Task): World
    requires p < |w.processes|
  {
    w.(processes := w.processes[p := w.processes[p].(task := task)])
  }

  /** How a refresh ends after an error. */
  function AfterError(disposed: bool): Ending {
    if disposed then Cancelled else Failure
  }

  function Acquiring(e: Setting, w: World, p: nat, force: bool): World
    requires p < |w.processes|
  {
    if Attempted(w.control, e.endpoint, w.clock, force) != Acquired then w
    else
      Set(w, p, Fetching(Lease(w.nextLease, w.clock + e.t.leaseDuration)))
        .(control := Taken(e.t, w.control, e.endpoint, w.nextLease, w.clock), nextLease := w.nextLease + 1)
  }

  function Downloaded(w: World, p: nat, release: Option<Release>): World
    requires Enabled(w, Fetched(p, release))
  {
    var lease := w.processes[p].task.lease;
    if w.processes[p].disposed then Set(w, p, Finishing(lease, Cancelled))
    else if release.None? then Set(w, p, Finishing(lease, Success))
    else Set(w, p, Applying(lease, release.value))
  }

  function ApplyingRelease(w: World, p: nat): World
    requires Enabled(w, Apply(p))
  {
    var Applying(lease, release) := w.processes[p].task;
    var (active, answer) := Applied(w.processes[p].bundled, w.active, release);
    var updates := if answer == Ok(Updated) then w.updates + [release.revision] else w.updates;
    var next := w.(active := active, updates := updates);
    Set(next, p, Finishing(lease, if answer.Ok? then Success else AfterError(w.processes[p].disposed)))
  }

  function FinishingLease(e: Setting, w: World, p: nat): World
    requires Enabled(w, Finish(p))
  {
    var Finishing(lease, ending) := w.processes[p].task;
    Set(w, p, Resting).(control := Released(e.t, w.control, e.endpoint, lease.id, w.clock, ending))
  }

  function Next(e: Setting, w: World, step: Step): World
    requires Enabled(w, step)
  {
    match step
    case Tick(elapsed) => w.(clock := w.clock + elapsed)
    case Acquire(p, force) => Acquiring(e, w, p, force)
    case Fetched(p, release) => Downloaded(w, p, release)
    case FetchFailed(p) => Set(w, p, Finishing(w.processes[p].task.lease, AfterError(w.processes[p].disposed)))
    case Apply(p) => ApplyingRelease(w, p)
    case ApplyAborted(p) => Set(w, p, Finishing(w.processes[p].task.lease, AfterError(w.processes[p].disposed)))
    case Finish(p) => FinishingLease(e, w, p)
    case ReadSource(p) => w.(active := Materialized(w.processes[p].bundled, w.active))
    case Dispose(p) => w.(processes := w.processes[p := w.processes[p].(disposed := true)])
  }

  // ---------- what every step keeps ----------

  /** The process still counts on a lease that has not run out. */
  ghost predicate Holds(w: World, p: nat) {
    p < |w.processes| && !w.processes[p].task.Resting? && w.processes[p].task.lease.until > w.clock
  }

  /** An unexpired lease is the one in the control record, and ids are never reused. */
  ghost predicate LeaseAt(e: Setting, w: World, p: nat) {
    p < |w.processes| &&
    (!w.processes[p].task.Resting? ==>
       && w.processes[p].task.lease.id < w.nextLease
       && (w.processes[p].task.lease.until > w.clock ==>
             && w.control.endpoint == e.endpoint
             && w.control.leaseId == Some(w.processes[p].task.lease.id)
             && w.control.leaseUntil == w.processes[p].task.lease.until))
  }

  ghost predicate Apart(w: World, p: nat, q: nat) {
    p < |w.processes| && q < |w.processes| &&
    (!w.processes[p].task.Resting? && !w.processes[q].task.Resting? ==>
       w.processes[p].task.lease.id != w.processes[q].task.lease.id)
  }

  ghost predicate Inv(e: Setting, w: World) {
    && (forall p: nat :: p < |w.processes| ==> LeaseAt(e, w, p))
    && (forall p: nat, q: nat :: p < q < |w.processes| ==> Apart(w, p, q))
    && (w.control.leaseId.Some? ==> w.control.leaseId.value < w.nextLease)
  }

  /** Nothing is running yet; the files may hold anything a past run left. */
  ghost predicate Start(w: World) {
    && (forall p: nat :: p < |w.processes| ==> w.processes[p].task.Resting?)
    && (w.control.leaseId.Some? ==> w.control.leaseId.value < w.nextLease)
    && w.updates == []
  }

  /** A step of p that only moves its task, keeping the lease or ending it. */
  lemma MoveInv(e: Setting, w: World, p: nat, task: Task)
    requires Inv(e, w) && p < |w.processes| && !w.processes[p].task.Resting?
    requires task.Resting? || task.lease == w.processes[p].task.lease
    ensures Inv(e, Set(w, p, task))
  {
    var v := Set(w, p, task);
    forall q: nat | q < |v.processes|
      ensures LeaseAt(e, v, q)
    {
      assert LeaseAt(e, w, q);
    }
    forall q: nat, r: nat | q < r < |v.processes|
      ensures Apart(v, q, r)
    {
      assert Apart(w, q, r);
    }
  }

  lemma AcquireInv(e: Setting, w: World, p: nat, force: bool)
    requires Inv(e, w) && Enabled(w, Acquire(p, force))
    ensures Inv(e, Acquiring(e, w, p, force))
  {
    var v := Acquiring(e, w, p, force);
    if Attempted(w.control, e.endpoint, w.clock, force) == Acquired {
      forall q: nat | q < |v.processes|
        ensures LeaseAt(e, v, q)
      {
        assert LeaseAt(e, w, q);
      }
      forall q: nat, r: nat | q < r < |v.processes|
        ensures Apart(v, q, r)
      {
        assert Apart(w, q, r) && LeaseAt(e, w, q) && LeaseAt(e, w, r);
      }
    }
  }

  lemma FinishInv(e: Setting, w: World, p: nat)
    requires Inv(e, w) && Enabled(w, Finish(p))
    ensures Inv(e, FinishingLease(e, w, p))
  {
    var v := FinishingLease(e, w, p);
    forall q: nat | q < |v.processes|
      ensures LeaseAt(e, v, q)
    {
      assert LeaseAt(e, w, q) && LeaseAt(e, w, p);
      if p < q { assert Apart(w, p, q); } else if q < p { assert Apart(w, q, p); }
    }
    forall q: nat, r: nat | q < r < |v.processes|
      ensures Apart(v, q, r)
    {
      assert Apart(w, q, r);
    }
  }

  lemma StepInv(e: Setting, w: World, step: Step)
    requires Inv(e, w) && Enabled(w, step)
    ensures Inv(e, Next(e, w, step))
  {
    var v := Next(e, w, step);
    match step
    case Acquire(p, force) => AcquireInv(e, w, p, force);
    case Fetched(p, release) => MoveInv(e, w, p, v.processes[p].task);
    case FetchFailed(p) => MoveInv(e, w, p, v.processes[p].task);
    case Apply(p) =>
      SameLeases(e, w, w.(active := v.active, updates := v.updates));
      MoveInv(e, w.(active := v.active, updates := v.updates), p, v.processes[p].task);
    case ApplyAborted(p) => MoveInv(e, w, p, v.processes[p].task);
    case Finish(p) => FinishInv(e, w, p);
    case ReadSource(p) => SameLeases(e, w, v);
    case Dispose(p) => SameLeases(e, w, v);
    case Tick(_) => SameLeases(e, w, v);
  }

  lemma SameLeases(e: Setting, w: World, v: World)
    requires Inv(e, w) && v.control == w.control && v.nextLease == w.nextLease && v.clock >= w.clock
    requires |v.processes| == |w.processes|
    requires forall p: nat :: p < |w.processes| ==> v.processes[p].task == w.processes[p].task
    ensures Inv(e, v)
  {
    forall q: nat | q < |v.processes|
      ensures LeaseAt(e, v, q)
    {
      assert LeaseAt(e, w, q);
    }
    forall q: nat, r: nat | q < r < |v.processes|
      ensures Apart(v, q, r)
    {
      assert Apart(w, q, r);
    }
  }

  // ---------- runs ----------

  function Run(e: Setting, w: World, steps: seq<Step>): Option<World>
    decreases |steps|
  {
    if steps == [] then Some(w)
    else if Enabled(w, steps[0]) then Run(e, Next(e, w, steps[0]), steps[1..])
    else None
  }

  lemma {:induction false} RunInv(e: Setting, w: World, steps: seq<Step>)
    requires Inv(e, w) && Run(e, w, steps).Some?
    ensures Inv(e, Run(e, w, steps).value)
    decreases |steps|
  {
    if steps != [] {
      StepInv(e, w, steps[0]);
      RunInv(e, Next(e, w, steps[0]), steps[1..]);
    }
  }

  /** At any moment of any run at most one process holds an unexpired lease. */
  lemma OneHolder(e: Setting, start: World, steps: seq<Step>, p: nat, q: nat)
    requires Start(start) && Run(e, start, steps).Some?
    requires Holds(Run(e, start, steps).value, p) && Holds(Run(e, start, steps).value, q)
    ensures p == q
  {
    StartInv(e, start);
    RunInv(e, start, steps);
    var w := Run(e, start, steps).value;
    assert LeaseAt(e, w, p) && LeaseAt(e, w, q);
    assert p < q ==> Apart(w, p, q);
    assert q < p ==> Apart(w, q, p);
  }

  lemma StartInv(e: Setting, start: World)
    requires Start(start)
    ensures Inv(e, start)
  {
    assert forall p: nat :: p < |start.processes| ==> LeaseAt(e, start, p);
    assert forall p: nat, q: nat :: p < q < |start.processes| ==> Apart(start, p, q);
  }

  /** The process works on a lease that is no longer the one in the control record. */
  ghost predicate TakenOver(w: World, p: nat, id: LeaseId) {
    && p < |w.processes| && !w.processes[p].task.Resting? && w.processes[p].task.lease.id == id
    && w.control.leaseId != Some(id)
  }

  /** Once taken over, a lease stays so: whatever happens, as long as the process works on it. */
  lemma {:induction false} TakenOverForGood(e: Setting, w: World, steps: seq<Step>, p: nat, id: LeaseId)
    requires Inv(e, w) && TakenOver(w, p, id) && Run(e, w, steps).Some?
    ensures
      var v := Run(e, w, steps).value;
      p < |v.processes| && (!v.processes[p].task.Resting? && v.processes[p].task.lease.id == id ==> TakenOver(v, p, id))
    decreases |steps|
  {
    if steps != [] {
      var v := Next(e, w, steps[0]);
      assert LeaseAt(e, w, p);
      StepInv(e, w, steps[0]);
      if TakenOver(v, p, id) {
        TakenOverForGood(e, v, steps[1..], p, id);
      } else {
        assert LeaseAt(e, v, p);
        LeftLease(e, v, steps[1..], p, id);
      }
    }
  }

  /** A lease a process has left never comes back to it: ids are not reused. */
  lemma {:induction false} LeftLease(e: Setting, w: World, steps: seq<Step>, p: nat, id: LeaseId)
    requires Inv(e, w) && p < |w.processes| && id < w.nextLease && Run(e, w, steps).Some?
    requires w.processes[p].task.Resting? || w.processes[p].task.lease.id != id
    ensures
      var v := Run(e, w, steps).value;
      p < |v.processes| && (v.processes[p].task.Resting? || v.processes[p].task.lease.id != id)
    decreases |steps|
  {
    if steps != [] {
      StepInv(e, w, steps[0]);
      LeftLease(e, Next(e, w, steps[0]), steps[1..], p, id);
    }
  }

  function Actor(step: Step): Option<nat> {
    match step
    case Tick(_) => None
    case Acquire(p, _) => Some(p)
    case Fetched(p, _) => Some(p)
    case FetchFailed(p) => Some(p)
    case Apply(p) => Some(p)
    case ApplyAborted(p) => Some(p)
    case Finish(p) => Some(p)
    case ReadSource(p) => Some(p)
    case Dispose(p) => Some(p)
  }

  /** A process whose lease was taken over never changes the control record. */
  lemma TakenOverWritesNothing(e: Setting, w: World, p: nat, id: LeaseId, step: Step)
    requires TakenOver(w, p, id) && Enabled(w, step) && Actor(step) == Some(p)
    ensures Next(e, w, step).control == w.control
  {
  }

  /** Nobody takes a lease from a process whose lease has not run out, and without force nobody starts
      before the record says it is due. */
  lemma AcquireRespectsLease(e: Setting, w: World, p: nat, q: nat, force: bool)
    requires Inv(e, w) && Enabled(w, Acquire(p, force)) && Next(e, w, Acquire(p, force)) != w
    ensures !Holds(w, q)
    ensures !force && w.control.endpoint == e.endpoint ==> w.control.nextEligibleAt <= w.clock
  {
    if q < |w.processes| { assert LeaseAt(e, w, q); }
  }

  /** How a refresh ends: as a success exactly when the release was applied, or there was none; cancelled
      exactly if it was not applied and the process is disposed; else as a failure, after an error. */
  lemma EndingsAre(e: Setting, w: World, p: nat, step: Step)
    requires p < |w.processes| && Enabled(w, step) && Actor(step) == Some(p)
    requires w.processes[p].task.Fetching? || w.processes[p].task.Applying?
    requires Next(e, w, step).processes[p].task.Finishing?
    ensures
      var ending := Next(e, w, step).processes[p].task.ending;
      var applied := step.Apply? && Applied(w.processes[p].bundled, w.active, w.processes[p].task.release).1.Ok?;
      && (ending == Success <==> applied || (step.Fetched? && step.release.None? && !w.processes[p].disposed))
      && (ending == Cancelled <==> w.processes[p].disposed && !applied)
      && (ending == Failure ==> step.FetchFailed? || step.ApplyAborted? || step.Apply?)
  {
  }

  /** Whoever is due gets the lease: with force, or when the record says so, as soon as it has run out. */
  lemma AcquireSucceeds(e: Setting, w: World, p: nat, force: bool)
    requires Enabled(w, Acquire(p, force)) && w.control.leaseUntil <= w.clock
    requires force || w.control.nextEligibleAt <= w.clock
    ensures
      var v := Next(e, w, Acquire(p, force));
      v.processes[p].task == Fetching(Lease(w.nextLease, w.clock + e.t.leaseDuration))
      && v.control.leaseId == Some(w.nextLease) && v.control.leaseUntil == w.clock + e.t.leaseDuration
      && v.control.endpoint == e.endpoint
  {
  }

  /** A refresh that nothing disturbs, of a process that is due and finds a release above everything there is:
      that release becomes the active one, the lease is free again, the next refresh is due after the
      ordinary interval, and no failure counts any more. */
  lemma QuietRefresh(e: Setting, w: World, p: nat, force: bool, release: Release)
    requires Enabled(w, Acquire(p, force)) && w.control.leaseUntil <= w.clock
    requires force || w.control.nextEligibleAt <= w.clock
    requires w.active.Valid? && w.active.release.revision < release.revision
    requires w.processes[p].bundled.Valid? ==> w.processes[p].bundled.release.revision < release.revision
    ensures
      var r := Run(e, w, [Acquire(p, force), Fetched(p, Some(release)), Apply(p), Finish(p)]);
      && r.Some? && |r.value.processes| == |w.processes| && r.value.processes[p].task.Resting?
      && r.value.active == Valid(release) && r.value.updates == w.updates + [release.revision]
      && r.value.control == Control(e.endpoint, None, 0, w.clock + e.t.successInterval, 0)
  {
    hide Run;
    AcquireSucceeds(e, w, p, force);
    var fetching := Next(e, w, Acquire(p, force));
    var applying := Next(e, fetching, Fetched(p, Some(release)));
    ApplyRaises(w.processes[p].bundled, w.active, release);
    var finishing := Next(e, applying, Apply(p));
    RunFour(e, w, Acquire(p, force), Fetched(p, Some(release)), Apply(p), Finish(p));
  }

  lemma RunFour(e: Setting, w: World, a: Step, b: Step, c: Step, d: Step)
    requires Enabled(w, a) && Enabled(Next(e, w, a), b) && Enabled(Next(e, Next(e, w, a), b), c)
    requires Enabled(Next(e, Next(e, Next(e, w, a), b), c), d)
    ensures Run(e, w, [a, b, c, d]) == Some(Next(e, Next(e, Next(e, Next(e, w, a), b), c), d))
  {
    hide Next, Enabled;
    var w1 := Next(e, w, a);
    var w2 := Next(e, w1, b);
    var w3 := Next(e, w2, c);
    assert [a, b, c, d][1..] == [b, c, d] && [b, c, d][1..] == [c, d] && [c, d][1..] == [d];
    assert Run(e, w, [a, b, c, d]) == Run(e, w1, [b, c, d]);
    assert Run(e, w1, [b, c, d]) == Run(e, w2, [c, d]);
    assert Run(e, w2, [c, d]) == Run(e, w3, [d]);
    assert [d][1..] == [];
  }

  // ---------- the active release ----------

  lemma StepRaises(e: Setting, w: World, step: Step)
    requires Enabled(w, step)
    ensures
      var v := Next(e, w, step);
      && AtLeast(w.active, v.active) && w.updates <= v.updates
      && (v.updates != w.updates ==>
            && v.updates == w.updates + [v.updates[|w.updates|]]
            && v.active.Valid? && v.active.release.revision == v.updates[|w.updates|]
            && (w.active.Valid? ==> w.active.release.revision < v.active.release.revision))
  {
    match step
    case Apply(p) => ApplyRaises(w.processes[p].bundled, w.active, w.processes[p].task.release);
    case _ =>
  }

  ghost predicate Reached(w: World, revision: nat) {
    w.active.Valid? && revision <= w.active.release.revision
  }

  /** Each "updated" is at most the active revision, and higher than every "updated" before it. */
  ghost predicate Rising(w: World) {
    && (forall revision <- w.updates :: Reached(w, revision))
    && (forall i, j :: 0 <= i < j < |w.updates| ==> w.updates[i] < w.updates[j])
  }

  lemma RisingStep(e: Setting, w: World, step: Step)
    requires Rising(w) && Enabled(w, step)
    ensures
      var v := Next(e, w, step);
      Rising(v) && AtLeast(w.active, v.active) && w.updates <= v.updates
  {
    var v := Next(e, w, step);
    StepRaises(e, w, step);
    forall revision | revision in v.updates
      ensures Reached(v, revision)
    {
      assert revision in w.updates ==> Reached(w, revision);
    }
    forall i, j | 0 <= i < j < |v.updates|
      ensures v.updates[i] < v.updates[j]
    {
      assert v.updates[i] == w.updates[i];
      if j < |w.updates| { assert v.updates[j] == w.updates[j]; } else { assert Reached(w, w.updates[i]); }
    }
  }

  /** Under any interleaving of live and expired holders the active revision never decreases, and every
      "updated" strictly raises it. */
  lemma {:induction false} ActiveNeverDecreases(e: Setting, w: World, steps: seq<Step>)
    requires Rising(w) && Run(e, w, steps).Some?
    ensures
      var v := Run(e, w, steps).value;
      AtLeast(w.active, v.active) && w.updates <= v.updates && Rising(v)
    decreases |steps|
  {
    if steps != [] {
      RisingStep(e, w, steps[0]);
      ActiveNeverDecreases(e, Next(e, w, steps[0]), steps[1..]);
    }
  }
}
