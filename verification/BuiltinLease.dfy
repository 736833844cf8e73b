/** The lease in the shared control file that lets one process refresh the built-in release at a time. */
module BuiltinLease {
  import opened Wrappers

  type Endpoint = seq<int>
  type LeaseId = nat

  datatype Control = Control(
    endpoint: Endpoint, leaseId: Option<LeaseId>, leaseUntil: int, nextEligibleAt: int, failureCount: nat)

  /** A missing or unreadable control file. */
  const EMPTY := Control([], None, 0, 0, 0)

  datatype Timing = Timing(leaseDuration: nat, successInterval: nat, failureBase: nat, failureMax: nat)

  datatype Attempt = Acquired | LeaseHeld | NotDue

  datatype Ending = Success | Failure | Cancelled

  function Attempted(c: Control, endpoint: Endpoint, now: int, force: bool): Attempt {
    if c.endpoint == endpoint && c.leaseUntil > now then LeaseHeld
    else if !force && c.endpoint == endpoint && c.nextEligibleAt > now then NotDue
    else Acquired
  }

  /** The record once the lease is taken. */
  function Taken(t: Timing, c: Control, endpoint: Endpoint, id: LeaseId, now: int): Control {
    var same := c.endpoint == endpoint;
    Control(endpoint, Some(id), now + t.leaseDuration, if same then c.nextEligibleAt else 0,
            if same then c.failureCount else 0)
  }

  function Power2(n: nat): (p: nat)
    ensures p >= 1
  {
    if n == 0 then 1 else 2 * Power2(n - 1)
  }

  /** Exponential backoff after the given number of failures in a row. */
  function Backoff(t: Timing, failures: nat): nat {
    var grown := t.failureBase * Power2(if failures == 0 then 0 else failures - 1);
    if grown < t.failureMax then grown else t.failureMax
  }

  function FailuresAfter(c: Control, ending: Ending): nat {
    match ending
    case Cancelled => c.failureCount
    case Success => 0
    case Failure => c.failureCount + 1
  }

  function DelayAfter(t: Timing, c: Control, ending: Ending): nat {
    match ending
    case Cancelled => 0
    case Success => t.successInterval
    case Failure => Backoff(t, FailuresAfter(c, ending))
  }

  /** The record once a refresh ends: unchanged unless the lease is still this one. */
  function Released(t: Timing, c: Control, endpoint: Endpoint, id: LeaseId, now: int, ending: Ending): Control {
    if c.endpoint != endpoint || c.leaseId != Some(id) then c
    else Control(endpoint, None, 0, now + DelayAfter(t, c, ending), FailuresAfter(c, ending))
  }

  lemma {:induction false} Power2Grows(m: nat, n: nat)
    requires m <= n
    ensures Power2(m) <= Power2(n)
    decreases n
  {
    if m < n { Power2Grows(m, n - 1); }
  }

  /** More failures in a row never wait less, and each one waits twice as long as the one before until
      the cap. */
  lemma BackoffGrows(t: Timing, m: nat, n: nat)
    requires 1 <= m <= n
    ensures Backoff(t, m) <= Backoff(t, n) <= t.failureMax
    ensures Backoff(t, m + 1) == if 2 * Backoff(t, m) <= t.failureMax then 2 * Backoff(t, m) else t.failureMax
    ensures Backoff(t, 1) == if t.failureBase < t.failureMax then t.failureBase else t.failureMax
  {
    Power2Grows(m - 1, n - 1);
    Scaled(t.failureBase, Power2(m - 1), Power2(n - 1));
    var p := Power2(m - 1);
    assert Power2(m) == 2 * p;
    assert t.failureBase * (2 * p) == 2 * (t.failureBase * p);
  }

  lemma Scaled(base: nat, p: nat, q: nat)
    requires p <= q
    ensures base * p <= base * q
  {
  }

  /** One refresh of the endpoint that got the lease and kept it: when it ended, and how. */
  datatype Cycle = Cycle(id: LeaseId, begunAt: int, endedAt: int, ending: Ending)

  function AfterCycle(t: Timing, c: Control, endpoint: Endpoint, x: Cycle): Control {
    Released(t, Taken(t, c, endpoint, x.id, x.begunAt), endpoint, x.id, x.endedAt, x.ending)
  }

  function AfterCycles(t: Timing, c: Control, endpoint: Endpoint, xs: seq<Cycle>): Control {
    if xs == [] then c
    else AfterCycle(t, AfterCycles(t, c, endpoint, xs[..|xs| - 1]), endpoint, xs[|xs| - 1])
  }

  function Failures(xs: seq<Cycle>): nat {
    if xs == [] then 0 else Failures(xs[..|xs| - 1]) + if xs[|xs| - 1].ending == Failure then 1 else 0
  }

  lemma {:induction false} CyclesJoin(t: Timing, c: Control, endpoint: Endpoint, xs: seq<Cycle>, ys: seq<Cycle>)
    ensures AfterCycles(t, c, endpoint, xs + ys) == AfterCycles(t, AfterCycles(t, c, endpoint, xs), endpoint, ys)
    decreases |ys|
  {
    if ys == [] {
      assert xs + ys == xs;
    } else {
      assert (xs + ys)[..|xs + ys| - 1] == xs + ys[..|ys| - 1];
      CyclesJoin(t, c, endpoint, xs, ys[..|ys| - 1]);
    }
  }

  /** Without a success every cycle of the endpoint counts if it fails, and not if it is cancelled. */
  lemma {:induction false} CyclesCount(t: Timing, c: Control, endpoint: Endpoint, xs: seq<Cycle>)
    requires c.endpoint == endpoint && forall x <- xs :: x.ending != Success
    ensures AfterCycles(t, c, endpoint, xs).endpoint == endpoint
    ensures AfterCycles(t, c, endpoint, xs).failureCount == c.failureCount + Failures(xs)
    decreases |xs|
  {
    if xs != [] {
      assert xs[|xs| - 1] in xs;
      CyclesCount(t, c, endpoint, xs[..|xs| - 1]);
    }
  }

  /** A success ends the backoff, whatever went before: the next refresh is due after the ordinary interval,
      and only failures after it count.  The nth failure since puts off the next refresh by the nth backoff,
      a cancelled refresh by nothing.  In between the lease is free. */
  lemma BackoffSinceSuccess(t: Timing, c: Control, endpoint: Endpoint, before: seq<Cycle>, success: Cycle,
                            after: seq<Cycle>)
    requires success.ending == Success && forall x <- after :: x.ending != Success
    ensures
      var d := AfterCycles(t, c, endpoint, before + [success] + after);
      var last := if after == [] then success else after[|after| - 1];
      && d.endpoint == endpoint && d.leaseId.None? && d.leaseUntil == 0
      && d.failureCount == Failures(after)
      && (last.ending == Success ==> d.nextEligibleAt == last.endedAt + t.successInterval)
      && (last.ending == Failure ==> d.nextEligibleAt == last.endedAt + Backoff(t, Failures(after)))
      && (last.ending == Cancelled ==> d.nextEligibleAt == last.endedAt)
  {
    var xs := before + [success];
    var e := AfterCycles(t, c, endpoint, xs);
    assert xs[..|xs| - 1] == before;
    CyclesJoin(t, c, endpoint, xs, after);
    if after != [] {
      var front := after[..|after| - 1];
      CyclesCount(t, e, endpoint, front);
      assert after[|after| - 1] in after;
    }
  }

  /** The control file. */
  class ControlFile {
    var record: Control

    constructor ()
      ensures record == EMPTY
    {
      record := EMPTY;
    }
  }

  /** One process's synchronizer over the shared control file: the two stretches it runs under the
      file's lock. */
  class Synchronizer {
    const t: Timing
    const file: ControlFile

    constructor (t: Timing, file: ControlFile)
      ensures this.t == t && this.file == file
    {
      this.t, this.file := t, file;
    }

    method TryAcquire(endpoint: Endpoint, id: LeaseId, now: int, force: bool) returns (attempt: Attempt)
      modifies file
      ensures attempt == Attempted(old(file.record), endpoint, now, force)
      ensures attempt == Acquired <==>
                || old(file.record).endpoint != endpoint
                || (old(file.record).leaseUntil <= now && (force || old(file.record).nextEligibleAt <= now))
      ensures attempt == LeaseHeld <==> old(file.record).endpoint == endpoint && old(file.record).leaseUntil > now
      ensures attempt == Acquired ==>
                file.record.endpoint == endpoint && file.record.leaseId == Some(id)
                && file.record.leaseUntil == now + t.leaseDuration
      ensures file.record ==
                if attempt == Acquired then Taken(t, old(file.record), endpoint, id, now) else old(file.record)
    {
      var current := file.record;
      var sameEndpoint := current.endpoint == endpoint;
      if sameEndpoint && current.leaseUntil > now { return LeaseHeld; }
      if !force && sameEndpoint && current.nextEligibleAt > now { return NotDue; }
      file.record := Control(endpoint, Some(id), now + t.leaseDuration,
                             if sameEndpoint then current.nextEligibleAt else 0,
                             if sameEndpoint then current.failureCount else 0);
      return Acquired;
    }

    method FinishLease(endpoint: Endpoint, id: LeaseId, now: int, ending: Ending)
      modifies file
      ensures file.record == Released(t, old(file.record), endpoint, id, now, ending)
    {
      var current := file.record;
      if current.endpoint != endpoint || current.leaseId != Some(id) { return; }
      var failureCount := FailuresAfter(current, ending);
      var delay := 0;
      if ending == Success {
        delay := t.successInterval;
      } else if ending == Failure {
        delay := Backoff(t, failureCount);
      }
      file.record := Control(endpoint, None, 0, now + delay, failureCount);
    }
  }
}
