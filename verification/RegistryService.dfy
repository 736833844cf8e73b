/** The service that joins configuration and account overlay into one registry snapshot.  A round reads
    both sources; only a pair resting on the same built-in revision is ever published. */
module RegistryService {
  import opened Wrappers
  import opened CelText
  import opened RefreshWaiters

  type Revision = Text

  datatype ConfigSnapshot = ConfigSnapshot(revision: Revision, builtinRevision: Revision)

  datatype AccountSnapshot = AccountSnapshot(revision: Revision, basedOn: Revision)

  datatype Snapshot = Snapshot(config: ConfigSnapshot, account: AccountSnapshot)

  predicate Consistent(p: Snapshot) { p.account.basedOn == p.config.builtinRevision }

  datatype Phase = Idle | AwaitSources(round: Round) | Head | Ended

  /** A request is answered from the sources its round read, or, when these do not fit together, with
      the last complete snapshot. */
  datatype Outcome = FromSources(snapshot: Snapshot) | LastComplete(snapshot: Snapshot) | Refused

  /** How a request was answered, what its round had read, and how many snapshots had been published by
      then; the last two are histories. */
  datatype Answer = Answer(outcome: Outcome, read: Option<Snapshot>, known: nat)

  /** `now` counts the moments at which rounds begin and requests are made; `settled` and `published`
      are histories. */
  datatype Service = Service(
    disposed: bool, snapshot: Option<Snapshot>, phase: Phase, requestedGeneration: nat, completedGeneration: nat,
    waiters: seq<Waiter>, now: nat, settled: seq<Settlement<Answer>>, published: seq<Snapshot>)

  const FRESH := Service(false, None, Idle, 0, 0, [], 1, [], [])

  datatype Step =
    | Request
    // both sources were read, or one read failed; `resolvable` says whether resolving them succeeds
    | SourcesRead(read: Option<Snapshot>, resolvable: bool)
    | Continue
    | Finish
    | Dispose

  // ---------- the steps ----------

  function SettleWaiters(s: Service, round: Round, read: Option<Snapshot>, outcome: Outcome): Service {
    s.(waiters := Beyond(s.waiters, round.generation),
       settled := s.settled + Settlements(Upto(s.waiters, round.generation), Answer(outcome, read, |s.published|),
                                          Some(round.begunAt)))
  }

  function RoundBegun(s: Service): Service {
    s.(phase := AwaitSources(Round(s.requestedGeneration, s.now)), now := s.now + 1)
  }

  /** ensureRefreshLoop: at most one loop, none once disposed. */
  function LoopEnsured(s: Service): Service {
    if !s.phase.Idle? || s.disposed then s
    else if s.completedGeneration < s.requestedGeneration then RoundBegun(s)
    else s.(phase := Ended)
  }

  function Requested(s: Service): Service {
    LoopEnsured(
      s.(requestedGeneration := s.requestedGeneration + 1,
         waiters := s.waiters + [Waiter(s.requestedGeneration + 1, s.now)], now := s.now + 1))
  }

  /** The round is over: its generation is completed and its requests get their outcome. */
  function Completed(s: Service, round: Round, read: Option<Snapshot>, outcome: Outcome): Service {
    SettleWaiters(s.(completedGeneration := round.generation), round, read, outcome)
  }

  predicate SameRevisions(current: Option<Snapshot>, p: Snapshot) {
    current.Some? && current.value.config.revision == p.config.revision
    && current.value.account.revision == p.account.revision
  }

  function SourcesArrived(s: Service, read: Option<Snapshot>, resolvable: bool): Service
    requires s.phase.AwaitSources?
  {
    var round := s.phase.round;
    if round.generation < s.requestedGeneration then s.(phase := Head)
    else if read.None? then Completed(s, round, read, Refused).(phase := Ended)
    else if s.disposed then
      SettleWaiters(s, Round(s.requestedGeneration, round.begunAt), read, Refused).(phase := Ended)
    else if !Consistent(read.value) then
      if s.snapshot.Some? then Completed(s, round, read, LastComplete(s.snapshot.value)).(phase := Head)
      else s.(completedGeneration := round.generation, phase := Head)
    else if SameRevisions(s.snapshot, read.value) then
      Completed(s, round, read, FromSources(s.snapshot.value)).(phase := Head)
    else if !resolvable then Completed(s, round, read, Refused).(phase := Ended)
    else
      Completed(s.(snapshot := read, published := s.published + [read.value]), round, read, FromSources(read.value))
        .(phase := Head)
  }

  function Continued(s: Service): Service {
    if s.completedGeneration < s.requestedGeneration then RoundBegun(s) else s.(phase := Ended)
  }

  function Finished(s: Service): Service {
    var idle := s.(phase := Idle);
    if s.completedGeneration < s.requestedGeneration then LoopEnsured(idle) else idle
  }

  function Disposed(s: Service): Service {
    if s.disposed then s
    else
      s.(disposed := true, waiters := [],
         settled := s.settled + Settlements(s.waiters, Answer(Refused, None, |s.published|), None))
  }

  predicate Enabled(s: Service, step: Step) {
    match step
    case Request => !s.disposed
    case SourcesRead(_, _) => s.phase.AwaitSources?
    case Continue => s.phase.Head?
    case Finish => s.phase.Ended?
    case Dispose => true
  }

  function Apply(s: Service, step: Step): Service
    requires Enabled(s, step)
  {
    match step
    case Request => Requested(s)
    case SourcesRead(read, resolvable) => SourcesArrived(s, read, resolvable)
    case Continue => Continued(s)
    case Finish => Finished(s)
    case Dispose => Disposed(s)
  }

  function Run(steps: seq<Step>): Option<Service> {
    if steps == [] then Some(FRESH)
    else
      match Run(steps[..|steps| - 1])
      case None => None
      case Some(s) => if Enabled(s, steps[|steps| - 1]) then Some(Apply(s, steps[|steps| - 1])) else None
  }

  lemma RunGrows(steps: seq<Step>, step: Step)
    requires Run(steps).Some? && Enabled(Run(steps).value, step)
    ensures Run(steps + [step]) == Some(Apply(Run(steps).value, step))
  {
    assert (steps + [step])[..|steps|] == steps;
  }

  // ---------- the object ----------

  class ProviderRegistryService {
    var disposed: bool
    var snapshot: Option<Snapshot>
    var phase: Phase               // where the loop stands; Idle while no refresh is in flight
    var requestedGeneration: nat
    var completedGeneration: nat
    var refreshWaiters: seq<Waiter>
    var now: nat
    ghost var view: Service
    ghost var log: seq<Step>

    /** The fields hold what `view` says. */
    ghost predicate Holds()
      reads this
    {
      && disposed == view.disposed && snapshot == view.snapshot && phase == view.phase
      && requestedGeneration == view.requestedGeneration && completedGeneration == view.completedGeneration
      && refreshWaiters == view.waiters && now == view.now
    }

    /** ... and `view` is where the steps taken so far lead. */
    ghost predicate Valid()
      reads this
    {
      Holds() && Run(log) == Some(view)
    }

    constructor ()
      ensures Valid() && view == FRESH && log == []
    {
      disposed, snapshot, phase, requestedGeneration, completedGeneration := false, None, Idle, 0, 0;
      refreshWaiters, now := [], 1;
      view, log := FRESH, [];
    }

    /** Notes that the steps so far were followed by `step`, which has led from `before` to here. */
    ghost method Record(step: Step, before: Service)
      requires Holds() && Run(log) == Some(before) && Enabled(before, step) && view == Apply(before, step)
      modifies this`log
      ensures Valid() && log == old(log) + [step]
    {
      hide Apply, Enabled, Run;
      RunGrows(log, step);
      log := log + [step];
    }

    /** The waiters up to the round's generation get their outcome, the others stay. */
    method SettleRefreshWaiters(round: Round, ghost read: Option<Snapshot>, outcome: Outcome)
      requires Holds()
      modifies this`refreshWaiters, this`view
      ensures Holds() && view == SettleWaiters(old(view), round, read, outcome)
    {
      var _, remaining := Partition(refreshWaiters, round.generation);
      view := SettleWaiters(view, round, read, outcome);
      refreshWaiters := remaining;
    }

    method BeginRound()
      requires Holds()
      modifies this`phase, this`now, this`view
      ensures Holds() && view == RoundBegun(old(view))
    {
      phase := AwaitSources(Round(requestedGeneration, now));
      now := now + 1;
      view := RoundBegun(view);
    }

    method EnsureRefreshLoop()
      requires Holds()
      modifies this`phase, this`now, this`view
      ensures Holds() && view == LoopEnsured(old(view))
    {
      if !phase.Idle? || disposed { return; }
      if completedGeneration < requestedGeneration {
        BeginRound();
      } else {
        phase := Ended;
        view := view.(phase := Ended);
      }
    }

    method RequestRefresh()
      requires Valid() && !disposed
      modifies this
      ensures Valid() && view == Apply(old(view), Request) && log == old(log) + [Request]
    {
      hide Run;
      requestedGeneration := requestedGeneration + 1;
      refreshWaiters := refreshWaiters + [Waiter(requestedGeneration, now)];
      now := now + 1;
      view := view.(requestedGeneration := requestedGeneration, waiters := refreshWaiters, now := now);
      EnsureRefreshLoop();
      Record(Request, old(view));
    }

    method CompleteRound(round: Round, ghost read: Option<Snapshot>, outcome: Outcome, next: Phase)
      requires Holds()
      modifies this`completedGeneration, this`refreshWaiters, this`phase, this`view
      ensures Holds() && view == Completed(old(view), round, read, outcome).(phase := next)
    {
      completedGeneration := round.generation;
      view := view.(completedGeneration := round.generation);
      SettleRefreshWaiters(round, read, outcome);
      phase := next;
      view := view.(phase := next);
    }

    method OnSourcesRead(read: Option<Snapshot>, resolvable: bool)
      requires Valid() && phase.AwaitSources?
      modifies this
      ensures Valid() && view == Apply(old(view), SourcesRead(read, resolvable))
      ensures log == old(log) + [SourcesRead(read, resolvable)]
    {
      hide Run;
      TakeSources(read, resolvable);
      Record(SourcesRead(read, resolvable), old(view));
    }

    method TakeSources(read: Option<Snapshot>, resolvable: bool)
      requires Holds() && phase.AwaitSources?
      modifies this`snapshot, this`completedGeneration, this`refreshWaiters, this`phase, this`view
      ensures Holds() && view == SourcesArrived(old(view), read, resolvable)
    {
      var round := phase.round;
      if round.generation < requestedGeneration {
        phase := Head;
        view := view.(phase := Head);
      } else if read.None? {
        CompleteRound(round, read, Refused, Ended);
      } else if disposed {
        SettleRefreshWaiters(Round(requestedGeneration, round.begunAt), read, Refused);
        phase := Ended;
        view := view.(phase := Ended);
      } else if !Consistent(read.value) {
        OnMismatch(round, read);
      } else if SameRevisions(snapshot, read.value) {
        CompleteRound(round, read, FromSources(snapshot.value), Head);
      } else if !resolvable {
        CompleteRound(round, read, Refused, Ended);
      } else {
        snapshot := read;
        view := view.(snapshot := read, published := view.published + [read.value]);
        CompleteRound(round, read, FromSources(read.value), Head);
      }
    }

    /** The account overlay rests on another built-in revision: the old snapshot keeps serving. */
    method OnMismatch(round: Round, ghost read: Option<Snapshot>)
      requires Holds()
      modifies this`completedGeneration, this`refreshWaiters, this`phase, this`view
      ensures Holds()
      ensures view == if snapshot.Some?
                      then Completed(old(view), round, read, LastComplete(snapshot.value)).(phase := Head)
                      else old(view).(completedGeneration := round.generation, phase := Head)
    {
      if snapshot.Some? {
        CompleteRound(round, read, LastComplete(snapshot.value), Head);
      } else {
        completedGeneration := round.generation;
        phase := Head;
        view := view.(completedGeneration := round.generation, phase := Head);
      }
    }

    method ContinueLoop()
      requires Valid() && phase.Head?
      modifies this
      ensures Valid() && view == Apply(old(view), Continue) && log == old(log) + [Continue]
    {
      hide Run;
      if completedGeneration < requestedGeneration {
        BeginRound();
      } else {
        phase := Ended;
        view := view.(phase := Ended);
      }
      Record(Continue, old(view));
    }

    method FinishRefresh()
      requires Valid() && phase.Ended?
      modifies this
      ensures Valid() && view == Apply(old(view), Finish) && log == old(log) + [Finish]
    {
      hide Run;
      phase := Idle;
      view := view.(phase := Idle);
      if completedGeneration < requestedGeneration { EnsureRefreshLoop(); }
      Record(Finish, old(view));
    }

    method DisposeService()
      requires Valid()
      modifies this
      ensures Valid() && view == Apply(old(view), Step.Dispose) && log == old(log) + [Step.Dispose]
    {
      hide Run;
      if !disposed {
        disposed := true;
        view := Disposed(view);
        refreshWaiters := [];
      }
      Record(Step.Dispose, old(view));
    }
  }
}
