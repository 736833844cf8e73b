/** The service that keeps the account overlay fresh: one refresh loop at a time, requests that wait
    for a round begun after them, and a snapshot that only complete rounds replace.

    The loop gives up control at each of its three reads, so it is a machine with one step per stretch
    between them; anything else may happen in between. */
module AccountService {
  import opened Wrappers
  import opened CelText
  import opened RefreshWaiters
  import opened ProviderEntitlement

  type Revision = Text
  type Reason = Text

  /** What the service uses of a configuration: its built-in revision and its account providers. */
  datatype Config = Config(builtinRevision: Revision, accountProviders: set<ProviderId>)

  /** A snapshot's revision is the text of these three, so equal revisions mean equal snapshots. */
  datatype Snapshot = Snapshot(
    basedOn: Revision, providers: map<ProviderId, Overlay>, states: Option<map<ProviderId, AccountState>>)

  datatype Resolution = Resolution(providers: map<ProviderId, Overlay>, states: map<ProviderId, AccountState>)

  datatype Phase =
    | Idle
    | AwaitConfig(round: Round)
    | AwaitResolve(round: Round, config: Config)
    | AwaitCurrent(round: Round, config: Config, resolution: Resolution)
    | Head
    | Ended(failed: bool)

  datatype Outcome = Answered(snapshot: Snapshot) | Refused

  /** How a request ended, and how many snapshots had been published by then, which is a history. */
  datatype Answer = Answer(outcome: Outcome, known: nat)

  /** A published snapshot, the round that made it, the last request before it, and the revision the
      configuration had at that moment unless nothing was resolved. */
  datatype Publication = Publication(snapshot: Snapshot, begunAt: nat, lastAskedAt: nat, current: Option<Revision>)

  /** `now` counts the moments at which rounds begin and requests are made; `lastAskedAt`, `settled` and
      `published` are histories. */
  datatype Service = Service(
    disposed: bool, snapshot: Option<Snapshot>, latest: Option<Snapshot>, phase: Phase,
    requestedGeneration: nat, pendingReasons: set<Reason>, waiters: seq<Waiter>,
    now: nat, lastAskedAt: nat, settled: seq<Settlement<Answer>>, published: seq<Publication>)

  const FRESH := Service(false, None, None, Idle, 0, {}, [], 1, 0, [], [])

  const SUPERSEDED: Reason := [115]

  /** What read() gives its caller: the snapshot, the result of the loop under way, or a new request. */
  datatype Reading = Have(snapshot: Snapshot) | Joins | Asks

  const START: Reason := [116]

  datatype Step =
    | Request(reason: Reason)
    | ConfigRead(read: Option<Config>)
    | Resolve(answer: Option<Resolution>)
    | CurrentRead(read: Option<Config>)
    | Continue
    | Finish
    | Dispose

  // ---------- the steps ----------

  function FailClosed(config: Config): Snapshot {
    Snapshot(config.builtinRevision, map id | id in config.accountProviders :: Granting(false), None)
  }

  /** resolveRefreshWaiters and rejectRefreshWaiters. */
  function SettleWaiters(s: Service, round: Round, outcome: Outcome): Service {
    s.(waiters := Beyond(s.waiters, round.generation),
       settled := s.settled + Settlements(Upto(s.waiters, round.generation), Answer(outcome, |s.published|),
                                          Some(round.begunAt)))
  }

  /** A round takes up every request made so far. */
  function RoundBegun(s: Service): Service {
    s.(phase := AwaitConfig(Round(s.requestedGeneration, s.now)), pendingReasons := {}, now := s.now + 1)
  }

  function LoopStarted(s: Service): Service {
    RoundBegun(s.(latest := s.snapshot))
  }

  function Requested(s: Service, reason: Reason): Service {
    var asked := s.(requestedGeneration := s.requestedGeneration + 1, pendingReasons := s.pendingReasons + {reason},
                    waiters := s.waiters + [Waiter(s.requestedGeneration + 1, s.now)],
                    lastAskedAt := s.now, now := s.now + 1);
    if s.phase.Idle? then LoopStarted(asked) else asked
  }

  function Published(s: Service, next: Snapshot, round: Round, current: Option<Revision>): Service {
    SettleWaiters(
      s.(snapshot := Some(next), latest := Some(next),
         published := s.published + [Publication(next, round.begunAt, s.lastAskedAt, current)]),
      round, Answered(next)).(phase := Head)
  }

  /** The error path: without any snapshot yet, but with a configuration, nobody is entitled;
      otherwise the last good snapshot stays and the round's requests fail. */
  function Failed(s: Service, round: Round, config: Option<Config>): Service {
    if s.latest.None? && config.Some? then Published(s, FailClosed(config.value), round, None)
    else SettleWaiters(s, round, Refused).(phase := Ended(true))
  }

  function ConfigArrived(s: Service, read: Option<Config>): Service
    requires s.phase.AwaitConfig?
  {
    if read.None? then Failed(s, s.phase.round, None) else s.(phase := AwaitResolve(s.phase.round, read.value))
  }

  function ResolutionArrived(s: Service, answer: Option<Resolution>): Service
    requires s.phase.AwaitResolve?
  {
    if answer.None? || s.disposed then Failed(s, s.phase.round, Some(s.phase.config))
    else s.(phase := AwaitCurrent(s.phase.round, s.phase.config, answer.value))
  }

  /** A round that anything overtook publishes nothing and is repeated. */
  function CurrentArrived(s: Service, read: Option<Config>): Service
    requires s.phase.AwaitCurrent?
  {
    var AwaitCurrent(round, config, resolution) := s.phase;
    if read.None? || s.disposed then Failed(s, round, Some(config))
    else if s.pendingReasons != {} || read.value.builtinRevision != config.builtinRevision then
      s.(pendingReasons := s.pendingReasons + {SUPERSEDED}, phase := Head)
    else
      var next := Snapshot(config.builtinRevision, resolution.providers, Some(resolution.states));
      if s.latest == Some(next) then SettleWaiters(s, round, Answered(next)).(phase := Head)
      else Published(s, next, round, Some(read.value.builtinRevision))
  }

  function Continued(s: Service): Service {
    if s.pendingReasons != {} then RoundBegun(s) else s.(phase := Ended(false))
  }

  function Finished(s: Service): Service {
    var idle := s.(phase := Idle);
    if s.disposed || s.pendingReasons == {} then idle else LoopStarted(idle)
  }

  /** What the loop gives those who joined it: its latest snapshot, or the error of its last round. */
  function LoopAnswer(s: Service): Option<Snapshot>
    requires s.phase.Ended?
  {
    if s.phase.failed then None else s.latest
  }

  function Disposed(s: Service): Service {
    if s.disposed then s
    else
      s.(disposed := true, waiters := [],
         settled := s.settled + Settlements(s.waiters, Answer(Refused, |s.published|), None))
  }

  predicate Enabled(s: Service, step: Step) {
    match step
    case Request(_) => !s.disposed
    case ConfigRead(_) => s.phase.AwaitConfig?
    case Resolve(_) => s.phase.AwaitResolve?
    case CurrentRead(_) => s.phase.AwaitCurrent?
    case Continue => s.phase.Head?
    case Finish => s.phase.Ended?
    case Dispose => true
  }

  function Apply(s: Service, step: Step): Service
    requires Enabled(s, step)
  {
    match step
    case Request(reason) => Requested(s, reason)
    case ConfigRead(read) => ConfigArrived(s, read)
    case Resolve(answer) => ResolutionArrived(s, answer)
    case CurrentRead(read) => CurrentArrived(s, read)
    case Continue => Continued(s)
    case Finish => Finished(s)
    case Dispose => Disposed(s)
  }

  function Run(steps: seq<Step>): Option<Service> {
    if steps == [] then Some(FRESH)
    else
      match Run(steps[..|steps| - 1])
      case None => None
      case Some(s) => if Enabled(s, steps[|steps| - 1]) then Some(Apply(s, steps[|steps| - 1])) else None
  }

  lemma RunGrows(steps: seq<Step>, step: Step)
    requires Run(steps).Some? && Enabled(Run(steps).value, step)
    ensures Run(steps + [step]) == Some(Apply(Run(steps).value, step))
  {
    assert (steps + [step])[..|steps|] == steps;
  }

  // ---------- the object ----------

  class AccountProviderService {
    var disposed: bool
    var snapshot: Option<Snapshot>
    var latest: Option<Snapshot>   // the loop's own variable
    var phase: Phase               // where the loop stands; Idle while no refresh is in flight
    var requestedGeneration: nat
    var pendingReasons: set<Reason>
    var refreshWaiters: seq<Waiter>
    var now: nat
    ghost var view: Service
    ghost var log: seq<Step>

    /** The fields hold what `view` says. */
    ghost predicate Holds()
      reads this
    {
      && disposed == view.disposed && snapshot == view.snapshot && latest == view.latest && phase == view.phase
      && requestedGeneration == view.requestedGeneration && pendingReasons == view.pendingReasons
      && refreshWaiters == view.waiters && now == view.now
    }

    /** ... and `view` is where the steps taken so far lead. */
    ghost predicate Valid()
      reads this
    {
      Holds() && Run(log) == Some(view)
    }

    constructor ()
      ensures Valid() && view == FRESH && log == []
    {
      disposed, snapshot, latest, phase, requestedGeneration := false, None, None, Idle, 0;
      pendingReasons, refreshWaiters, now := {}, [], 1;
      view, log := FRESH, [];
    }

    /** Notes that the steps so far were followed by `step`, which has led from `before` to here. */
    ghost method Record(step: Step, before: Service)
      requires Holds() && Run(log) == Some(before) && Enabled(before, step) && view == Apply(before, step)
      modifies this`log
      ensures Valid() && log == old(log) + [step]
    {
      hide Apply, Enabled, Run;
      RunGrows(log, step);
      log := log + [step];
    }

    /** The waiters up to `generation` get their outcome, the others stay. */
    method SettleRefreshWaiters(round: Round, outcome: Outcome)
      requires Holds()
      modifies this`refreshWaiters, this`view
      ensures Holds() && view == SettleWaiters(old(view), round, outcome)
    {
      var _, remaining := Partition(refreshWaiters, round.generation);
      view := SettleWaiters(view, round, outcome);
      refreshWaiters := remaining;
    }

    method BeginRound()
      requires Holds()
      modifies this`phase, this`pendingReasons, this`now, this`view
      ensures Holds() && view == RoundBegun(old(view))
    {
      phase := AwaitConfig(Round(requestedGeneration, now));
      pendingReasons := {};
      now := now + 1;
      view := RoundBegun(view);
    }

    method StartRefresh()
      requires Holds()
      modifies this`latest, this`phase, this`pendingReasons, this`now, this`view
      ensures Holds() && view == LoopStarted(old(view))
    {
      latest := snapshot;
      view := view.(latest := snapshot);
      BeginRound();
    }

    method RequestRefresh(reason: Reason)
      requires Valid() && !disposed
      modifies this
      ensures Valid() && view == Apply(old(view), Request(reason)) && log == old(log) + [Request(reason)]
    {
      hide Run;
      requestedGeneration := requestedGeneration + 1;
      pendingReasons := pendingReasons + {reason};
      refreshWaiters := refreshWaiters + [Waiter(requestedGeneration, now)];
      view := view.(requestedGeneration := requestedGeneration, pendingReasons := pendingReasons,
                    waiters := refreshWaiters, lastAskedAt := now, now := now + 1);
      now := now + 1;
      if phase.Idle? { StartRefresh(); }
      Record(Request(reason), old(view));
    }

    /** A first read while a loop is under way joins it and is no new request. */
    method Read() returns (r: Reading)
      requires Valid() && !disposed
      modifies this
      ensures Valid()
      ensures r.Have? <==> old(snapshot).Some?
      ensures r.Have? ==> Some(r.snapshot) == old(snapshot)
      ensures r.Joins? <==> old(snapshot).None? && !old(phase).Idle?
      ensures view == if r.Asks? then Apply(old(view), Request(START)) else old(view)
      ensures log == if r.Asks? then old(log) + [Request(START)] else old(log)
    {
      hide Run;
      if snapshot.Some? { return Have(snapshot.value); }
      if !phase.Idle? { return Joins; }
      RequestRefresh(START);
      return Asks;
    }

    method Publish(next: Snapshot, round: Round, ghost current: Option<Revision>)
      requires Holds()
      modifies this`snapshot, this`latest, this`refreshWaiters, this`phase, this`view
      ensures Holds() && view == Published(old(view), next, round, current)
    {
      latest := Some(next);
      snapshot := latest;
      view := view.(snapshot := latest, latest := latest,
                    published := view.published + [Publication(next, round.begunAt, view.lastAskedAt, current)]);
      SettleRefreshWaiters(round, Answered(next));
      phase := Head;
      view := view.(phase := Head);
    }

    /** The catch clause of a round. */
    method Fail(round: Round, config: Option<Config>)
      requires Holds()
      modifies this`snapshot, this`latest, this`refreshWaiters, this`phase, this`view
      ensures Holds() && view == Failed(old(view), round, config)
    {
      if latest.None? && config.Some? {
        Publish(FailClosed(config.value), round, None);
        return;
      }
      SettleRefreshWaiters(round, Refused);
      phase := Ended(true);
      view := view.(phase := phase);
    }

    method OnConfigRead(read: Option<Config>)
      requires Valid() && phase.AwaitConfig?
      modifies this
      ensures Valid() && view == Apply(old(view), ConfigRead(read)) && log == old(log) + [ConfigRead(read)]
    {
      hide Run;
      if read.None? {
        Fail(phase.round, None);
      } else {
        phase := AwaitResolve(phase.round, read.value);
        view := view.(phase := phase);
      }
      Record(ConfigRead(read), old(view));
    }

    method OnResolved(answer: Option<Resolution>)
      requires Valid() && phase.AwaitResolve?
      modifies this
      ensures Valid() && view == Apply(old(view), Resolve(answer)) && log == old(log) + [Resolve(answer)]
    {
      hide Run;
      if answer.None? || disposed {
        Fail(phase.round, Some(phase.config));
      } else {
        phase := AwaitCurrent(phase.round, phase.config, answer.value);
        view := view.(phase := phase);
      }
      Record(Resolve(answer), old(view));
    }

    method OnCurrentConfigRead(read: Option<Config>)
      requires Valid() && phase.AwaitCurrent?
      modifies this
      ensures Valid() && view == Apply(old(view), CurrentRead(read)) && log == old(log) + [CurrentRead(read)]
    {
      hide Run;
      TakeCurrentConfig(read);
      Record(CurrentRead(read), old(view));
    }

    method TakeCurrentConfig(read: Option<Config>)
      requires Holds() && phase.AwaitCurrent?
      modifies this`snapshot, this`latest, this`refreshWaiters, this`phase, this`pendingReasons, this`view
      ensures Holds() && view == CurrentArrived(old(view), read)
    {
      var AwaitCurrent(round, config, resolution) := phase;
      if read.None? || disposed {
        Fail(round, Some(config));
        return;
      }
      if pendingReasons != {} || read.value.builtinRevision != config.builtinRevision {
        pendingReasons := pendingReasons + {SUPERSEDED};
        phase := Head;
        view := view.(pendingReasons := pendingReasons, phase := Head);
        return;
      }
      var next := Snapshot(config.builtinRevision, resolution.providers, Some(resolution.states));
      if latest == Some(next) {
        SettleRefreshWaiters(round, Answered(next));
        phase := Head;
        view := view.(phase := Head);
        return;
      }
      Publish(next, round, Some(read.value.builtinRevision));
    }

    /** The loop's test after a round and after the listeners of a publication have run. */
    method ContinueLoop()
      requires Valid() && phase.Head?
      modifies this
      ensures Valid() && view == Apply(old(view), Continue) && log == old(log) + [Continue]
    {
      hide Run;
      if pendingReasons != {} {
        BeginRound();
      } else {
        phase := Ended(false);
        view := view.(phase := phase);
      }
      Record(Continue, old(view));
    }

    /** The loop is over; `answer` is what it gives those who joined it, None for the error of its last
        round. */
    method FinishRefresh() returns (answer: Option<Snapshot>)
      requires Valid() && phase.Ended?
      modifies this
      ensures Valid() && view == Apply(old(view), Finish) && log == old(log) + [Finish]
      ensures answer == LoopAnswer(old(view))
    {
      hide Run;
      answer := if phase.failed then None else latest;
      phase := Idle;
      view := view.(phase := Idle);
      if !disposed && pendingReasons != {} { StartRefresh(); }
      Record(Finish, old(view));
    }

    method DisposeService()
      requires Valid()
      modifies this
      ensures Valid() && view == Apply(old(view), Step.Dispose) && log == old(log) + [Step.Dispose]
    {
      hide Run;
      if !disposed {
        disposed := true;
        view := Disposed(view);
        refreshWaiters := [];
      }
      Record(Step.Dispose, old(view));
    }
  }
}
