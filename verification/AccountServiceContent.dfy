/** What the snapshots of the account service contain, told by the steps of the run alone: what the
    resolver answered in the round of the publication, or nothing at all for the account providers of the
    configuration that was read. */
module AccountServiceContent {
  import opened Wrappers
  import opened CelText
  import opened RefreshWaiters
  import opened ProviderEntitlement
  import opened AccountService
  import opened AccountServiceSafety

  /** Steps that may come between the reads of a round. */
  predicate Beside(step: Step) { step.Request? || step.Dispose? }

  /** Step `a` read the configuration, and no later step belongs to the loop. */
  ghost predicate ReadAt(steps: seq<Step>, a: nat, config: Config) {
    && a < |steps| && steps[a] == ConfigRead(Some(config))
    && forall j | a < j < |steps| :: Beside(steps[j])
  }

  /** Step `a` read the configuration, step `b` resolved it, and no other step since `a` belongs to the loop. */
  ghost predicate ResolvedAt(steps: seq<Step>, a: nat, b: nat, config: Config, resolution: Resolution) {
    && a < b < |steps| && steps[a] == ConfigRead(Some(config)) && steps[b] == Step.Resolve(Some(resolution))
    && forall j | a < j < |steps| && j != b :: Beside(steps[j])
  }

  /** After the steps `before`, the second read of the same revision makes a snapshot of exactly what the
      resolver answered in this round. */
  ghost predicate ResolvedBy(before: seq<Step>, step: Step, snapshot: Snapshot) {
    && step.CurrentRead? && step.read.Some?
    && exists a, b, config, resolution ::
         && ResolvedAt(before, a, b, config, resolution)
         && config.builtinRevision == step.read.value.builtinRevision
         && snapshot.basedOn == config.builtinRevision
         && snapshot.providers == resolution.providers && snapshot.states == Some(resolution.states)
  }

  /** Exactly the account providers of the configuration, none of them entitled. */
  ghost predicate NobodyEntitled(snapshot: Snapshot, config: Config) {
    && snapshot.basedOn == config.builtinRevision && snapshot.states.None?
    && snapshot.providers.Keys == config.accountProviders
    && forall id <- snapshot.providers :: snapshot.providers[id] == Overlay(Some(AccountAccess(Some(false))), None)
  }

  /** After the steps `before`, a failing step makes the snapshot that entitles nobody. */
  ghost predicate ClosedBy(before: seq<Step>, step: Step, snapshot: Snapshot) {
    exists config ::
      && NobodyEntitled(snapshot, config)
      && if step.Resolve? then exists a :: ReadAt(before, a, config)
         else step.CurrentRead? && exists a, b, resolution :: ResolvedAt(before, a, b, config, resolution)
  }

  ghost predicate MadeBy(before: seq<Step>, step: Step, p: Publication) {
    if p.current.Some? then
      ResolvedBy(before, step, p.snapshot) && p.current == Some(step.read.value.builtinRevision)
    else ClosedBy(before, step, p.snapshot)
  }

  ghost predicate Made(steps: seq<Step>, p: Publication) {
    exists k: nat | k < |steps| :: MadeBy(steps[..k], steps[k], p)
  }

  ghost predicate GivenBy(before: seq<Step>, step: Step, snapshot: Snapshot) {
    ResolvedBy(before, step, snapshot) || ClosedBy(before, step, snapshot)
  }

  ghost predicate Given(steps: seq<Step>, answer: Answer) {
    answer.outcome.Answered? ==>
      exists k: nat | k < |steps| :: GivenBy(steps[..k], steps[k], answer.outcome.snapshot)
  }

  /** The phase remembers the reads of its round. */
  ghost predicate Remembers(steps: seq<Step>, phase: Phase) {
    match phase
    case AwaitResolve(_, config) => exists a :: ReadAt(steps, a, config)
    case AwaitCurrent(_, config, resolution) => exists a, b :: ResolvedAt(steps, a, b, config, resolution)
    case _ => true
  }

  ghost predicate Traced(steps: seq<Step>, s: Service) {
    && Remembers(steps, s.phase)
    && (forall p <- s.published :: Made(steps, p))
    && (forall x <- s.settled :: Given(steps, x.outcome))
    && (forall i | 0 <= i < |s.published| :: s.published[i].current.None? ==> i == 0)
  }

  lemma PrefixStays(steps: seq<Step>, step: Step, k: nat)
    requires k < |steps|
    ensures (steps + [step])[..k] == steps[..k] && (steps + [step])[k] == steps[k]
  {
  }

  lemma MadeStays(steps: seq<Step>, step: Step, p: Publication)
    requires Made(steps, p)
    ensures Made(steps + [step], p)
  {
    hide MadeBy;
    var k: nat :| k < |steps| && MadeBy(steps[..k], steps[k], p);
    PrefixStays(steps, step, k);
  }

  lemma GivenStays(steps: seq<Step>, step: Step, answer: Answer)
    requires Given(steps, answer)
    ensures Given(steps + [step], answer)
  {
    hide GivenBy;
    if answer.outcome.Answered? {
      var k: nat :| k < |steps| && GivenBy(steps[..k], steps[k], answer.outcome.snapshot);
      PrefixStays(steps, step, k);
    }
  }

  lemma MadeNow(steps: seq<Step>, step: Step, p: Publication)
    requires MadeBy(steps, step, p)
    ensures Made(steps + [step], p)
  {
    hide MadeBy;
    assert (steps + [step])[..|steps|] == steps;
  }

  lemma GivenNow(steps: seq<Step>, step: Step, answer: Answer)
    requires answer.outcome.Answered? ==> GivenBy(steps, step, answer.outcome.snapshot)
    ensures Given(steps + [step], answer)
  {
    hide GivenBy;
    assert (steps + [step])[..|steps|] == steps;
  }

  /** What was published and settled before is still accounted for, whatever the step. */
  lemma OldStays(steps: seq<Step>, step: Step, s: Service)
    requires Traced(steps, s)
    ensures forall p <- s.published :: Made(steps + [step], p)
    ensures forall x <- s.settled :: Given(steps + [step], x.outcome)
  {
    hide Made, Given;
    forall p <- s.published
      ensures Made(steps + [step], p)
    {
      MadeStays(steps, step, p);
    }
    forall x <- s.settled
      ensures Given(steps + [step], x.outcome)
    {
      GivenStays(steps, step, x.outcome);
    }
  }

  /** Settling a round with an outcome that the step gives. */
  lemma SettledTraced(steps: seq<Step>, step: Step, s: Service, round: Round, outcome: Outcome)
    requires forall x <- s.settled :: Given(steps + [step], x.outcome)
    requires outcome.Answered? ==> GivenBy(steps, step, outcome.snapshot)
    ensures forall x <- SettleWaiters(s, round, outcome).settled :: Given(steps + [step], x.outcome)
  {
    hide Given, GivenBy;
    GivenNow(steps, step, Answer(outcome, |s.published|));
  }

  lemma PublishedTraced(steps: seq<Step>, step: Step, s: Service, next: Snapshot, round: Round,
                        current: Option<Revision>)
    requires Traced(steps, s) && (current.None? ==> s.published == [])
    requires MadeBy(steps, step, Publication(next, round.begunAt, s.lastAskedAt, current))
    ensures Traced(steps + [step], Published(s, next, round, current))
  {
    hide Made, Given, ResolvedBy, ClosedBy;
    var p := Publication(next, round.begunAt, s.lastAskedAt, current);
    OldStays(steps, step, s);
    MadeNow(steps, step, p);
    var noted := s.(snapshot := Some(next), latest := Some(next), published := s.published + [p]);
    SettledTraced(steps, step, noted, round, Answered(next));
  }

  lemma FailedTraced(steps: seq<Step>, step: Step, s: Service, round: Round, config: Option<Config>)
    requires Traced(steps, s) && Inv(s) && !s.phase.Idle?
    requires config.Some? ==> ClosedBy(steps, step, FailClosed(config.value))
    ensures Traced(steps + [step], Failed(s, round, config))
  {
    hide Made, Given, ClosedBy, ResolvedBy, FailClosed;
    if s.latest.None? && config.Some? {
      PublishedTraced(steps, step, s, FailClosed(config.value), round, None);
    } else {
      OldStays(steps, step, s);
      SettledTraced(steps, step, s, round, Refused);
    }
  }

  /** Steps beside the loop leave what it remembers. */
  lemma RememberedBeside(steps: seq<Step>, step: Step, phase: Phase)
    requires Remembers(steps, phase) && Beside(step)
    ensures Remembers(steps + [step], phase)
  {
    match phase
    case AwaitResolve(_, config) =>
      var a :| ReadAt(steps, a, config);
      assert ReadAt(steps + [step], a, config);
    case AwaitCurrent(_, config, resolution) =>
      var a, b :| ResolvedAt(steps, a, b, config, resolution);
      assert ResolvedAt(steps + [step], a, b, config, resolution);
    case _ =>
  }

  lemma ClosedIs(config: Config)
    ensures NobodyEntitled(FailClosed(config), config)
  {
  }

  lemma ConfigTraced(steps: seq<Step>, s: Service, read: Option<Config>)
    requires Traced(steps, s) && Inv(s) && s.phase.AwaitConfig?
    ensures Traced(steps + [ConfigRead(read)], ConfigArrived(s, read))
  {
    hide Made, Given;
    if read.None? {
      FailedTraced(steps, ConfigRead(read), s, s.phase.round, None);
    } else {
      OldStays(steps, ConfigRead(read), s);
      assert ReadAt(steps + [ConfigRead(read)], |steps|, read.value);
    }
  }

  lemma ResolveTraced(steps: seq<Step>, s: Service, answer: Option<Resolution>)
    requires Traced(steps, s) && Inv(s) && s.phase.AwaitResolve?
    ensures Traced(steps + [Step.Resolve(answer)], ResolutionArrived(s, answer))
  {
    hide Made, Given, NobodyEntitled;
    var config := s.phase.config;
    var a :| ReadAt(steps, a, config);
    if answer.None? || s.disposed {
      ClosedIs(config);
      FailedTraced(steps, Step.Resolve(answer), s, s.phase.round, Some(config));
    } else {
      OldStays(steps, Step.Resolve(answer), s);
      assert ResolvedAt(steps + [Step.Resolve(answer)], a, |steps|, config, answer.value);
    }
  }

  lemma CurrentTraced(steps: seq<Step>, s: Service, read: Option<Config>)
    requires Traced(steps, s) && Inv(s) && s.phase.AwaitCurrent?
    ensures Traced(steps + [CurrentRead(read)], CurrentArrived(s, read))
  {
    hide Made, Given, NobodyEntitled, ResolvedAt, Inv;
    var AwaitCurrent(round, config, resolution) := s.phase;
    var a, b :| ResolvedAt(steps, a, b, config, resolution);
    var step := CurrentRead(read);
    ClosedIs(config);
    if read.None? || s.disposed {
      FailedTraced(steps, step, s, round, Some(config));
    } else if s.pendingReasons != {} || read.value.builtinRevision != config.builtinRevision {
      OldStays(steps, step, s);
    } else {
      CurrentResolved(steps, s, read.value, a, b);
    }
  }

  lemma CurrentResolved(steps: seq<Step>, s: Service, read: Config, a: nat, b: nat)
    requires Traced(steps, s) && s.phase.AwaitCurrent? && !s.disposed && s.pendingReasons == {}
    requires read.builtinRevision == s.phase.config.builtinRevision
    requires ResolvedAt(steps, a, b, s.phase.config, s.phase.resolution)
    ensures Traced(steps + [CurrentRead(Some(read))], CurrentArrived(s, Some(read)))
  {
    hide Made, Given, NobodyEntitled, ResolvedAt;
    var AwaitCurrent(round, config, resolution) := s.phase;
    var step := CurrentRead(Some(read));
    var next := Snapshot(config.builtinRevision, resolution.providers, Some(resolution.states));
    assert ResolvedBy(steps, step, next);
    if s.latest == Some(next) {
      OldStays(steps, step, s);
      SettledTraced(steps, step, s, round, Answered(next));
    } else {
      PublishedTraced(steps, step, s, next, round, Some(read.builtinRevision));
    }
  }

  lemma DisposeTraced(steps: seq<Step>, s: Service)
    requires Traced(steps, s)
    ensures Traced(steps + [Step.Dispose], Disposed(s))
  {
    hide Made, GivenBy;
    OldStays(steps, Step.Dispose, s);
    RememberedBeside(steps, Step.Dispose, s.phase);
  }

  lemma RequestTraced(steps: seq<Step>, s: Service, reason: Reason)
    requires Traced(steps, s)
    ensures Traced(steps + [Request(reason)], Requested(s, reason))
  {
    hide Made, Given;
    OldStays(steps, Request(reason), s);
    RememberedBeside(steps, Request(reason), s.phase);
  }

  lemma StepTraced(steps: seq<Step>, s: Service, step: Step)
    requires Traced(steps, s) && Inv(s) && Enabled(s, step)
    ensures Traced(steps + [step], Apply(s, step))
  {
    hide Made, Given, Inv;
    match step
    case Request(reason) => RequestTraced(steps, s, reason);
    case ConfigRead(read) => ConfigTraced(steps, s, read);
    case Resolve(answer) => ResolveTraced(steps, s, answer);
    case CurrentRead(read) => CurrentTraced(steps, s, read);
    case Continue => OldStays(steps, step, s);
    case Finish => OldStays(steps, step, s);
    case Dispose => DisposeTraced(steps, s);
  }

  lemma {:induction false} RunTraced(steps: seq<Step>)
    requires Run(steps).Some?
    ensures Traced(steps, Run(steps).value)
    decreases |steps|
  {
    hide Made, Given, Inv, Enabled, Apply;
    if steps != [] {
      var before, step := steps[..|steps| - 1], steps[|steps| - 1];
      RunTraced(before);
      RunInv(before);
      StepTraced(before, Run(before).value, step);
      assert before + [step] == steps;
    }
  }

  /** A publication from a resolution has exactly the providers and states that the resolver answered in
      its own round, and is based on the revision read before and after.  A publication from a failure is
      the first of all and covers exactly the account providers that the configuration of its round has,
      none of them entitled. */
  lemma PublicationContent(steps: seq<Step>, i: nat)
    requires Run(steps).Some? && i < |Run(steps).value.published|
    ensures
      var p := Run(steps).value.published[i];
      exists k: nat | k < |steps| ::
        if p.current.Some? then
          ResolvedBy(steps[..k], steps[k], p.snapshot) && p.current == Some(steps[k].read.value.builtinRevision)
        else i == 0 && ClosedBy(steps[..k], steps[k], p.snapshot)
  {
    hide ResolvedBy, ClosedBy;
    RunTraced(steps);
    assert Made(steps, Run(steps).value.published[i]);
  }

  /** Likewise whatever a request is answered with, also when it is the snapshot already held. */
  lemma AnswerContent(steps: seq<Step>, i: nat)
    requires Run(steps).Some? && i < |Run(steps).value.settled|
    requires Run(steps).value.settled[i].outcome.outcome.Answered?
    ensures
      var snapshot := Run(steps).value.settled[i].outcome.outcome.snapshot;
      exists k: nat | k < |steps| ::
        ResolvedBy(steps[..k], steps[k], snapshot) || ClosedBy(steps[..k], steps[k], snapshot)
  {
    hide ResolvedBy, ClosedBy;
    RunTraced(steps);
    assert Given(steps, Run(steps).value.settled[i].outcome);
  }

  // ---------- which rounds publish ----------

  /** What a round settles: the waiters up to its generation, all with the same outcome. */
  ghost predicate SettlesWith(s: Service, t: Service, round: Round, outcome: Outcome) {
    && s.settled <= t.settled
    && (forall i | |s.settled| <= i < |t.settled| :: t.settled[i].outcome.outcome == outcome)
    && (forall w <- s.waiters :: w.generation > round.generation <==> w in t.waiters)
    && |t.settled| + |t.waiters| == |s.settled| + |s.waiters|
  }

  lemma {:induction false} BeyondAre(ws: seq<Waiter>, generation: nat)
    ensures forall w <- ws :: w.generation > generation <==> w in Beyond(ws, generation)
    ensures forall w <- Beyond(ws, generation) :: w in ws && w.generation > generation
    ensures |Upto(ws, generation)| + |Beyond(ws, generation)| == |ws|
  {
    if ws != [] {
      BeyondAre(ws[1..], generation);
      assert ws == [ws[0]] + ws[1..];
    }
  }

  lemma SettlingIs(s: Service, round: Round, outcome: Outcome)
    ensures SettlesWith(s, SettleWaiters(s, round, outcome), round, outcome)
  {
    BeyondAre(s.waiters, round.generation);
  }

  /** A step of the loop that finds an error: a failed read, or the service disposed meanwhile. */
  predicate Fails(s: Service, step: Step) {
    match step
    case ConfigRead(read) => s.phase.AwaitConfig? && read.None?
    case Resolve(answer) => s.phase.AwaitResolve? && (answer.None? || s.disposed)
    case CurrentRead(read) => s.phase.AwaitCurrent? && (read.None? || s.disposed)
    case _ => false
  }

  /** The first failure after a configuration was read publishes that nobody is entitled and answers its
      requests with it; every other failure keeps the snapshot, refuses its requests and ends the loop. */
  lemma FailureAnswers(s: Service, step: Step)
    requires Inv(s) && Fails(s, step)
    ensures Enabled(s, step)
    ensures
      var t := Apply(s, step);
      if s.snapshot.None? && !step.ConfigRead? then
        && t.snapshot.Some? && NobodyEntitled(t.snapshot.value, s.phase.config) && t.phase.Head?
        && SettlesWith(s, t, s.phase.round, Answered(t.snapshot.value))
      else
        && t.snapshot == s.snapshot && t.published == s.published && t.phase == Ended(true)
        && SettlesWith(s, t, s.phase.round, Refused)
  {
    hide NobodyEntitled, Upto, Beyond;
    SettlingIs(s, s.phase.round, Refused);
    if s.snapshot.None? && !step.ConfigRead? {
      ClosedIs(s.phase.config);
      SettlingIs(s, s.phase.round, Answered(FailClosed(s.phase.config)));
    }
  }

  /** The reads of a live round that succeed move it on and change nothing else. */
  lemma ReadsMoveOn(s: Service, config: Config, resolution: Resolution)
    requires !s.disposed
    ensures s.phase.AwaitConfig? ==>
              Apply(s, ConfigRead(Some(config))) == s.(phase := AwaitResolve(s.phase.round, config))
    ensures s.phase.AwaitResolve? ==>
              Apply(s, Step.Resolve(Some(resolution)))
              == s.(phase := AwaitCurrent(s.phase.round, s.phase.config, resolution))
  {
  }

  /** A live round that nothing overtook holds, after its second read, the snapshot of what was resolved,
      has answered everyone with it, published it unless it was held already, and ends the loop. */
  lemma RoundAnswers(s: Service, read: Config)
    requires Inv(s) && s.phase.AwaitCurrent? && !s.disposed && s.pendingReasons == {}
    requires read.builtinRevision == s.phase.config.builtinRevision
    ensures
      var t := Apply(s, CurrentRead(Some(read)));
      var resolution := s.phase.resolution;
      var next := Snapshot(read.builtinRevision, resolution.providers, Some(resolution.states));
      && t.snapshot == Some(next) && t.waiters == []
      && SettlesWith(s, t, s.phase.round, Answered(next))
      && (if s.snapshot == Some(next) then t.published == s.published
          else |t.published| == |s.published| + 1 && t.published[|s.published|].snapshot == next)
      && Enabled(t, Continue) && Apply(t, Continue).phase == Ended(false)
  {
    hide Upto, Beyond;
    var resolution := s.phase.resolution;
    var next := Snapshot(read.builtinRevision, resolution.providers, Some(resolution.states));
    SettlingIs(s, s.phase.round, Answered(next));
    CurrentInv(s, Some(read));
  }

  /** A request to a live idle service, and a round that nothing disturbs: the request, and it alone, is
      answered with what the resolver gives in that round. */
  lemma QuietRefresh(s: Service, reason: Reason, config: Config, resolution: Resolution)
    requires Inv(s) && s.phase.Idle? && !s.disposed
    ensures
      var next := Snapshot(config.builtinRevision, resolution.providers, Some(resolution.states));
      var t := Apply(Apply(Apply(Apply(s, Request(reason)), ConfigRead(Some(config))),
                           Step.Resolve(Some(resolution))), CurrentRead(Some(config)));
      && t.snapshot == Some(next) && t.waiters == [] && |t.settled| == |s.settled| + 1
      && t.settled[|s.settled|].waiter == Waiter(s.requestedGeneration + 1, s.now)
      && t.settled[|s.settled|].outcome.outcome == Answered(next)
  {
    hide Upto, Beyond, Histories, KeepsLatest;
    var asked := Apply(s, Request(reason));
    StepInv(s, Request(reason));
    ReadsMoveOn(asked, config, resolution);
    var resolving := Apply(asked, ConfigRead(Some(config)));
    StepInv(asked, ConfigRead(Some(config)));
    ReadsMoveOn(resolving, config, resolution);
    var reading := Apply(resolving, Step.Resolve(Some(resolution)));
    StepInv(resolving, Step.Resolve(Some(resolution)));
    RoundAnswers(reading, config);
    OnlyOne(reading.waiters, reading.phase.round.generation);
  }
}
