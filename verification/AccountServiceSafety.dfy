/** What every run of the account service keeps: no request is lost, each is settled once and by a round
    begun after it, and a round that was overtaken publishes nothing. */
module AccountServiceSafety {
  import opened Wrappers
  import opened CelText
  import opened RefreshWaiters
  import opened ProviderEntitlement
  import opened AccountService

  /** The snapshot was the last one published when `known` had been. */
  ghost predicate Latest(published: seq<Publication>, known: nat, snapshot: Snapshot) {
    0 < known <= |published| && published[known - 1].snapshot == snapshot
  }

  ghost predicate SettledAt(published: seq<Publication>, x: Settlement<Answer>) {
    && (x.outcome.outcome.Answered? ==> Latest(published, x.outcome.known, x.outcome.outcome.snapshot))
    && match x.begunAt
       case None => x.outcome.outcome == Refused
       case Some(begun) => x.waiter.askedAt < begun
  }

  /** What was resolved is based on the revision current at its publication, and nothing was asked for
      since its round began. */
  ghost predicate PublishedAt(p: Publication) {
    p.current.Some? ==> p.snapshot.basedOn == p.current.value && p.lastAskedAt < p.begunAt
  }

  ghost predicate Histories(settled: seq<Settlement<Answer>>, published: seq<Publication>) {
    && (forall x <- settled :: SettledAt(published, x))
    && (forall p <- published :: PublishedAt(p))
  }

  /** The round knows every request made before it; a later one is pending. */
  ghost predicate Covers(s: Service, round: Round) {
    && round.generation <= s.requestedGeneration
    && (forall w <- s.waiters :: Sees(round, w))
    && (s.pendingReasons == {} ==> round.generation == s.requestedGeneration && s.lastAskedAt < round.begunAt)
  }

  ghost predicate PhaseInv(s: Service) {
    match s.phase
    case Idle => s.disposed || (s.pendingReasons == {} && s.waiters == [])
    case AwaitConfig(round) => Covers(s, round)
    case AwaitResolve(round, _) => Covers(s, round)
    case AwaitCurrent(round, _, _) => Covers(s, round)
    case Head => s.waiters != [] || s.latest.None? ==> s.pendingReasons != {}
    case Ended(failed) => (s.waiters != [] ==> s.pendingReasons != {}) && (!failed ==> s.latest.Some?)
  }

  /** The snapshot that is kept is the one published last. */
  ghost predicate KeepsLatest(snapshot: Option<Snapshot>, published: seq<Publication>) {
    (snapshot.Some? <==> published != []) && (snapshot.Some? ==> Latest(published, |published|, snapshot.value))
  }

  ghost predicate Inv(s: Service) {
    && InOrder(s.settled, s.waiters, s.requestedGeneration)
    && Histories(s.settled, s.published)
    && PhaseInv(s)
    && s.lastAskedAt < s.now && (forall w <- s.waiters :: w.askedAt < s.now)
    && (s.disposed ==> s.waiters == [])
    && (!s.phase.Idle? ==> s.latest == s.snapshot)
    && KeepsLatest(s.snapshot, s.published)
  }

  lemma FreshInv()
    ensures Inv(FRESH)
  {
  }

  lemma SettledHistories(settled: seq<Settlement<Answer>>, published: seq<Publication>, done: seq<Waiter>,
                         answer: Answer, begunAt: Option<nat>)
    requires Histories(settled, published)
    requires answer.outcome.Answered? ==> Latest(published, answer.known, answer.outcome.snapshot)
    requires if begunAt.Some? then forall w <- done :: w.askedAt < begunAt.value else answer.outcome == Refused
    ensures Histories(settled + Settlements(done, answer, begunAt), published)
  {
    forall x | x in settled + Settlements(done, answer, begunAt)
      ensures SettledAt(published, x)
    {
      if x !in settled {
        var i :| 0 <= i < |done| && x == Settlement(done[i], answer, begunAt);
        assert done[i] in done;
      }
    }
  }

  /** Of consecutive waiters, those a round covers were there when it began; the others are pending. */
  lemma CoveredFirst(s: Service, round: Round)
    requires InOrder(s.settled, s.waiters, s.requestedGeneration) && Covers(s, round)
    ensures
      var done, rest := Upto(s.waiters, round.generation), Beyond(s.waiters, round.generation);
      && s.waiters == done + rest && (rest != [] ==> s.pendingReasons != {})
      && (forall w <- done :: w.askedAt < round.begunAt) && (forall w <- rest :: w in s.waiters)
  {
    Split(s.waiters, |s.settled|, round.generation);
    var done, rest := Upto(s.waiters, round.generation), Beyond(s.waiters, round.generation);
    assert s.waiters == done + rest;
    forall w | w in done
      ensures w.askedAt < round.begunAt
    {
      assert w in s.waiters && Sees(round, w);
      assert w.generation <= round.generation;
    }
  }

  /** Settling a round settles exactly the requests it covers; what is left is newer, so pending. */
  lemma RoundSettles(s: Service, round: Round, outcome: Outcome)
    requires InOrder(s.settled, s.waiters, s.requestedGeneration) && Histories(s.settled, s.published)
    requires Covers(s, round) && (outcome.Answered? ==> Latest(s.published, |s.published|, outcome.snapshot))
    ensures
      var t := SettleWaiters(s, round, outcome);
      && InOrder(t.settled, t.waiters, t.requestedGeneration) && Histories(t.settled, t.published)
      && (t.waiters != [] ==> t.pendingReasons != {})
      && (forall w <- t.waiters :: w in s.waiters)
  {
    hide InOrder, Histories, Covers, Upto, Beyond;
    var done, rest := Upto(s.waiters, round.generation), Beyond(s.waiters, round.generation);
    var answer := Answer(outcome, |s.published|);
    CoveredFirst(s, round);
    SettledInOrder(s.settled, s.waiters, s.requestedGeneration, done, rest, answer, Some(round.begunAt));
    SettledHistories(s.settled, s.published, done, answer, Some(round.begunAt));
  }

  /** One more publication leaves what was settled before as it was. */
  lemma PublishedHistories(settled: seq<Settlement<Answer>>, published: seq<Publication>, p: Publication)
    requires Histories(settled, published) && PublishedAt(p)
    ensures Histories(settled, published + [p])
  {
    forall x | x in settled
      ensures SettledAt(published + [p], x)
    {
      assert SettledAt(published, x);
    }
  }

  lemma PublishedInv(s: Service, next: Snapshot, round: Round, current: Option<Revision>)
    requires Inv(s) && Covers(s, round)
    requires current.Some? ==> next.basedOn == current.value && s.pendingReasons == {}
    ensures Inv(Published(s, next, round, current))
  {
    hide Histories, InOrder;
    var p := Publication(next, round.begunAt, s.lastAskedAt, current);
    var noted := s.(snapshot := Some(next), latest := Some(next), published := s.published + [p]);
    PublishedHistories(s.settled, s.published, p);
    RoundSettles(noted, round, Answered(next));
  }

  lemma FailedInv(s: Service, round: Round, config: Option<Config>)
    requires Inv(s) && Covers(s, round) && !s.phase.Idle?
    ensures Inv(Failed(s, round, config))
  {
    if s.latest.None? && config.Some? {
      PublishedInv(s, FailClosed(config.value), round, None);
    } else {
      RoundSettles(s, round, Refused);
    }
  }

  lemma RoundBegunInv(s: Service)
    requires InOrder(s.settled, s.waiters, s.requestedGeneration) && Histories(s.settled, s.published)
    requires s.lastAskedAt < s.now && (forall w <- s.waiters :: w.askedAt < s.now)
    requires (s.disposed ==> s.waiters == []) && s.latest == s.snapshot && KeepsLatest(s.snapshot, s.published)
    ensures Inv(RoundBegun(s))
  {
  }

  lemma RequestInv(s: Service, reason: Reason)
    requires Inv(s) && !s.disposed
    ensures Inv(Requested(s, reason))
  {
    var asked := s.(requestedGeneration := s.requestedGeneration + 1, pendingReasons := s.pendingReasons + {reason},
                    waiters := s.waiters + [Waiter(s.requestedGeneration + 1, s.now)],
                    lastAskedAt := s.now, now := s.now + 1);
    assert reason in asked.pendingReasons;
    if s.phase.Idle? { RoundBegunInv(asked.(latest := asked.snapshot)); }
  }

  lemma CurrentInv(s: Service, read: Option<Config>)
    requires Inv(s) && s.phase.AwaitCurrent?
    ensures Inv(CurrentArrived(s, read))
  {
    var AwaitCurrent(round, config, resolution) := s.phase;
    if read.None? || s.disposed {
      FailedInv(s, round, Some(config));
    } else if s.pendingReasons != {} || read.value.builtinRevision != config.builtinRevision {
      assert SUPERSEDED in CurrentArrived(s, read).pendingReasons;
    } else {
      var next := Snapshot(config.builtinRevision, resolution.providers, Some(resolution.states));
      if s.latest == Some(next) {
        RoundSettles(s, round, Answered(next));
      } else {
        PublishedInv(s, next, round, Some(read.value.builtinRevision));
      }
    }
  }

  lemma DisposeInv(s: Service)
    requires Inv(s)
    ensures Inv(Disposed(s))
  {
    if !s.disposed {
      assert s.waiters == s.waiters + [];
      var answer := Answer(Refused, |s.published|);
      SettledInOrder(s.settled, s.waiters, s.requestedGeneration, s.waiters, [], answer, None);
      SettledHistories(s.settled, s.published, s.waiters, answer, None);
    }
  }

  lemma StepInv(s: Service, step: Step)
    requires Inv(s) && Enabled(s, step)
    ensures Inv(Apply(s, step))
  {
    match step
    case Request(reason) => RequestInv(s, reason);
    case ConfigRead(read) => if read.None? { FailedInv(s, s.phase.round, None); }
    case Resolve(answer) => if answer.None? || s.disposed { FailedInv(s, s.phase.round, Some(s.phase.config)); }
    case CurrentRead(read) => CurrentInv(s, read);
    case Continue => if s.pendingReasons != {} { RoundBegunInv(s); }
    case Finish => if !s.disposed && s.pendingReasons != {} { RoundBegunInv(s.(phase := Idle, latest := s.snapshot)); }
    case Dispose => DisposeInv(s);
  }

  // ---------- runs ----------

  lemma {:induction false} RunInv(steps: seq<Step>)
    requires Run(steps).Some?
    ensures Inv(Run(steps).value)
    decreases |steps|
  {
    if steps == [] {
      FreshInv();
    } else {
      RunInv(steps[..|steps| - 1]);
      StepInv(Run(steps[..|steps| - 1]).value, steps[|steps| - 1]);
    }
  }

  /** No request is lost: with no loop in flight a live service has nothing pending and nobody waiting,
      and request k was the k-th to be settled. */
  lemma NoRequestLost(steps: seq<Step>)
    requires Run(steps).Some? && Run(steps).value.phase.Idle? && !Run(steps).value.disposed
    ensures
      var s := Run(steps).value;
      && s.pendingReasons == {} && s.waiters == []
      && |s.settled| == s.requestedGeneration
      && (forall i :: 0 <= i < |s.settled| ==> s.settled[i].waiter.generation == i + 1)
  {
    RunInv(steps);
  }

  /** Every request is settled at most once, and if a round settled it, one begun after it was made; what it
      was answered with is the snapshot published last at that moment. */
  lemma SettledByLaterRound(steps: seq<Step>, i: nat, j: nat)
    requires Run(steps).Some? && i < |Run(steps).value.settled| && j < |Run(steps).value.settled|
    ensures
      var s := Run(steps).value;
      var settled := s.settled;
      var Settlement(waiter, Answer(outcome, known), begunAt) := settled[i];
      && (waiter.generation == settled[j].waiter.generation ==> i == j)
      && (begunAt.Some? ==> waiter.askedAt < begunAt.value)
      && (begunAt.None? ==> outcome == Refused)
      && (outcome.Answered? ==>
            0 < known <= |s.published| && outcome.snapshot == s.published[known - 1].snapshot)
  {
    RunInv(steps);
    assert SettledAt(Run(steps).value.published, Run(steps).value.settled[i]);
  }

  /** Whoever joined a loop gets the snapshot published last, or an error exactly if its last round failed;
      a loop never ends well without a snapshot. */
  lemma LoopAnswers(steps: seq<Step>)
    requires Run(steps).Some? && Run(steps).value.phase.Ended?
    ensures
      var s := Run(steps).value;
      && (LoopAnswer(s).None? <==> s.phase.failed)
      && (LoopAnswer(s).Some? ==>
            s.published != [] && LoopAnswer(s).value == s.published[|s.published| - 1].snapshot)
  {
    RunInv(steps);
  }

  /** The state a service object is in is the state of a run, so all this holds of it. */
  lemma ObjectIsRun(service: AccountProviderService)
    requires service.Valid()
    ensures Run(service.log) == Some(service.view) && Inv(service.view)
  {
    RunInv(service.log);
  }

  /** What is published from a resolution rests on the revision current at that moment, and no request
      was made between the start of its round and the publication. */
  lemma PublishedIsCurrent(steps: seq<Step>, i: nat)
    requires Run(steps).Some? && i < |Run(steps).value.published|
    ensures
      var p := Run(steps).value.published[i];
      p.current.Some? ==> p.snapshot.basedOn == p.current.value && p.lastAskedAt < p.begunAt
  {
    RunInv(steps);
    assert PublishedAt(Run(steps).value.published[i]);
  }

  /** A round overtaken by a request or by a new built-in revision publishes and settles nothing, and is
      followed by another round. */
  lemma OvertakenPublishesNothing(s: Service, read: Config)
    requires Inv(s) && s.phase.AwaitCurrent? && !s.disposed
    requires s.requestedGeneration > s.phase.round.generation || read.builtinRevision != s.phase.config.builtinRevision
    ensures
      var t := Apply(s, CurrentRead(Some(read)));
      && t.snapshot == s.snapshot && t.published == s.published && t.settled == s.settled && t.waiters == s.waiters
      && Enabled(t, Continue) && Apply(t, Continue).phase == AwaitConfig(Round(t.requestedGeneration, t.now))
  {
    assert SUPERSEDED in Apply(s, CurrentRead(Some(read))).pendingReasons;
  }
}
