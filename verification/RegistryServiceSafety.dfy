/** What every run of the registry service keeps. */
module RegistryServiceSafety {
  import opened Wrappers
  import opened CelText
  import opened RefreshWaiters
  import opened RegistryService

  /** The snapshot was the last one published when `known` had been. */
  ghost predicate Latest(published: seq<Snapshot>, known: nat, p: Snapshot) {
    0 < known <= |published| && published[known - 1] == p
  }

  /** A round whose sources fit together is answered from them: with a snapshot of the revisions it read;
      one whose sources do not, with the last complete snapshot. */
  ghost predicate AnsweredBy(published: seq<Snapshot>, a: Answer) {
    && a.known <= |published|
    && match a.outcome
       case FromSources(p) =>
         && a.read.Some? && Consistent(a.read.value) && SameRevisions(Some(p), a.read.value)
         && Latest(published, a.known, p)
       case LastComplete(p) => a.read.Some? && !Consistent(a.read.value) && Latest(published, a.known, p)
       case Refused => true
  }

  ghost predicate SettledAt(published: seq<Snapshot>, x: Settlement<Answer>) {
    && AnsweredBy(published, x.outcome)
    && (x.begunAt.None? ==> x.outcome.outcome == Refused)
    && (x.begunAt.Some? ==> x.waiter.askedAt < x.begunAt.value)
  }

  ghost predicate Histories(snapshot: Option<Snapshot>, settled: seq<Settlement<Answer>>, published: seq<Snapshot>) {
    && (forall x <- settled :: SettledAt(published, x))
    && (forall p <- published :: Consistent(p))
    && (snapshot.Some? <==> published != [])
    && (snapshot.Some? ==> Latest(published, |published|, snapshot.value))
  }

  ghost predicate Inv(s: Service) {
    && InOrder(s.settled, s.waiters, s.requestedGeneration)
    && Histories(s.snapshot, s.settled, s.published)
    && s.completedGeneration <= s.requestedGeneration
    // completed requests wait on only as long as nothing was ever published
    && (s.snapshot.Some? && !s.disposed ==> s.completedGeneration <= |s.settled|)
    && (s.disposed ==> s.waiters == [])
    && (forall w <- s.waiters :: w.askedAt < s.now)
    && match s.phase
       case Idle => s.disposed || s.completedGeneration == s.requestedGeneration
       case AwaitSources(round) => round.generation <= s.requestedGeneration && forall w <- s.waiters :: Sees(round, w)
       case _ => true
  }

  lemma FreshInv()
    ensures Inv(FRESH)
  {
  }

  lemma SettledHistories(snapshot: Option<Snapshot>, settled: seq<Settlement<Answer>>, published: seq<Snapshot>,
                         done: seq<Waiter>, answer: Answer, begunAt: Option<nat>)
    requires Histories(snapshot, settled, published) && AnsweredBy(published, answer)
    requires if begunAt.Some? then forall w <- done :: w.askedAt < begunAt.value else answer.outcome == Refused
    ensures Histories(snapshot, settled + Settlements(done, answer, begunAt), published)
  {
    forall x | x in settled + Settlements(done, answer, begunAt)
      ensures SettledAt(published, x)
    {
      if x !in settled {
        var i :| 0 <= i < |done| && x == Settlement(done[i], answer, begunAt);
        assert done[i] in done;
      }
    }
  }

  /** A round that read last settles every request made so far. */
  lemma RoundSettles(s: Service, round: Round, read: Option<Snapshot>, outcome: Outcome)
    requires InOrder(s.settled, s.waiters, s.requestedGeneration) && Histories(s.snapshot, s.settled, s.published)
    requires round.generation == s.requestedGeneration && (forall w <- s.waiters :: Sees(round, w))
    requires AnsweredBy(s.published, Answer(outcome, read, |s.published|))
    ensures
      var t := SettleWaiters(s, round, read, outcome);
      t.waiters == [] && InOrder(t.settled, [], t.requestedGeneration) && Histories(t.snapshot, t.settled, t.published)
  {
    hide Histories, AnsweredBy;
    var answer := Answer(outcome, read, |s.published|);
    Split(s.waiters, |s.settled|, round.generation);
    assert Upto(s.waiters, round.generation) == s.waiters + [];
    forall w | w in s.waiters
      ensures w.askedAt < round.begunAt
    {
      var i :| 0 <= i < |s.waiters| && s.waiters[i] == w;
      assert Sees(round, w);
    }
    SettledInOrder(s.settled, s.waiters, s.requestedGeneration, s.waiters, [], answer, Some(round.begunAt));
    SettledHistories(s.snapshot, s.settled, s.published, s.waiters, answer, Some(round.begunAt));
  }

  lemma CompletedInv(s: Service, round: Round, read: Option<Snapshot>, outcome: Outcome, next: Phase)
    requires Inv(s) && s.phase == AwaitSources(round) && round.generation == s.requestedGeneration
    requires AnsweredBy(s.published, Answer(outcome, read, |s.published|)) && (next.Head? || next.Ended?)
    ensures Inv(Completed(s, round, read, outcome).(phase := next)) && Completed(s, round, read, outcome).waiters == []
  {
    RoundSettles(s.(completedGeneration := round.generation), round, read, outcome);
  }

  /** Publishing a snapshot that fits leaves what was settled before as it was. */
  lemma PublishedHistories(s: Service, p: Snapshot)
    requires Histories(s.snapshot, s.settled, s.published) && Consistent(p)
    ensures Histories(Some(p), s.settled, s.published + [p])
  {
    forall x | x in s.settled
      ensures SettledAt(s.published + [p], x)
    {
      assert SettledAt(s.published, x);
    }
  }

  lemma PublishInv(s: Service, round: Round, p: Snapshot)
    requires Inv(s) && Consistent(p) && s.phase == AwaitSources(round) && round.generation == s.requestedGeneration
    ensures
      var t := s.(snapshot := Some(p), published := s.published + [p]);
      Inv(Completed(t, round, Some(p), FromSources(p)).(phase := Head))
  {
    hide Histories;
    var t := s.(snapshot := Some(p), published := s.published + [p], completedGeneration := round.generation);
    PublishedHistories(s, p);
    RoundSettles(t, round, Some(p), FromSources(p));
  }

  lemma SourcesInv(s: Service, read: Option<Snapshot>, resolvable: bool)
    requires Inv(s) && s.phase.AwaitSources?
    ensures Inv(SourcesArrived(s, read, resolvable))
  {
    var round := s.phase.round;
    if round.generation < s.requestedGeneration {
    } else if read.None? {
      CompletedInv(s, round, read, Refused, Ended);
    } else if s.disposed {
      RoundSettles(s, round, read, Refused);
    } else if !Consistent(read.value) {
      if s.snapshot.Some? { CompletedInv(s, round, read, LastComplete(s.snapshot.value), Head); }
    } else if SameRevisions(s.snapshot, read.value) {
      CompletedInv(s, round, read, FromSources(s.snapshot.value), Head);
    } else if !resolvable {
      CompletedInv(s, round, read, Refused, Ended);
    } else {
      PublishInv(s, round, read.value);
    }
  }

  lemma StepInv(s: Service, step: Step)
    requires Inv(s) && Enabled(s, step)
    ensures Inv(Apply(s, step))
  {
    match step
    case SourcesRead(read, resolvable) => SourcesInv(s, read, resolvable);
    case Dispose =>
      if !s.disposed {
        assert s.waiters == s.waiters + [];
        var answer := Answer(Refused, None, |s.published|);
        SettledInOrder(s.settled, s.waiters, s.requestedGeneration, s.waiters, [], answer, None);
        SettledHistories(s.snapshot, s.settled, s.published, s.waiters, answer, None);
      }
    case _ =>
  }

  // ---------- runs ----------

  lemma {:induction false} RunInv(steps: seq<Step>)
    requires Run(steps).Some?
    ensures Inv(Run(steps).value)
    decreases |steps|
  {
    if steps == [] {
      FreshInv();
    } else {
      RunInv(steps[..|steps| - 1]);
      StepInv(Run(steps[..|steps| - 1]).value, steps[|steps| - 1]);
    }
  }

  /** Every snapshot ever published, and the current one, pairs a configuration with an account overlay
      based on that configuration's built-in revision. */
  lemma PublishedIsConsistent(steps: seq<Step>, i: nat)
    requires Run(steps).Some? && i < |Run(steps).value.published|
    ensures Consistent(Run(steps).value.published[i])
    ensures Run(steps).value.snapshot.Some? ==> Consistent(Run(steps).value.snapshot.value)
  {
    RunInv(steps);
  }

  /** A request is settled at most once, by a round begun after it.  If that round's sources fitted together
      it got a snapshot of exactly the revisions read; only if they did not, the last complete one.  Either
      way it is the snapshot published last at that moment. */
  lemma AnsweredByLaterRound(steps: seq<Step>, i: nat)
    requires Run(steps).Some? && i < |Run(steps).value.settled|
    ensures
      var s := Run(steps).value;
      var Settlement(waiter, Answer(outcome, read, known), begunAt) := s.settled[i];
      && waiter.generation == i + 1
      && (begunAt.Some? ==> waiter.askedAt < begunAt.value)
      && (outcome.FromSources? ==>
            && read.Some? && Consistent(read.value)
            && outcome.snapshot.config.revision == read.value.config.revision
            && outcome.snapshot.account.revision == read.value.account.revision)
      && (outcome.LastComplete? ==> read.Some? && !Consistent(read.value))
      && (!outcome.Refused? ==>
            && begunAt.Some? && 0 < known <= |s.published|
            && outcome.snapshot == s.published[known - 1] && Consistent(outcome.snapshot))
  {
    RunInv(steps);
    var s := Run(steps).value;
    assert SettledAt(s.published, s.settled[i]);
  }

  /** The moment: what is settled by reading sources is settled with all that was published by then. */
  lemma KnownIsNow(s: Service, read: Option<Snapshot>, resolvable: bool, i: nat)
    requires s.phase.AwaitSources? && |s.settled| <= i < |SourcesArrived(s, read, resolvable).settled|
    ensures
      var t := SourcesArrived(s, read, resolvable);
      t.settled[i].outcome.read == read && t.settled[i].outcome.known == |t.published|
  {
  }

  /** With no loop in flight a live service has completed every request; some may still be waiting only
      if nothing was ever published. */
  lemma IdleIsSettled(steps: seq<Step>)
    requires Run(steps).Some? && Run(steps).value.phase.Idle? && !Run(steps).value.disposed
    ensures
      var s := Run(steps).value;
      s.completedGeneration == s.requestedGeneration && (s.waiters == [] || s.snapshot.None?)
  {
    RunInv(steps);
  }

  /** A round that nothing overtook leaves requests waiting exactly when its sources do not fit together
      and there is no complete snapshot to answer with. */
  lemma RoundLeavesWaiting(s: Service, read: Option<Snapshot>, resolvable: bool)
    requires Inv(s) && s.phase.AwaitSources? && s.phase.round.generation == s.requestedGeneration && !s.disposed
    ensures
      SourcesArrived(s, read, resolvable).waiters != [] <==>
        s.waiters != [] && read.Some? && !Consistent(read.value) && s.snapshot.None?
  {
    var round := s.phase.round;
    RoundSettles(s, round, read, Refused);
  }

  /** The snapshot held has both revisions that were read. */
  ghost predicate HeldAlready(s: Service, p: Snapshot) {
    && s.snapshot.Some?
    && s.snapshot.value.config.revision == p.config.revision
    && s.snapshot.value.account.revision == p.account.revision
  }

  /** What a live round that nothing overtook does: it refuses its requests exactly when a read failed, or
      when what it read fits together, is new and cannot be resolved; it publishes exactly when what it
      read fits together, is new and can be resolved; and it gives its requests what it publishes, or the
      snapshot held.  After refusing, and only then, the loop ends. */
  lemma RoundDecides(s: Service, read: Option<Snapshot>, resolvable: bool)
    requires Inv(s) && s.phase.AwaitSources? && s.phase.round.generation == s.requestedGeneration && !s.disposed
    ensures
      var t := SourcesArrived(s, read, resolvable);
      var fits := read.Some? && read.value.account.basedOn == read.value.config.builtinRevision;
      var unknown := read.Some? && !HeldAlready(s, read.value);
      var refused := read.None? || (fits && unknown && !resolvable);
      var publishes := fits && unknown && resolvable;
      && t.published == (if publishes then s.published + [read.value] else s.published)
      && t.snapshot == (if publishes then read else s.snapshot)
      && (t.phase.Ended? <==> refused) && (t.phase.Head? <==> !refused)
      && s.settled <= t.settled && t.completedGeneration == s.requestedGeneration
      && (forall i | |s.settled| <= i < |t.settled| ::
            var outcome := t.settled[i].outcome.outcome;
            && (outcome.Refused? <==> refused)
            && (!refused ==> t.snapshot.Some? && outcome.snapshot == t.snapshot.value)
            && (outcome.FromSources? <==> fits && !refused))
  {
    hide Upto, Beyond;
  }

  /** A round that a later request overtook does nothing but make room for the next. */
  lemma OvertakenDoesNothing(s: Service, read: Option<Snapshot>, resolvable: bool)
    requires Inv(s) && s.phase.AwaitSources? && s.phase.round.generation < s.requestedGeneration
    ensures
      var t := Apply(s, SourcesRead(read, resolvable));
      && t == s.(phase := Head)
      && (Enabled(t, Continue) && s.completedGeneration < s.requestedGeneration ==>
            Apply(t, Continue).phase == AwaitSources(Round(s.requestedGeneration, s.now)))
  {
  }

  /** A request to a live service at rest, and a round that nothing disturbs and that reads sources which
      fit together and can be resolved: the request is answered with the revisions read. */
  lemma QuietRefresh(s: Service, p: Snapshot)
    requires Inv(s) && s.phase.Idle? && !s.disposed && s.waiters == []
    requires p.account.basedOn == p.config.builtinRevision
    ensures
      var asked := Apply(s, Request);
      Enabled(asked, SourcesRead(Some(p), true)) &&
      var t := Apply(asked, SourcesRead(Some(p), true));
      && t.waiters == [] && |t.settled| == |s.settled| + 1 && t.settled[|s.settled|].waiter == asked.waiters[0]
      && t.settled[|s.settled|].outcome.outcome.FromSources?
      && var given := t.settled[|s.settled|].outcome.outcome.snapshot;
         && t.snapshot == Some(given)
         && given.config.revision == p.config.revision && given.account.revision == p.account.revision
  {
    hide Upto, Beyond, Histories;
    var asked := Apply(s, Request);
    StepInv(s, Request);
    RoundDecides(asked, Some(p), true);
    RoundLeavesWaiting(asked, Some(p), true);
    StepInv(asked, SourcesRead(Some(p), true));
    OnlyOne(asked.waiters, asked.phase.round.generation);
  }

  /** The state a service object is in is the state of a run, so all this holds of it. */
  lemma ObjectIsRun(service: ProviderRegistryService)
    requires service.Valid()
    ensures Run(service.log) == Some(service.view) && Inv(service.view)
  {
    RunInv(service.log);
  }

  /** Such a run: one request, sources that do not fit, and the service idle with the request unanswered. */
  lemma FirstMismatchLeavesWaiting(p: Snapshot, resolvable: bool)
    requires !Consistent(p)
    ensures
      var steps := [Request, SourcesRead(Some(p), resolvable), Continue, Finish];
      Run(steps).Some? && Run(steps).value.phase.Idle? && !Run(steps).value.disposed
      && Run(steps).value.waiters == [Waiter(1, 1)]
  {
    var steps := [Request, SourcesRead(Some(p), resolvable), Continue, Finish];
    assert steps[..3][..2][..1][..0] == [];
    assert steps[..3][..2][..1] == [Request];
    assert steps[..3][..2] == [Request, SourcesRead(Some(p), resolvable)];
    assert Run(steps[..3][..2][..1]) == Some(Requested(FRESH));
    assert Run(steps[..3][..2]).Some?;
    assert Run(steps[..3]).Some?;
  }
}
