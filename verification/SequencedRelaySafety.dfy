/** What every run of the older relay keeps, alone and over a channel that may drop, repeat and reorder
    frames. */
module SequencedRelaySafety {
  import opened Wrappers
  import opened SequencedRelay

  function Total(counts: seq<nat>): nat {
    if counts == [] then 0 else Total(counts[..|counts| - 1]) + counts[|counts| - 1]
  }

  lemma TotalAppend(counts: seq<nat>, n: nat)
    ensures Total(counts + [n]) == Total(counts) + n
  {
    assert (counts + [n])[..|counts|] == counts;
  }

  /** A frame carries the message that was given its number. */
  ghost predicate Genuine(sent: seq<Bytes>, f: Frame) {
    1 <= f.seqNo <= |sent| && f.data == sent[f.seqNo - 1]
  }

  /** Accepted frames are genuine, their numbers strictly increase and stay below `next`. */
  ghost predicate InOrder(sent: seq<Bytes>, accepted: seq<Frame>, next: nat) {
    && (forall f <- accepted :: Genuine(sent, f) && f.seqNo < next)
    && (forall i, j :: 0 <= i < j < |accepted| ==> accepted[i].seqNo < accepted[j].seqNo)
  }

  /** The buffer holds the most recent messages, without a gap. */
  ghost predicate Recent(sent: seq<Bytes>, buffered: seq<Frame>) {
    && |buffered| <= |sent|
    && forall i :: 0 <= i < |buffered| ==> buffered[i] == FrameFor(sent, |sent| - |buffered| + i)
  }

  function FrameFor(sent: seq<Bytes>, i: int): Frame
    requires 0 <= i < |sent|
  {
    Frame(i + 1, sent[i])
  }

  ghost predicate Inv(cfg: Config, s: State) {
    && s.seqNo == |s.sent|
    && s.inboundSeq == |s.delivered|
    && Recent(s.sent, s.buffered)
    && InOrder(s.sent, s.accepted, |s.sent| - |s.buffered| + 1)
    && (s.buffered != [] ==> |s.buffered| <= cfg.maxBufferedFrames && !s.degraded && !s.disposed)
    // while anything waits, and only then, the timer runs
    && (s.timer <==> cfg.timed && s.buffered != [])
    // every message was accepted, waits, was reported lost, or was thrown away on request
    && |s.accepted| + |s.buffered| + Total(s.reported) + s.discarded == s.seqNo
  }

  lemma FreshInv(cfg: Config, answers: seq<bool>)
    ensures Inv(cfg, Fresh(answers))
  {
  }

  lemma AppendGenuine(sent: seq<Bytes>, accepted: seq<Frame>, data: Bytes, next: nat)
    requires InOrder(sent, accepted, next) && next <= |sent| + 1
    ensures InOrder(sent + [data], accepted, |sent| + 1)
  {
  }

  lemma AppendRecent(sent: seq<Bytes>, buffered: seq<Frame>, data: Bytes)
    requires Recent(sent, buffered)
    ensures Recent(sent + [data], buffered + [Frame(|sent| + 1, data)])
  {
  }

  /** The state between numbering a message and placing it: everything older is accounted for. */
  ghost predicate Placing(cfg: Config, s: State, f: Frame) {
    && s.sent != [] && f == FrameFor(s.sent, |s.sent| - 1)
    && s.seqNo == |s.sent| && s.inboundSeq == |s.delivered|
    && |s.buffered| < |s.sent| && Recent(s.sent, s.buffered + [f])
    && InOrder(s.sent, s.accepted, |s.sent| - |s.buffered|)
    && !s.degraded && !s.disposed
    && (s.buffered != [] ==> |s.buffered| <= cfg.maxBufferedFrames)
    && (s.timer <==> cfg.timed && s.buffered != [])
    && |s.accepted| + |s.buffered| + Total(s.reported) + s.discarded + 1 == s.seqNo
  }

  lemma InOrderBelow(sent: seq<Bytes>, accepted: seq<Frame>, next: nat, more: nat)
    requires InOrder(sent, accepted, next) && next <= more
    ensures InOrder(sent, accepted, more)
  {
  }

  lemma BufferedInv(cfg: Config, s: State, f: Frame)
    requires Placing(cfg, s, f)
    ensures Inv(cfg, Buffered(cfg, s, f)) && !Buffered(cfg, s, f).disposed && !Buffered(cfg, s, f).degraded
  {
    if |s.buffered| >= cfg.maxBufferedFrames { OverflowInv(cfg, s, f); } else { JoinsInv(cfg, s, f); }
  }

  lemma OverflowInv(cfg: Config, s: State, f: Frame)
    requires Placing(cfg, s, f) && |s.buffered| >= cfg.maxBufferedFrames
    ensures Inv(cfg, Buffered(cfg, s, f)) && !Buffered(cfg, s, f).disposed && !Buffered(cfg, s, f).degraded
  {
    hide InOrder, Genuine, Total;
    TotalAppend(s.reported, |s.buffered| + 1);
    InOrderBelow(s.sent, s.accepted, |s.sent| - |s.buffered|, |s.sent| + 1);
  }

  lemma JoinsInv(cfg: Config, s: State, f: Frame)
    requires Placing(cfg, s, f) && |s.buffered| < cfg.maxBufferedFrames
    ensures Inv(cfg, Buffered(cfg, s, f)) && !Buffered(cfg, s, f).disposed && !Buffered(cfg, s, f).degraded
  {
    hide InOrder, Genuine, Total, Recent;
  }

  lemma AcceptOne(sent: seq<Bytes>, accepted: seq<Frame>, f: Frame)
    requires Genuine(sent, f) && InOrder(sent, accepted, f.seqNo)
    ensures InOrder(sent, accepted + [f], f.seqNo + 1)
  {
  }

  lemma {:induction false} FlushedInv(cfg: Config, s: State)
    requires Inv(cfg, s) && !s.disposed && !s.degraded
    ensures Inv(cfg, Flushed(cfg, s))
    decreases |s.buffered|, 0
  {
    if s.buffered != [] {
      var f := s.buffered[0];
      var (after, taken) := Offered(s, f);
      if taken {
        assert f == FrameFor(s.sent, |s.sent| - |s.buffered|);
        AcceptOne(s.sent, s.accepted, f);
        assert Recent(s.sent, s.buffered[1..]);
        FlushedSame(cfg, s, after.(buffered := s.buffered[1..]));
      }
    }
  }

  /** The loop state after a frame was taken, with the timer not yet settled. */
  lemma {:induction false} FlushedSame(cfg: Config, before: State, s: State)
    requires Inv(cfg, before) && before.buffered != [] && !s.disposed && !s.degraded
    requires Inv(cfg, s.(timer := cfg.timed && s.buffered != [])) && s.timer == before.timer
    ensures Inv(cfg, Flushed(cfg, s))
    decreases |s.buffered|, 1
  {
    if s.buffered != [] {
      assert s == s.(timer := cfg.timed && s.buffered != []);
      FlushedInv(cfg, s);
    }
  }

  /** The state once a message has its number. */
  function Numbered(s: State, data: Bytes): State {
    s.(seqNo := s.seqNo + 1, sent := s.sent + [data])
  }

  lemma NumberedPlacing(cfg: Config, s: State, data: Bytes)
    requires Inv(cfg, s) && !s.disposed && !s.degraded
    ensures Placing(cfg, Numbered(s, data), Frame(s.seqNo + 1, data))
  {
    hide InOrder, Total;
    AppendRecent(s.sent, s.buffered, data);
    NumberedOrder(s.sent, s.accepted, data, |s.sent| - |s.buffered| + 1);
  }

  lemma NumberedOrder(sent: seq<Bytes>, accepted: seq<Frame>, data: Bytes, next: nat)
    requires InOrder(sent, accepted, next) && next <= |sent| + 1
    ensures InOrder(sent + [data], accepted, next)
  {
  }

  /** A frame taken at once, with nothing waiting. */
  lemma TakenInv(cfg: Config, s: State, f: Frame)
    requires Placing(cfg, s, f) && s.buffered == []
    ensures Inv(cfg, s.(accepted := s.accepted + [f]))
  {
    AcceptOne(s.sent, s.accepted, f);
  }

  lemma SentInv(cfg: Config, s: State, data: Bytes)
    requires Inv(cfg, s)
    ensures Inv(cfg, Sent(cfg, s, data))
  {
    hide Inv, Placing, Flushed, Buffered;
    if !s.disposed && !s.degraded {
      var numbered := Numbered(s, data);
      var frame := Frame(s.seqNo + 1, data);
      NumberedPlacing(cfg, s, data);
      if s.buffered != [] {
        BufferedInv(cfg, numbered, frame);
        PendingInv(cfg, Buffered(cfg, numbered, frame));
      } else {
        var (after, taken) := Offered(numbered, frame);
        OfferedPlacing(cfg, numbered, frame);
        if taken {
          TakenInv(cfg, after.(accepted := numbered.accepted), frame);
        } else {
          BufferedInv(cfg, after, frame);
        }
      }
    }
  }

  /** What the transport will answer later does not matter here. */
  lemma OfferedPlacing(cfg: Config, s: State, f: Frame)
    requires Placing(cfg, s, f)
    ensures Placing(cfg, Offered(s, f).0.(accepted := s.accepted), f)
  {
  }

  lemma PendingInv(cfg: Config, s: State)
    requires Inv(cfg, s)
    ensures Inv(cfg, Pending(cfg, s))
  {
    hide Inv, Flushed;
    if !s.disposed && !s.degraded { FlushedInv(cfg, s); }
  }

  lemma StepInv(cfg: Config, s: State, step: Step)
    requires Inv(cfg, s) && Enabled(s, step)
    ensures Inv(cfg, Apply(cfg, s, step))
  {
    match step
    case Send(data) => SentInv(cfg, s, data);
    case Flush => PendingInv(cfg, s);
    case TimeOut => TotalAppend(s.reported, |s.buffered|);
    case _ =>
  }

  // ---------- runs ----------

  function Run(cfg: Config, answers: seq<bool>, steps: seq<Step>): Option<State> {
    if steps == [] then Some(Fresh(answers))
    else
      match Run(cfg, answers, steps[..|steps| - 1])
      case None => None
      case Some(s) => if Enabled(s, steps[|steps| - 1]) then Some(Apply(cfg, s, steps[|steps| - 1])) else None
  }

  /** Through buffering, overflow and timeouts, accepted numbers strictly increase and no message is
      lost without being counted. */
  lemma {:induction false} RunInv(cfg: Config, answers: seq<bool>, steps: seq<Step>)
    requires Run(cfg, answers, steps).Some?
    ensures Inv(cfg, Run(cfg, answers, steps).value)
    decreases |steps|
  {
    if steps == [] {
      FreshInv(cfg, answers);
    } else {
      RunInv(cfg, answers, steps[..|steps| - 1]);
      StepInv(cfg, Run(cfg, answers, steps[..|steps| - 1]).value, steps[|steps| - 1]);
    }
  }

  // ---------- two relays ----------

  datatype Pair = Pair(a: State, b: State)

  datatype Move = AtA(step: Step) | AtB(step: Step)

  /** The channel hands over any frame the other side's transport ever accepted, or something foreign. */
  predicate Possible(self: State, peer: State, step: Step) {
    && Enabled(self, step)
    && (step.Accept? && step.candidate.Own? ==> step.candidate.frame in peer.accepted)
  }

  function Moved(ca: Config, cb: Config, n: Pair, move: Move): Option<Pair> {
    match move
    case AtA(step) => if Possible(n.a, n.b, step) then Some(Pair(Apply(ca, n.a, step), n.b)) else None
    case AtB(step) => if Possible(n.b, n.a, step) then Some(Pair(n.a, Apply(cb, n.b, step))) else None
  }

  function Play(ca: Config, cb: Config, start: Pair, moves: seq<Move>): Option<Pair> {
    if moves == [] then Some(start)
    else
      match Play(ca, cb, start, moves[..|moves| - 1])
      case None => None
      case Some(n) => Moved(ca, cb, n, moves[|moves| - 1])
  }

  ghost predicate PairInv(ca: Config, cb: Config, n: Pair) {
    Inv(ca, n.a) && Inv(cb, n.b) && n.b.delivered <= n.a.sent && n.a.delivered <= n.b.sent
  }

  lemma {:induction false} FlushedKeeps(cfg: Config, s: State)
    ensures var t := Flushed(cfg, s); t.sent == s.sent && t.delivered == s.delivered
    decreases |s.buffered|
  {
    if s.buffered != [] {
      var (after, taken) := Offered(s, s.buffered[0]);
      if taken { FlushedKeeps(cfg, after.(buffered := s.buffered[1..])); }
    }
  }

  /** Only Send adds to what was sent, and only Accept to what was delivered. */
  lemma StepEffect(cfg: Config, s: State, step: Step)
    requires Enabled(s, step)
    ensures
      var t := Apply(cfg, s, step);
      && s.sent <= t.sent
      && t.delivered ==
           if step.Accept? && step.candidate.Own? && step.candidate.frame.seqNo == s.inboundSeq + 1
              && !s.disposed && !s.degraded
           then s.delivered + [step.candidate.frame.data] else s.delivered
  {
    match step
    case Send(data) =>
      if !s.disposed && !s.degraded {
        FlushedKeeps(cfg, Buffered(cfg, s.(seqNo := s.seqNo + 1, sent := s.sent + [data]), Frame(s.seqNo + 1, data)));
      }
    case Flush => FlushedKeeps(cfg, s);
    case _ =>
  }

  lemma MoveKeeps(cfg: Config, peerCfg: Config, self: State, peer: State, step: Step)
    requires Inv(cfg, self) && Inv(peerCfg, peer) && Possible(self, peer, step)
    requires peer.delivered <= self.sent && self.delivered <= peer.sent
    ensures
      var next := Apply(cfg, self, step);
      Inv(cfg, next) && peer.delivered <= next.sent && next.delivered <= peer.sent
  {
    StepInv(cfg, self, step);
    StepEffect(cfg, self, step);
    if step.Accept? && step.candidate.Own? { assert Genuine(peer.sent, step.candidate.frame); }
  }

  /** Whatever the channel drops, repeats or reorders: each side has been handed a prefix of what the
      other side sent. */
  lemma {:induction false} DeliveredIsPrefix(ca: Config, cb: Config, answersA: seq<bool>, answersB: seq<bool>,
                                             moves: seq<Move>)
    requires Play(ca, cb, Pair(Fresh(answersA), Fresh(answersB)), moves).Some?
    ensures PairInv(ca, cb, Play(ca, cb, Pair(Fresh(answersA), Fresh(answersB)), moves).value)
    decreases |moves|
  {
    var start := Pair(Fresh(answersA), Fresh(answersB));
    if moves == [] {
      FreshInv(ca, answersA);
      FreshInv(cb, answersB);
    } else {
      DeliveredIsPrefix(ca, cb, answersA, answersB, moves[..|moves| - 1]);
      var n := Play(ca, cb, start, moves[..|moves| - 1]).value;
      match moves[|moves| - 1]
      case AtA(step) => MoveKeeps(ca, cb, n.a, n.b, step);
      case AtB(step) => MoveKeeps(cb, ca, n.b, n.a, step);
    }
  }

  /** A stopped relay stays stopped. */
  lemma StoppedStays(cfg: Config, s: State, step: Step)
    requires s.degraded && s.buffered == [] && Enabled(s, step)
    ensures
      var t := Apply(cfg, s, step);
      && t.degraded && t.buffered == [] && t.delivered == s.delivered && t.accepted == s.accepted && t.sent == s.sent
  {
  }

  /** A gap is never skipped: a live relay that sees a number beyond the next one stops for good.  Whatever
      happens later, it delivers, accepts and sends nothing more. */
  lemma {:induction false} GapStops(cfg: Config, answers: seq<bool>, steps: seq<Step>, f: Frame, later: seq<Step>)
    requires Run(cfg, answers, steps).Some? && Run(cfg, answers, steps + [Accept(Own(f))] + later).Some?
    requires
      var s := Run(cfg, answers, steps).value;
      !s.disposed && !s.degraded && f.seqNo > s.inboundSeq + 1
    ensures
      var s := Run(cfg, answers, steps).value;
      var t := Run(cfg, answers, steps + [Accept(Own(f))] + later).value;
      && t.degraded && t.buffered == [] && t.delivered == s.delivered && t.accepted == s.accepted && t.sent == s.sent
    decreases |later|
  {
    var all := steps + [Accept(Own(f))] + later;
    if later == [] {
      assert all[..|all| - 1] == steps;
    } else {
      var before := later[..|later| - 1];
      assert all[..|all| - 1] == steps + [Accept(Own(f))] + before;
      GapStops(cfg, answers, steps, f, before);
      StoppedStays(cfg, Run(cfg, answers, all[..|all| - 1]).value, all[|all| - 1]);
    }
  }

  // ---------- a transport that calls back ----------

  /** The flush loop after its first sendFrame call, if that call takes the frame but first calls send. */
  function Reentered(cfg: Config, s: State, data: Bytes): State
    requires s.buffered != []
  {
    var inner := Sent(cfg, s, data);
    inner.(accepted := inner.accepted + [s.buffered[0]],
           buffered := if inner.buffered == [] then [] else inner.buffered[1..])
  }

  /** The loop goes on correctly if and only if the inner send found room in the buffer and was refused
      the frame already being sent; otherwise that frame is accepted twice, or accepted and counted as lost. */
  lemma ReentryIsSafe(cfg: Config, s: State, data: Bytes)
    requires Inv(cfg, s) && !s.disposed && !s.degraded && s.buffered != []
    ensures
      var t := Reentered(cfg, s, data);
      Inv(cfg, t.(timer := cfg.timed && t.buffered != [])) <==>
        |s.buffered| < cfg.maxBufferedFrames && (s.answers == [] || !s.answers[0])
  {
    hide Inv, Sent;
    if |s.buffered| >= cfg.maxBufferedFrames {
      ReentryOverflows(cfg, s, data);
    } else if s.answers == [] || !s.answers[0] {
      ReentryRefused(cfg, s, data);
    } else {
      ReentryRepeats(cfg, s, data);
    }
  }

  /** The buffer is full: it is dropped, the frame being sent included, which is then accepted. */
  lemma ReentryOverflows(cfg: Config, s: State, data: Bytes)
    requires Inv(cfg, s) && !s.disposed && !s.degraded && s.buffered != [] && |s.buffered| >= cfg.maxBufferedFrames
    ensures var t := Reentered(cfg, s, data); !Inv(cfg, t.(timer := cfg.timed && t.buffered != []))
  {
    hide InOrder, Recent, Total;
    TotalAppend(s.reported, |s.buffered| + 1);
  }

  /** The inner send's own flush sends the frame being sent a second time. */
  lemma ReentryRepeats(cfg: Config, s: State, data: Bytes)
    requires Inv(cfg, s) && !s.disposed && !s.degraded && s.buffered != [] && |s.buffered| < cfg.maxBufferedFrames
    requires s.answers != [] && s.answers[0]
    ensures var t := Reentered(cfg, s, data); !Inv(cfg, t.(timer := cfg.timed && t.buffered != []))
  {
    hide InOrder, Recent, Total;
    var more := Buffered(cfg, Numbered(s, data), Frame(s.seqNo + 1, data));
    var (after, _) := Offered(more, more.buffered[0]);
    FlushedAccepts(cfg, after.(buffered := more.buffered[1..]));
    TwiceAccepted(s.sent + [data], Reentered(cfg, s, data).accepted, |s.accepted|, s.buffered[0]);
  }

  /** The flush loop only adds to what was accepted. */
  lemma {:induction false} FlushedAccepts(cfg: Config, s: State)
    ensures s.accepted <= Flushed(cfg, s).accepted && Flushed(cfg, s).sent == s.sent
    decreases |s.buffered|
  {
    if s.buffered != [] {
      var (after, taken) := Offered(s, s.buffered[0]);
      if taken { FlushedAccepts(cfg, after.(buffered := s.buffered[1..])); }
    }
  }

  lemma TwiceAccepted(sent: seq<Bytes>, accepted: seq<Frame>, i: nat, f: Frame)
    requires i < |accepted| - 1 && accepted[i] == f && accepted[|accepted| - 1] == f
    ensures forall next :: !InOrder(sent, accepted, next)
  {
  }

  lemma ReentryRefused(cfg: Config, s: State, data: Bytes)
    requires Inv(cfg, s) && !s.disposed && !s.degraded && s.buffered != []
    requires |s.buffered| < cfg.maxBufferedFrames && (s.answers == [] || !s.answers[0])
    ensures var t := Reentered(cfg, s, data); Inv(cfg, t.(timer := cfg.timed && t.buffered != []))
  {
    var t := Reentered(cfg, s, data);
    var f := s.buffered[0];
    assert t.buffered == s.buffered[1..] + [Frame(|s.sent| + 1, data)];
    assert f == FrameFor(s.sent, |s.sent| - |s.buffered|);
    AcceptOne(s.sent, s.accepted, f);
    AppendGenuine(s.sent, s.accepted + [f], data, f.seqNo + 1);
    assert Recent(s.sent, s.buffered[1..]);
    AppendRecent(s.sent, s.buffered[1..], data);
  }

  // ---------- what goes out when ----------

  /** How many waiting frames the transport takes before it first refuses. */
  ghost predicate TakesFirst(s: State, k: nat) {
    && k <= |s.buffered| && k <= |s.answers|
    && (forall i | 0 <= i < k :: s.answers[i])
    && (k < |s.buffered| ==> k == |s.answers| || !s.answers[k])
  }

  /** The oldest frame is taken, and the flush goes on with the others. */
  lemma TakesOneMore(cfg: Config, s: State, k: nat)
    requires !s.degraded && s.buffered != [] && s.answers != [] && s.answers[0]
    ensures
      var after := s.(answers := s.answers[1..], accepted := s.accepted + [s.buffered[0]], buffered := s.buffered[1..]);
      && Flushed(cfg, s) == Flushed(cfg, after)
      && (TakesFirst(after, k) ==>
            && TakesFirst(s, k + 1)
            && after.accepted + after.buffered[..k] == s.accepted + s.buffered[..k + 1]
            && after.buffered[k..] == s.buffered[k + 1..])
  {
    hide Flushed;
    var after := s.(answers := s.answers[1..], accepted := s.accepted + [s.buffered[0]], buffered := s.buffered[1..]);
    assert Flushed(cfg, s) == Flushed(cfg, after) by { FlushedFirst(cfg, s); }
    if TakesFirst(after, k) {
      assert s.buffered[..k + 1] == [s.buffered[0]] + after.buffered[..k];
      assert forall i | 0 < i <= k :: s.answers[i] == after.answers[i - 1];
      assert k + 1 < |s.answers| ==> s.answers[k + 1] == after.answers[k];
    }
  }

  lemma FlushedFirst(cfg: Config, s: State)
    requires !s.degraded && s.buffered != [] && s.answers != [] && s.answers[0]
    ensures
      Flushed(cfg, s) == Flushed(cfg, s.(answers := s.answers[1..], accepted := s.accepted + [s.buffered[0]],
                                         buffered := s.buffered[1..]))
  {
  }

  lemma FlushedStops(cfg: Config, s: State)
    requires !s.degraded && (s.buffered == [] || s.answers == [] || !s.answers[0])
    ensures
      var t := Flushed(cfg, s);
      && t.accepted == s.accepted && t.buffered == s.buffered
      && t.sent == s.sent && t.seqNo == s.seqNo && t.reported == s.reported && t.discarded == s.discarded
      && (t.timer <==> t.buffered != [] && (s.timer || cfg.timed))
  {
  }

  /** A flush hands over exactly the frames taken before the first refusal, oldest first, keeps the others in
      order, and leaves the timer running exactly if some are left and it ran or buffering is timed. */
  lemma {:induction false} FlushTakes(cfg: Config, s: State) returns (k: nat)
    requires !s.degraded
    ensures TakesFirst(s, k)
    ensures
      var t := Flushed(cfg, s);
      && t.accepted == s.accepted + s.buffered[..k] && t.buffered == s.buffered[k..]
      && t.sent == s.sent && t.seqNo == s.seqNo && t.reported == s.reported && t.discarded == s.discarded
      && (t.timer <==> t.buffered != [] && (s.timer || cfg.timed))
    decreases |s.buffered|
  {
    hide Flushed;
    if s.buffered != [] && s.answers != [] && s.answers[0] {
      var rest := FlushTakes(cfg, s.(answers := s.answers[1..], accepted := s.accepted + [s.buffered[0]],
                                     buffered := s.buffered[1..]));
      TakesOneMore(cfg, s, rest);
      k := rest + 1;
    } else {
      FlushedStops(cfg, s);
      k := 0;
    }
  }

  /** A message to a live relay with nothing waiting goes out at once if the transport takes it; otherwise it
      waits, or, without any room, is dropped and reported. */
  lemma SendAtOnce(cfg: Config, s: State, data: Bytes)
    requires !s.disposed && !s.degraded && s.buffered == []
    ensures
      var t := Sent(cfg, s, data);
      var frame := Frame(s.seqNo + 1, data);
      var taken := s.answers != [] && s.answers[0];
      && t.sent == s.sent + [data] && t.seqNo == s.seqNo + 1
      && t.accepted == (if taken then s.accepted + [frame] else s.accepted)
      && t.buffered == (if !taken && cfg.maxBufferedFrames > 0 then [frame] else [])
      && t.reported == (if !taken && cfg.maxBufferedFrames <= 0 then s.reported + [1] else s.reported)
  {
  }

  /** A message to a live relay with frames waiting joins them, and all are flushed, as far as the transport
      takes them; or, without room, all are dropped with it and their number is reported. */
  lemma SendBehind(cfg: Config, s: State, data: Bytes) returns (k: nat)
    requires !s.disposed && !s.degraded && s.buffered != []
    ensures
      var t := Sent(cfg, s, data);
      var all := s.buffered + [Frame(s.seqNo + 1, data)];
      && t.sent == s.sent + [data] && t.seqNo == s.seqNo + 1
      && if |s.buffered| >= cfg.maxBufferedFrames then
           t.accepted == s.accepted && t.buffered == [] && t.reported == s.reported + [|all|] && !t.timer
         else
           TakesFirst(s.(buffered := all), k)
           && t.accepted == s.accepted + all[..k] && t.buffered == all[k..] && t.reported == s.reported
  {
    hide Flushed;
    k := 0;
    if |s.buffered| < cfg.maxBufferedFrames {
      k := FlushTakes(cfg, Buffered(cfg, Numbered(s, data), Frame(s.seqNo + 1, data)));
    }
  }
}
