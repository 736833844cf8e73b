/** The acknowledged relay endpoint as the program runs it: fields updated in place, a flush loop, an
    inbound queue, and listeners and a transport that may call back into the endpoint.

    `log` records the atomic steps taken so far and `view` the state they lead to, so whatever is
    proved about runs of RelayEndpoint holds of this object.  Answers of the environment come from
    `script` (one per call of sendFrame or of a listener, with what it re-enters) and `deadlines`
    (one per deadline check); a transport whose script has run out refuses. */
module RelayProtocol {
  import opened Wrappers
  import opened RelayFrames
  import opened RelayAssembler
  import opened RelayBatchQueue
  import opened RelayEndpoint
  import opened RelayEndpointSafety
  import opened RelayLimits

  /** What reaches acceptPayload: own traffic, or something for another bridge or no transport at all. */
  datatype Candidate = Own(payload: Payload) | Foreign

  datatype Reentry =
    | Accepting(candidate: Candidate)
    | Sending(bytes: Bytes, budget: nat)
    | MarkingDegraded
    | Disposing

  datatype Turn = Sent | Refused | Idle

  datatype Reply = Reply(accepted: bool, throws: bool, reentries: seq<Reentry>)

  /** A reply that throws, or that does anything but hand in payloads while it runs. */
  predicate IsHarmful(reply: Reply) {
    reply.throws || exists r <- reply.reentries :: !r.Accepting?
  }

  function HarmfulReplies(script: seq<Reply>): nat {
    if script == [] then 0 else (if IsHarmful(script[0]) then 1 else 0) + HarmfulReplies(script[1..])
  }

  function Expiries(deadlines: seq<bool>): nat {
    if deadlines == [] then 0 else (if deadlines[0] then 1 else 0) + Expiries(deadlines[1..])
  }

  /** How often the environment will still do what may stop the endpoint: throw, call back otherwise than
      with a payload, or let a deadline run out. */
  function Hazards(script: seq<Reply>, deadlines: seq<bool>): nat {
    HarmfulReplies(script) + Expiries(deadlines)
  }

  lemma ReplyUsed(script: seq<Reply>, deadlines: seq<bool>)
    requires script != []
    ensures Hazards(script[1..], deadlines) <= Hazards(script, deadlines)
    ensures IsHarmful(script[0]) ==> Hazards(script[1..], deadlines) < Hazards(script, deadlines)
  {
  }

  lemma DeadlineUsed(script: seq<Reply>, deadlines: seq<bool>)
    requires deadlines != []
    ensures Hazards(script, deadlines[1..]) <= Hazards(script, deadlines)
    ensures deadlines[0] ==> Hazards(script, deadlines[1..]) < Hazards(script, deadlines)
  {
  }

  /** The last step took in a payload, so if it stopped the endpoint, the payload was at fault. */
  predicate ByFault(log: seq<Step>) {
    log != [] && (log[|log| - 1].Receive? || log[|log| - 1].Drain?)
  }

  /** What the steps the program takes outside inbound processing do. */
  lemma StepEffect(cfg: Config, e: Endpoint, s: Step)
    requires Enabled(cfg, e, s)
    ensures
      var after := Apply(cfg, e, s);
      match s
      case Reserve(m, outerBytes) =>
        after == e.(out := Appended(cfg.crc, e.out, m, outerBytes), ledger := Charged(cfg, e.ledger, outerBytes))
      case Emit => after == e.(inCall := Some(NextPayload(e)), wire := e.wire + [NextPayload(e)])
      case Return(accepted) => after == Returned(e, accepted)
      case Receive(p) =>
        after == if e.inCall.Some? then e.(queued := e.queued + [p]) else RelayEndpoint.ProcessInbound(cfg, e, p)
      case Drain => after == RelayEndpoint.ProcessInbound(cfg, e.(queued := e.queued[1..]), e.queued[0])
      case QueueAck(a) =>
        && after == e.(pendingAck := after.pendingAck, owed := after.owed)
        && after.pendingAck == (if e.pendingAck.Some? && a <= e.pendingAck.value then e.pendingAck else Some(a))
        && (e.owed <= a ==> after.owed == 0) && after.owed <= e.owed
      case Replay => after == e.(out := Rewind(e.out))
      case Degrade => after == Stopped(e, Degraded)
      case Dispose => after == Stopped(e, Disposed)
  {
  }

  lemma InboundAck(cfg: Config, e: Endpoint, a: nat)
    requires a > 0
    ensures
      RelayEndpoint.ProcessInbound(cfg, e, Ack(a)) ==
        if a <= e.out.lastAcked then e
        else if a > e.out.highestFullySent then Stopped(e, Degraded)
        else e.(out := Released(e.out, a),
                ledger := Credited(cfg, e.ledger, SumBytes(e.out.batches[..ReleaseCount(e.out.batches, a)])))
  {
  }

  /** Which payloads stop a live endpoint: malformed ones, acknowledgements of 0 or of what was never sent
      in full, invalid frames, and frames at which the assembler finds a fault. */
  lemma InboundStops(cfg: Config, e: Endpoint, p: Payload)
    requires e.status == Live
    ensures
      var after := RelayEndpoint.ProcessInbound(cfg, e, p);
      && (after.status == Live <==>
          match p
          case Malformed => false
          case Ack(a) => 0 < a <= Max(e.out.lastAcked, e.out.highestFullySent)
          case Data(f) => ValidFrame(f) && !Accept(cfg.crc, e.assembler, f).1.Fault?)
      && (after.status != Live ==> after == Stopped(e, Degraded))
  {
    hide ValidFrame, RelayAssembler.Accept, Released, Credited;
  }

  /** While a frame is under way it is the one the cursor points at; an acknowledgement, the pending one. */
  lemma UnderWay(cfg: Config, log: seq<Step>)
    requires ValidConfig(cfg) && Run(cfg, log).Some?
    ensures
      var e := Run(cfg, log).value;
      e.status == Live && e.inCall.Some? ==>
        match e.inCall.value
        case Ack(a) => e.pendingAck == Some(a)
        case Data(f) => e.pendingAck.None? && HasUnsent(e.out) && f == NextFrame(e.out)
        case Malformed => false
  {
    hide Run;
    RunInv(cfg, log);
  }

  /** Counting the frame under way. */
  lemma FrameUnderWay(cfg: Config, log: seq<Step>)
    requires ValidConfig(cfg) && Run(cfg, log).Some? && Run(cfg, log).value.status == Live
    requires Run(cfg, log).value.inCall.Some? && Run(cfg, log).value.inCall.value.Data?
    ensures
      var e := Run(cfg, log).value;
      HasUnsent(e.out) && e.inCall.value == Data(NextFrame(e.out)) && e.pendingAck.None?
      && Advanced(e.out, RelayEndpoint.FrameAccepted(e.out, NextFrame(e.out)))
  {
    hide Run;
    RunInv(cfg, log);
    var e := Run(cfg, log).value;
    NextFramePlaced(cfg.crc, e.out);
    AcceptedNextSeq(cfg.crc, e.out, NextFrame(e.out));
    assert CarriesAt(cfg.crc, e.out.messages, e.out.lastAcked, e.out.batches, e.out.cursor);
  }

  /** Whatever is owed or pending has been delivered. */
  lemma OwedIsDelivered(cfg: Config, log: seq<Step>)
    requires ValidConfig(cfg) && Run(cfg, log).Some? && Run(cfg, log).value.status == Live
    ensures Run(cfg, log).value.assembler.lastCompleted == |Run(cfg, log).value.delivered|
  {
    hide Run;
    RunInv(cfg, log);
  }

  ghost predicate SameProgress(o: Outgoing, o': Outgoing) {
    NextSeq(o') == NextSeq(o) && o'.accepted == o.accepted && o'.highestFullySent == o.highestFullySent
  }

  lemma ReserveProgress(cfg: Config, log: seq<Step>, m: Message, outerBytes: nat)
    requires ValidConfig(cfg) && Run(cfg, log).Some? && Run(cfg, log).value.status == Live
    ensures SameProgress(Run(cfg, log).value.out, Appended(cfg.crc, Run(cfg, log).value.out, m, outerBytes))
  {
    hide Run;
    RunInv(cfg, log);
    ReserveNextSeq(cfg.crc, Run(cfg, log).value.out, m, outerBytes);
  }

  lemma AppendedBatch(crc: Crc, o: Outgoing, m: Message, outerBytes: nat)
    ensures
      var after := Appended(crc, o, m, outerBytes);
      after.cursor == o.cursor && |after.batches| == |o.batches| + 1
  {
  }

  /** What was just reserved is still to be sent. */
  lemma ReservedIsUnsent(cfg: Config, log: seq<Step>, m: Message, outerBytes: nat)
    requires ValidConfig(cfg) && Run(cfg, log).Some? && Enabled(cfg, Run(cfg, log).value, Reserve(m, outerBytes))
    ensures CanSend(Apply(cfg, Run(cfg, log).value, Reserve(m, outerBytes)))
  {
    hide Run, Apply, Accounting, Inbound, Epoch, RelayEndpoint.Sent, Covers, Histories, Appended;
    var e, s := Run(cfg, log).value, Reserve(m, outerBytes);
    RunInv(cfg, log);
    RunGrows(cfg, log, s);
    RunInv(cfg, log + [s]);
    StepEffect(cfg, e, s);
    var o := Appended(cfg.crc, e.out, m, outerBytes);
    AppendedBatch(cfg.crc, e.out, m, outerBytes);
    assert CursorAt(o.batches, o.cursor, o.cursor);
  }

  /** The next frame of `o` counts as sent in `o'`, and its message too when it was the last one. */
  ghost predicate Advanced(o: Outgoing, o': Outgoing) {
    && HasUnsent(o)
    && NextSeq(o') == NextSeq(o) + 1 && o'.accepted == o.accepted + [NextFrame(o).seqNo]
    && o'.highestFullySent ==
         if NextFrame(o).fragmentIndex + 1 == NextFrame(o).fragmentCount
         then Max(o.highestFullySent, NextFrame(o).messageSeq) else o.highestFullySent
  }

  /** The next sendFrame takes its payload and meanwhile hands in something malformed; no deadline runs out. */
  predicate Misleads(script: seq<Reply>, deadlines: seq<bool>) {
    script != [] && script[0] == Reply(true, false, [Accepting(Own(Malformed))]) && deadlines == []
  }

  class AcknowledgedRelayProtocol {
    const cfg: Config
    const measureFrameBytes: Frame -> int
    const outboundBatches: BatchQueue
    var queuedInbound: seq<Payload>
    var pendingAckMessageSeq: Option<nat>
    var nextPhysicalSeq: nat
    var nextMessageSeq: nat
    var highestFullySentMessageSeq: nat
    var lastAckedMessageSeq: nat
    var unacknowledgedByteCount: nat
    var saturated: bool
    var disposed: bool
    var degraded: bool
    var flushing: bool
    var outboundCallDepth: nat
    var assembler: Option<Assembler>
    var script: seq<Reply>
    var deadlines: seq<bool>
    ghost var view: Endpoint
    ghost var log: seq<Step>
    ghost var level: nat       // how many inbound payloads are being processed, one inside the other
    ghost var refusals: nat    // history: sendFrame calls made at this level that were refused
    ghost var stopLevel: nat   // history: the level at which the endpoint stopped

    ghost predicate OutHolds(o: Outgoing)
      reads this, outboundBatches
    {
      && outboundBatches.Valid()
      && outboundBatches.Contents() == o.batches
      && outboundBatches.Cursor() == o.cursor
      && nextPhysicalSeq == o.nextPhysicalSeq
      && nextMessageSeq == o.nextMessageSeq
      && highestFullySentMessageSeq == o.highestFullySent
      && lastAckedMessageSeq == o.lastAcked
    }

    ghost predicate LedgerHolds(l: Ledger)
      reads this
    {
      unacknowledgedByteCount == l.unackedBytes && saturated == l.saturated
    }

    /** The fields hold what the state `e` says. */
    ghost predicate Holds(e: Endpoint)
      reads this, outboundBatches
    {
      && outboundBatches.Valid()
      && (e.status == Live <==> !disposed && !degraded)
      && (e.status == Live ==>
            && OutHolds(e.out) && LedgerHolds(e.ledger)
            && pendingAckMessageSeq == e.pendingAck
            && queuedInbound == e.queued
            && assembler == Some(e.assembler))
      && (e.status != Live ==> pendingAckMessageSeq.None?)
    }

    ghost predicate Explained()
      reads this
    {
      ValidConfig(cfg) && Run(cfg, log) == Some(view)
    }

    ghost predicate Valid()
      reads this, outboundBatches
    {
      && Explained() && Holds(view)
      && (view.status == Live ==> outboundCallDepth == if view.inCall.Some? then 1 else 0)
      && (outboundCallDepth > 0 ==> flushing)
    }

    /** No deadline will run out. */
    ghost predicate InTime()
      reads this
    {
      true !in deadlines
    }

    /** The next listener, if it does anything at all, calls nothing back. */
    ghost predicate Plain()
      reads this
    {
      script == [] || script[0].reentries == []
    }

    /** Nothing is undone: the log only grows, replies are only used up, calls stay balanced, and no more
        than `owed` is left unacknowledged. */
    twostate predicate Goes(owed: nat)
      reads this
    {
      && old(log) <= log && |old(view).delivered| <= |view.delivered|
      && flushing == old(flushing) && outboundCallDepth == old(outboundCallDepth) && level == old(level)
      && (view.status == Live ==> old(view).status == Live && view.inCall == old(view).inCall && view.owed <= owed)
      && (old(view).status != Live ==> log == old(log) && view == old(view))
      && (if old(view).status != Live then stopLevel == old(stopLevel) else view.status != Live ==> stopLevel >= level)
      && |script| <= |old(script)| && (old(InTime()) ==> InTime())
    }

    /** A call that comes back owes no acknowledgement it did not owe before. */
    twostate predicate Continues()
      reads this
    {
      Goes(old(view).owed)
    }

    /** While a flush runs, what is called from inside it starts and ends no sendFrame call; while
        sendFrame runs, nothing is counted as sent. */
    twostate predicate Quiet()
      reads this
    {
      old(flushing) ==>
        && refusals == old(refusals) && view.wire == old(view).wire && view.inCall == old(view).inCall
        && (old(outboundCallDepth) > 0 && view.status == Live ==> SameProgress(old(view).out, view.out))
        && (old(outboundCallDepth > 0 && view.status == Live) && view.status != Live ==> stopLevel == level)
    }

    /** Without using up a reply, a call leaves no more inbound waiting than it found. */
    twostate predicate Spends()
      reads this
    {
      |script| < |old(script)| || (script == old(script) && |queuedInbound| <= |old(queuedInbound)|)
    }

    /** An endpoint that stops does so for a reason: the payload taken in last is at fault, or a hazard of
        the environment has come true meanwhile. */
    twostate predicate Justified()
      reads this
    {
      var now, before := Hazards(script, deadlines), old(Hazards(script, deadlines));
      now <= before && (old(view).status == Live && view.status != Live ==> ByFault(log) || now < before)
    }

    /** Nothing waits and the environment does nothing more but refuse. */
    ghost predicate Calm()
      reads this
    {
      script == [] && deadlines == [] && queuedInbound == []
    }

    /** In calm an endpoint that lives goes on living. */
    twostate predicate Steady()
      reads this
    {
      old(Calm() && view.status == Live) ==> Calm() && view.status == Live
    }

    /** The deadline check that comes next says that time has run out. */
    ghost predicate Expiring()
      reads this
    {
      deadlines != [] && deadlines[0]
    }

    function FramesOf(message: Message): seq<Frame>
      reads this
    {
      EncodeFrames(cfg.crc, nextPhysicalSeq, nextMessageSeq, message)
    }

    /** The size of the message's frames; what has no measurable frames has none. */
    function OuterBytes(message: Message): nat
      reads this
    {
      var size := FrameSizes(FramesOf(message), measureFrameBytes);
      if size < 0 then 0 else size
    }

    /** The message can be encoded, each of its frames has a size within the limit, and all of them fit
        into the replay buffer beside what is unacknowledged. */
    ghost predicate Admitted(bytes: Bytes, budget: nat)
      reads this
    {
      && Encode(bytes, budget).Ok?
      && Measurable(FramesOf(Encode(bytes, budget).value), measureFrameBytes)
      && unacknowledgedByteCount + OuterBytes(Encode(bytes, budget).value) <= cfg.replayCap
    }

    ghost function Reserving(bytes: Bytes, budget: nat): Step
      reads this
      requires Admitted(bytes, budget)
    {
      Reserve(Encode(bytes, budget).value, OuterBytes(Encode(bytes, budget).value))
    }

    constructor (cfg: Config, measureFrameBytes: Frame -> int, script: seq<Reply>, deadlines: seq<bool>)
      requires ValidConfig(cfg)
      ensures Valid() && fresh(outboundBatches) && view == FRESH && log == []
      ensures this.cfg == cfg && !flushing && queuedInbound == [] && outboundCallDepth == 0
      ensures this.script == script && this.deadlines == deadlines
    {
      this.cfg, this.measureFrameBytes := cfg, measureFrameBytes;
      outboundBatches := new BatchQueue();
      queuedInbound := [];
      pendingAckMessageSeq := None;
      nextPhysicalSeq, nextMessageSeq := 1, 1;
      highestFullySentMessageSeq, lastAckedMessageSeq, unacknowledgedByteCount := 0, 0, 0;
      saturated, disposed, degraded, flushing := false, false, false, false;
      outboundCallDepth := 0;
      assembler := Some(INITIAL);
      this.script, this.deadlines := script, deadlines;
      view, log, level, refusals, stopLevel := FRESH, [], 0, 0, 0;
    }

    /** Notes that the fields now hold the state after step `s`. */
    ghost method Record(s: Step)
      requires Explained() && Enabled(cfg, view, s) && Holds(Apply(cfg, view, s))
      modifies this`view, this`log, this`stopLevel
      ensures Explained() && Holds(view)
      ensures view == Apply(cfg, old(view), s) && log == old(log) + [s]
      ensures stopLevel == if view.status == Live then old(stopLevel) else level
    {
      hide Apply, Enabled, Run, Hazards;
      RunGrows(cfg, log, s);
      view, log := Apply(cfg, view, s), log + [s];
      stopLevel := if view.status == Live then stopLevel else level;
    }

    /** The field resets of entering the degraded state. */
    method ResetDegraded()
      requires outboundBatches.Valid()
      modifies this`degraded, this`queuedInbound, this`pendingAckMessageSeq, this`unacknowledgedByteCount,
               this`saturated, this`assembler, outboundBatches
      ensures degraded && outboundBatches.Valid() && queuedInbound == [] && pendingAckMessageSeq.None?
    {
      degraded := true;
      outboundBatches.Clear();
      queuedInbound := [];
      pendingAckMessageSeq := None;
      unacknowledgedByteCount := 0;
      saturated := false;
      assembler := None;
    }

    method EnterDegraded()
      requires Valid()
      modifies this, outboundBatches
      ensures Valid() && Continues() && Quiet() && Spends() && script == old(script) && deadlines == old(deadlines)
      ensures log == if old(view).status == Live then old(log) + [Degrade] else old(log)
      ensures view.status != Live && refusals == old(refusals)
      ensures stopLevel == if old(view).status == Live then level else old(stopLevel)
    {
      hide Apply, Run, Hazards;
      if disposed || degraded { return; }
      ResetDegraded();
      StepEffect(cfg, view, Degrade);
      Record(Degrade);
    }

    /** The field resets of disposing. */
    method ResetDisposed()
      requires outboundBatches.Valid()
      modifies this`disposed, this`queuedInbound, this`pendingAckMessageSeq, this`unacknowledgedByteCount,
               this`assembler, outboundBatches
      ensures disposed && outboundBatches.Valid() && queuedInbound == [] && pendingAckMessageSeq.None?
    {
      disposed := true;
      outboundBatches.Clear();
      queuedInbound := [];
      pendingAckMessageSeq := None;
      unacknowledgedByteCount := 0;
      assembler := None;
    }

    method Dispose()
      requires Valid()
      modifies this, outboundBatches
      ensures Valid() && Continues() && Quiet() && Spends() && disposed
      ensures script == old(script) && deadlines == old(deadlines)
      ensures log == if old(view).status == Live then old(log) + [Step.Dispose] else old(log)
    {
      hide Apply, Run, Hazards;
      if disposed { return; }
      ResetDisposed();
      if view.status == Live {
        StepEffect(cfg, view, Step.Dispose);
        Record(Step.Dispose);
      }
    }

    /** deadline.check(): the environment says whether the oldest entry's grace has run out. */
    method DeadlineExpired() returns (expired: bool)
      requires Valid()
      modifies this, outboundBatches
      ensures Valid() && Continues() && Quiet() && Spends() && script == old(script) && Justified()
      ensures expired <==> old(Expiring())
      ensures deadlines == if old(deadlines) == [] then [] else old(deadlines)[1..]
      ensures !expired ==> view == old(view) && log == old(log) && queuedInbound == old(queuedInbound)
      ensures expired ==> view.status != Live && (old(view).status == Live ==> stopLevel == level)
      ensures refusals == old(refusals)
      ensures log == if expired && old(view).status == Live then old(log) + [Degrade] else old(log)
    {
      hide Apply, Run, Hazards;
      if deadlines == [] { return false; }
      DeadlineUsed(script, deadlines);
      expired := deadlines[0];
      deadlines := deadlines[1..];
      if expired { EnterDegraded(); }
    }

    // ---------- sending ----------

    /** protocol.send: encode, admit by size, append, flush. */
    method ReserveMessage(bytes: Bytes, budget: nat)
      requires Valid()
      modifies this, outboundBatches
      ensures Valid() && Continues() && Quiet() && Spends()
      ensures Hazards(script, deadlines) <= old(Hazards(script, deadlines))
      // the decision, both ways: an admitted message is reserved first of all, any other stops the endpoint
      ensures old(view.status == Live && !Expiring() && Admitted(bytes, budget)) ==>
                && old(log) + [old(Reserving(bytes, budget))] <= log
                && Justified()
      ensures old(view.status == Live && (Expiring() || !Admitted(bytes, budget))) ==> log == old(log) + [Degrade]
      ensures old(view.status == Live && Calm()) ==> (view.status == Live <==> old(Admitted(bytes, budget)))
      // outside a flush the next thing to be sent goes out at once
      ensures old(view.status == Live && InTime() && Admitted(bytes, budget) && !flushing && Plain()) ==>
                |old(log)| + 1 < |log| && log[|old(log)| + 1] == Emit
      decreases |script|, |queuedInbound|, 11
    {
      hide Apply, Run, Hazards, Measurable, FrameSizes, EncodeFrames, Encode;
      if disposed || degraded { return; }
      var expired := DeadlineExpired();
      if expired { return; }
      var prepared := Prepare(bytes, budget);
      if prepared.None? || unacknowledgedByteCount + prepared.value.1 > cfg.replayCap {
        EnterDegraded();
        return;
      }
      var crosses := AppendMessage(prepared.value.0, prepared.value.1);
      Announce(crosses);
    }

    /** Tells the listener of a crossed watermark, then flushes. */
    method Announce(crosses: bool)
      requires Valid()
      modifies this, outboundBatches
      ensures Valid() && Continues() && Quiet() && Spends() && Justified() && Steady()
      ensures crosses && old(script) != [] ==> |script| < |old(script)|
      ensures old(view.status == Live && !flushing && InTime() && CanSend(view)) && (!crosses || old(Plain())) ==>
                old(log) + [Emit] <= log
      decreases |script|, |queuedInbound|, 10
    {
      hide Apply, Run, Enabled, Hazards;
      if crosses { var _ := Notify(); }
      var _ := FlushPendingFrames();
    }

    /** Encodes a message and measures its frames; None when either fails. */
    method Prepare(bytes: Bytes, budget: nat) returns (r: Option<(Message, nat)>)
      ensures r.Some? <==>
                Encode(bytes, budget).Ok? && Measurable(FramesOf(Encode(bytes, budget).value), measureFrameBytes)
      ensures r.Some? ==> Encode(bytes, budget) == Ok(r.value.0) && WithinLimits(r.value.0)
      ensures r.Some? ==> r.value.1 == OuterBytes(r.value.0)
    {
      var encoded := Encode(bytes, budget);
      if encoded.Err? { return None; }
      var frames := EncodeFrames(cfg.crc, nextPhysicalSeq, nextMessageSeq, encoded.value);
      var outerBytes := MeasureBatch(frames, measureFrameBytes);
      return if outerBytes.Some? then Some((encoded.value, outerBytes.value)) else None;
    }

    /** The admitted message joins the replay buffer; says whether the high watermark was crossed. */
    method AppendMessage(message: Message, outerBytes: nat) returns (crosses: bool)
      requires Valid() && view.status == Live && Enabled(cfg, view, Reserve(message, outerBytes))
      modifies this`nextMessageSeq, this`nextPhysicalSeq, this`unacknowledgedByteCount, this`saturated, this`view,
               this`log, this`stopLevel, outboundBatches
      ensures Valid() && Continues() && Quiet() && view.status == Live
      ensures log == old(log) + [Reserve(message, outerBytes)]
      ensures view == Apply(cfg, old(view), Reserve(message, outerBytes))
      ensures crosses <==> !old(saturated) && saturated
      ensures CanSend(view)
    {
      hide Apply, Run, Enabled, Appended, Charged, SameProgress, Hazards, CanSend, HasUnsent;
      AppendBatch(message, outerBytes);
      crosses := ChargeBytes(outerBytes);
      StepEffect(cfg, view, Reserve(message, outerBytes));
      ReserveProgress(cfg, log, message, outerBytes);
      Record(Reserve(message, outerBytes));
      ReservedIsUnsent(cfg, old(log), message, outerBytes);
    }

    method AppendBatch(message: Message, outerBytes: nat)
      requires OutHolds(view.out)
      modifies this`nextMessageSeq, this`nextPhysicalSeq, outboundBatches
      ensures OutHolds(Appended(cfg.crc, view.out, message, outerBytes))
    {
      var frames := EncodeFrames(cfg.crc, nextPhysicalSeq, nextMessageSeq, message);
      outboundBatches.Append(Batch(nextMessageSeq, frames, outerBytes, 0));
      nextMessageSeq := nextMessageSeq + 1;
      nextPhysicalSeq := frames[|frames| - 1].seqNo + 1;
    }

    /** Counts the bytes; says whether they cross the high watermark. */
    method ChargeBytes(outerBytes: nat) returns (crosses: bool)
      requires LedgerHolds(view.ledger)
      modifies this`unacknowledgedByteCount, this`saturated
      ensures LedgerHolds(Charged(cfg, view.ledger, outerBytes))
      ensures crosses <==> !old(saturated) && saturated
    {
      unacknowledgedByteCount := unacknowledgedByteCount + outerBytes;
      crosses := !saturated && unacknowledgedByteCount > cfg.highWater;
      if crosses { saturated := true; }
    }

    /** Calls sendFrame, which may re-enter; what it re-enters only queues and appends. */
    method InvokeSend(payload: Payload) returns (accepted: bool)
      requires Valid() && view.status == Live && flushing && outboundCallDepth == 0
      requires CanSend(view) && payload == NextPayload(view)
      modifies this, outboundBatches
      ensures Explained() && Holds(view) && flushing && outboundCallDepth == 0
      ensures old(log) + [Emit] <= log && |old(view).delivered| <= |view.delivered|
      ensures refusals == old(refusals) && level == old(level)
      ensures view.status != Live ==> stopLevel == level
      ensures view.inCall == Some(payload) && view.wire == old(view).wire + [payload]
      ensures view.status == Live ==> view.owed <= old(view).owed && SameProgress(old(view).out, view.out)
      ensures Justified() && Steady() && (old(InTime()) ==> InTime())
      // a throwing transport degrades the endpoint; any other says whether it took the payload
      ensures old(script) != [] && old(script)[0].throws ==> view.status != Live
      ensures accepted <==> old(script) != [] && old(script)[0].accepted && !old(script)[0].throws
      ensures if accepted then |script| < |old(script)| else |script| <= |old(script)|
      ensures |script| == |old(script)| ==> script == old(script) && queuedInbound == old(queuedInbound)
      ensures old(Misleads(script, deadlines)) ==>
                accepted && view.status == Live && log == old(log) + [Emit, Receive(Malformed)] && deadlines == []
                && view.queued == old(view).queued + [Malformed]
      decreases |script|, |queuedInbound|, 3
    {
      hide Apply, Run, Hazards, ByFault;
      outboundCallDepth := outboundCallDepth + 1;
      StepEffect(cfg, view, Emit);
      Record(Emit);
      accepted := SendFrame();
      outboundCallDepth := outboundCallDepth - 1;
    }

    /** The call itself: whether the transport took the payload; one that throws degrades the endpoint. */
    method SendFrame() returns (accepted: bool)
      requires Valid() && view.status == Live && flushing && outboundCallDepth == 1
      modifies this, outboundBatches
      ensures Valid() && Continues() && Quiet() && Justified() && Steady()
      ensures old(script) != [] && old(script)[0].throws ==> view.status != Live
      ensures accepted <==> old(script) != [] && old(script)[0].accepted && !old(script)[0].throws
      ensures if accepted then |script| < |old(script)| else |script| <= |old(script)|
      ensures |script| == |old(script)| ==> script == old(script) && queuedInbound == old(queuedInbound)
      ensures old(Misleads(script, deadlines)) ==>
                accepted && view.status == Live && log == old(log) + [Receive(Malformed)] && deadlines == []
                && view.queued == old(view).queued + [Malformed]
      decreases |script|, |queuedInbound|, 2
    {
      hide Apply, Run, Enabled, Hazards;
      var reply := Answer();
      if reply.Some? && reply.value.throws { EnterDegraded(); }
      accepted := reply.Some? && reply.value.accepted && !reply.value.throws;
    }

    /** The outside runs once, re-entering the endpoint as it likes; None when it does nothing. */
    method Answer() returns (reply: Option<Reply>)
      requires Valid()
      modifies this, outboundBatches
      ensures Valid() && Continues() && Quiet() && Justified() && Steady()
      ensures reply == if old(script) == [] then None else Some(old(script)[0])
      ensures reply.Some? && reply.value.throws ==> Hazards(script, deadlines) < old(Hazards(script, deadlines))
      ensures reply.None? ==>
                script == old(script) && view == old(view) && log == old(log) && queuedInbound == old(queuedInbound)
      ensures old(Plain()) ==>
                view == old(view) && log == old(log) && queuedInbound == old(queuedInbound)
                && deadlines == old(deadlines)
      ensures reply.Some? ==> |script| < |old(script)|
      ensures old(outboundCallDepth > 0 && view.status == Live && Misleads(script, deadlines)) ==>
                view.status == Live && log == old(log) + [Receive(Malformed)] && deadlines == []
                && view.queued == old(view).queued + [Malformed]
      decreases |script|, 0, 1
    {
      hide Apply, Run, Enabled, Hazards;
      if script == [] { return None; }
      ReplyUsed(script, deadlines);
      reply := Some(script[0]);
      script := script[1..];
      Reenter(reply.value.reentries);
    }

    /** A listener runs: it may re-enter the endpoint and may throw. */
    method Notify() returns (threw: bool)
      requires Valid()
      modifies this, outboundBatches
      ensures Valid() && Continues() && Quiet() && Spends() && Justified() && Steady()
      ensures threw <==> old(script) != [] && old(script)[0].throws
      ensures threw ==> Hazards(script, deadlines) < old(Hazards(script, deadlines))
      ensures old(script) != [] ==> |script| < |old(script)|
      ensures old(Plain()) ==> view == old(view) && log == old(log)
      decreases |script|, |queuedInbound|, 2
    {
      hide Apply, Run, Enabled, Hazards;
      var reply := Answer();
      threw := reply.Some? && reply.value.throws;
    }

    method Reenter(reentries: seq<Reentry>)
      requires Valid()
      modifies this, outboundBatches
      ensures Valid() && Continues() && Quiet()
      ensures Hazards(script, deadlines) <= old(Hazards(script, deadlines))
      ensures (forall r <- reentries :: r.Accepting?) ==> Justified()
      ensures reentries == [] ==>
                view == old(view) && log == old(log) && queuedInbound == old(queuedInbound)
                && deadlines == old(deadlines)
      ensures reentries == [Accepting(Own(Malformed))] && old(outboundCallDepth > 0 && view.status == Live)
              && old(deadlines) == [] ==>
                view.status == Live && log == old(log) + [Receive(Malformed)] && deadlines == []
                && view.queued == old(view).queued + [Malformed]
      decreases |script| + 1, 0, 0
    {
      hide Apply, Run, Enabled, Hazards;
      for i := 0 to |reentries|
        invariant Valid() && Continues() && Quiet()
        invariant Hazards(script, deadlines) <= old(Hazards(script, deadlines))
        invariant (forall k | 0 <= k < i :: reentries[k].Accepting?) ==> Justified()
        invariant i == 0 ==>
                    view == old(view) && log == old(log) && deadlines == old(deadlines)
                    && queuedInbound == old(queuedInbound)
        invariant i == 1 && reentries[0] == Accepting(Own(Malformed))
                  && old(outboundCallDepth > 0 && view.status == Live && deadlines == []) ==>
                    view.status == Live && log == old(log) + [Receive(Malformed)] && deadlines == []
                    && view.queued == old(view).queued + [Malformed]
      {
        match reentries[i]
        case Accepting(candidate) => var _ := AcceptPayload(candidate);
        case Sending(bytes, budget) => ReserveMessage(bytes, budget);
        case MarkingDegraded => EnterDegraded();
        case Disposing => Dispose();
      }
    }

    /** Sends what can be sent, then drains what was queued meanwhile. */
    method FlushPendingFrames() returns (drained: bool)
      requires Valid()
      modifies this, outboundBatches
      ensures Valid() && Continues() && Quiet() && Spends() && Justified() && Steady()
      ensures old(flushing) || old(view).status != Live ==> !drained
      ensures old(flushing) && view.status == Live ==> log == old(log) && view == old(view)
      // what can be sent is sent at once, and nothing that came in meanwhile is left
      ensures old(!flushing && view.status == Live && InTime() && CanSend(view)) ==> old(log) + [Emit] <= log
      ensures !old(flushing) && view.status == Live ==> queuedInbound == []
      // the answer, exactly, whether the endpoint lives on or not
      ensures !old(flushing) && old(view).status == Live ==> (drained <==> old(refusals) == refusals && Undisturbed())
      // with nothing waiting inbound, a live endpoint says "drained" exactly when nothing is left to
      // send; otherwise some payload was refused
      ensures old(queuedInbound) == [] && view.status == Live && drained ==> !CanSend(view)
      ensures old(queuedInbound) == [] && view.status == Live && !drained && !flushing ==>
                Return(false) in log[|old(log)|..]
      ensures old(Misled()) ==> drained && view.status == Degraded
      decreases |script|, |queuedInbound|, 9
    {
      hide Apply, Run, Enabled, Hazards, ByFault, CanSend;
      if disposed || degraded { return false; }
      var expired := DeadlineExpired();
      if expired { return false; }
      if flushing { return false; }
      drained := Flush();
    }

    /** A flush that is under way: the send loop, then what came in meanwhile. */
    method Flush() returns (drained: bool)
      requires Valid() && view.status == Live && !flushing
      modifies this, outboundBatches
      ensures Valid() && Continues() && Spends() && Justified() && Steady()
      ensures old(!Expiring() && CanSend(view)) ==> old(log) + [Emit] <= log
      ensures view.status == Live ==> queuedInbound == []
      ensures drained <==> old(refusals) == refusals && Undisturbed()
      ensures old(queuedInbound) == [] && view.status == Live && drained ==> !CanSend(view)
      ensures old(queuedInbound) == [] && view.status == Live && !drained ==> Return(false) in log[|old(log)|..]
      ensures old(Misled()) ==> drained && view.status == Degraded
      decreases |script|, |queuedInbound|, 8
    {
      hide Apply, Run, Enabled, Hazards, ByFault;
      flushing := true;
      var locallyDrained := FlushLoop();
      flushing := false;
      if !disposed && !degraded { DrainQueuedInbound(); }
      drained := locallyDrained && pendingAckMessageSeq.None?;
    }

    /** No acknowledgement waits, and if the endpoint has stopped, it did so while an inbound payload was
        being processed one level further in: not at a deadline check of this level nor during sendFrame. */
    ghost predicate Undisturbed()
      reads this
    {
      pendingAckMessageSeq.None? && (view.status != Live ==> stopLevel > level)
    }

    /** Something can be sent, and the sendFrame call that takes it hands in something malformed. */
    ghost predicate Misled()
      reads this
    {
      && view.status == Live && !flushing && outboundCallDepth == 0 && queuedInbound == []
      && CanSend(view) && Misleads(script, deadlines)
    }

    /** The send loop: a pending acknowledgement before each data frame, inbound drained after each. */
    method FlushLoop() returns (locallyDrained: bool)
      requires Valid() && view.status == Live && flushing && outboundCallDepth == 0
      modifies this, outboundBatches
      ensures Valid() && Continues() && Spends() && Justified() && Steady()
      ensures locallyDrained <==> refusals == old(refusals) && (view.status != Live ==> stopLevel > level)
      ensures old(!Expiring() && CanSend(view)) ==> old(log) + [Emit] <= log
      ensures locallyDrained && view.status == Live ==> pendingAckMessageSeq.None?
      ensures locallyDrained && old(queuedInbound) == [] && view.status == Live ==>
                queuedInbound == [] && !CanSend(view)
      ensures !locallyDrained && view.status == Live ==> Return(false) in log[|old(log)|..]
      ensures old(CanSend(view) && queuedInbound == [] && Misleads(script, deadlines)) ==>
                locallyDrained && view.status == Degraded
      decreases |script|, |queuedInbound|, 7
    {
      hide Apply, Run, Enabled, Hazards, ByFault;
      locallyDrained := true;
      while !disposed && !degraded
        invariant Valid() && Continues() && Spends() && Justified() && Steady() && locallyDrained
        invariant refusals == old(refusals) && (view.status != Live ==> stopLevel > level)
        invariant old(queuedInbound) == [] && view.status == Live ==> queuedInbound == []
        invariant (log == old(log) && view == old(view) && deadlines == old(deadlines))
                  || (old(!Expiring() && CanSend(view)) ==> old(log) + [Emit] <= log)
        invariant (log == old(log) && view == old(view) && script == old(script) && deadlines == old(deadlines)
                   && queuedInbound == old(queuedInbound))
                  || (old(CanSend(view) && queuedInbound == [] && Misleads(script, deadlines)) ==>
                        view.status == Degraded)
        decreases |script|
      {
        var turn := FlushTurn();
        if turn == Idle { break; }
        if turn == Refused { return false; }
      }
    }

    /** What the send loop finds to send is what can be sent next. */
    lemma WhatIsNext()
      requires Valid() && view.status == Live
      ensures pendingAckMessageSeq.Some? ==>
                CanSend(view) && NextPayload(view) == Ack(pendingAckMessageSeq.value)
      ensures pendingAckMessageSeq.None? && outboundBatches.NextUnsent().Some? ==>
                HasUnsent(view.out) && CanSend(view) && NextPayload(view) == Data(NextFrame(view.out))
      ensures pendingAckMessageSeq.None? && outboundBatches.NextUnsent().None? ==> !CanSend(view)
    {
      hide Run;
      if outboundBatches.NextUnsent().Some? { UnsentIsNext(outboundBatches.NextUnsent().value); }
    }

    /** Hands over the pending acknowledgement if there is one, else the next data frame. */
    method SendNext() returns (turn: Turn)
      requires Valid() && view.status == Live && flushing && outboundCallDepth == 0
      modifies this, outboundBatches
      ensures Valid() && Continues() && Spends() && Justified() && Steady()
      ensures turn == Idle <==> !old(CanSend(view))
      ensures turn == Idle ==> view == old(view) && log == old(log) && queuedInbound == old(queuedInbound)
      ensures turn == Idle ==> script == old(script) && refusals == old(refusals)
      ensures turn != Idle ==> Called(turn == Sent) && view.wire == old(view).wire + [NextPayload(old(view))]
      ensures old(CanSend(view) && Misleads(script, deadlines)) ==>
                turn == Sent && log == old(log) + [Emit, Receive(Malformed), Return(true)]
                && view.queued == old(view).queued + [Malformed]
      decreases |script|, |queuedInbound|, 5
    {
      hide Apply, Run, Enabled, Hazards, CanSend, NextPayload, HasUnsent, NextFrame, ByFault, Misleads;
      var sent: bool;
      WhatIsNext();
      if pendingAckMessageSeq.Some? {
        sent := SendPendingAck();
      } else if outboundBatches.NextUnsent().Some? {
        sent := SendNextFrame();
      } else {
        return Idle;
      }
      return if sent then Sent else Refused;
    }

    /** One turn of the send loop: a pending acknowledgement goes before a data frame. */
    method FlushTurn() returns (turn: Turn)
      requires Valid() && view.status == Live && flushing && outboundCallDepth == 0
      modifies this, outboundBatches
      ensures Valid() && Continues() && Spends() && Justified() && Steady()
      ensures turn == Idle ==> view == old(view) && log == old(log) && queuedInbound == old(queuedInbound)
      ensures turn == Idle ==> !CanSend(view) && view.status == Live
      ensures turn == Sent ==> |script| < |old(script)| && (view.status == Live ==> queuedInbound == [])
      ensures turn == Refused && view.status == Live ==> Return(false) in log[|old(log)|..]
      ensures old(!Expiring() && CanSend(view)) ==> old(log) + [Emit] <= log
      // refused, or stopped at this level: by the deadline or during sendFrame
      ensures if view.status == Live then refusals == (if turn == Refused then old(refusals) + 1 else old(refusals))
              else refusals == old(refusals) && (turn == Refused <==> stopLevel == level)
      // what is sent: the pending acknowledgement if there is one, else the next data frame
      ensures turn == Sent || (turn == Refused && view.status == Live) ==>
                |old(log)| < |log| && log[|old(log)|] == Emit
                && old(CanSend(view)) && view.wire == old(view).wire + [NextPayload(old(view))]
      ensures old(CanSend(view) && queuedInbound == [] && Misleads(script, deadlines)) ==>
                turn == Sent && view.status == Degraded
      decreases |script|, |queuedInbound|, 6
    {
      hide Apply, Run, Enabled, Hazards, CanSend, NextPayload, ByFault;
      var expired := DeadlineExpired();
      if expired { return Refused; }
      turn := SendNext();
      if turn == Sent { DrainQueuedInbound(); }
    }

    /** What a sendFrame call of the loop leaves behind. */
    twostate predicate Called(sent: bool)
      reads this
    {
      && |old(log)| < |log| && log[|old(log)|] == Emit
      && (sent ==> view.status == Live && |script| < |old(script)|)
      && (if view.status == Live then log[|log| - 1] == Return(sent) else stopLevel == level)
      && refusals == (if view.status == Live && !sent then old(refusals) + 1 else old(refusals))
    }

    method SendPendingAck() returns (sent: bool)
      requires Valid() && view.status == Live && flushing && outboundCallDepth == 0 && pendingAckMessageSeq.Some?
      modifies this, outboundBatches
      ensures Valid() && Continues() && Spends() && Called(sent) && Justified() && Steady()
      ensures sent <==> view.status == Live && old(script != [] && script[0].accepted && !script[0].throws)
      ensures view.wire == old(view).wire + [Ack(old(pendingAckMessageSeq).value)]
      // cleared when it was taken, still waiting when it was refused
      ensures view.status == Live ==> pendingAckMessageSeq == if sent then None else old(pendingAckMessageSeq)
      ensures old(Misleads(script, deadlines)) ==>
                sent && log == old(log) + [Emit, Receive(Malformed), Return(true)]
                && view.queued == old(view).queued + [Malformed]
      decreases |script|, |queuedInbound|, 4
    {
      hide Apply, Run, Enabled, Hazards;
      var ackMessageSeq := pendingAckMessageSeq.value;
      var accepted := InvokeSend(Ack(ackMessageSeq));
      UnderWay(cfg, log);
      if !accepted || degraded || disposed {
        CallRefused();
        return false;
      }
      AckAccepted(ackMessageSeq);
      return true;
    }

    method SendNextFrame() returns (sent: bool)
      requires Valid() && view.status == Live && flushing && outboundCallDepth == 0
      requires pendingAckMessageSeq.None? && outboundBatches.NextUnsent().Some?
      modifies this, outboundBatches
      ensures Valid() && Continues() && Spends() && Called(sent) && Justified() && Steady()
      ensures sent <==> view.status == Live && old(script != [] && script[0].accepted && !script[0].throws)
      ensures HasUnsent(old(view).out) && view.wire == old(view).wire + [Data(NextFrame(old(view).out))]
      // counted when it was taken: cursor, fully-sent mark and epoch move on by this frame, else not at all
      ensures sent ==> Advanced(old(view).out, view.out)
      ensures !sent && view.status == Live ==> SameProgress(old(view).out, view.out)
      ensures old(Misleads(script, deadlines)) ==>
                sent && log == old(log) + [Emit, Receive(Malformed), Return(true)]
                && view.queued == old(view).queued + [Malformed]
      decreases |script|, |queuedInbound|, 4
    {
      hide Apply, Run, Enabled, Hazards, ByFault, Misleads;
      var accepted := InvokeSend(Data(UnsentFrame()));
      if !accepted || degraded || disposed {
        CallRefused();
        return false;
      }
      FrameAccepted();
      return true;
    }

    /** The frame at the cursor. */
    function UnsentFrame(): (f: Frame)
      reads this, outboundBatches
      requires Valid() && view.status == Live && outboundBatches.NextUnsent().Some?
      ensures HasUnsent(view.out) && f == NextFrame(view.out)
    {
      var batch := outboundBatches.NextUnsent().value;
      UnsentIsNext(batch);
      batch.frames[batch.nextFrameIndex]
    }

    lemma UnsentIsNext(batch: Batch)
      requires Valid() && view.status == Live
      requires outboundBatches.NextUnsent() == Some(batch)
      ensures HasUnsent(view.out) && batch.nextFrameIndex < |batch.frames|
      ensures batch.frames[batch.nextFrameIndex] == NextFrame(view.out)
    {
      RunInv(cfg, log);
      UnsentAtCursor(view.out);
    }

    /** sendFrame refused, or the endpoint stopped meanwhile: nothing is counted as sent. */
    ghost method CallRefused()
      requires Explained() && Holds(view) && outboundCallDepth == 0
      requires view.status == Live ==> view.inCall.Some?
      modifies this`view, this`log, this`stopLevel, this`refusals
      ensures Valid() && view.status == old(view).status
      ensures refusals == if view.status == Live then old(refusals) + 1 else old(refusals)
      ensures view.status == Live ==>
                && view == old(view).(inCall := None)
                && log == old(log) + [Return(false)] && log[|log| - 1] == Return(false)
      ensures view.status != Live ==> log == old(log) && view == old(view) && stopLevel == old(stopLevel)
    {
      hide Apply, Run, Hazards;
      if view.status == Live {
        StepEffect(cfg, view, Return(false));
        Record(Return(false));
        refusals := refusals + 1;
      }
    }

    method AckAccepted(ackMessageSeq: nat)
      requires Explained() && Holds(view) && outboundCallDepth == 0 && view.status == Live
      requires view.inCall == Some(Ack(ackMessageSeq)) && view.pendingAck == Some(ackMessageSeq)
      modifies this`pendingAckMessageSeq, this`view, this`log, this`stopLevel
      ensures Valid() && view == old(view).(inCall := None, pendingAck := None)
      ensures log == old(log) + [Return(true)]
    {
      hide Apply, Run, Hazards;
      if pendingAckMessageSeq == Some(ackMessageSeq) { pendingAckMessageSeq := None; }
      StepEffect(cfg, view, Return(true));
      Record(Return(true));
    }

    method FrameAccepted()
      requires Explained() && Holds(view) && outboundCallDepth == 0 && view.status == Live
      requires view.inCall.Some? && view.inCall.value.Data?
      modifies this`highestFullySentMessageSeq, this`view, this`log, this`stopLevel, outboundBatches
      ensures Valid() && view == old(view).(inCall := None, out := view.out)
      ensures HasUnsent(old(view).out)
      ensures log == old(log) + [Return(true)]
      ensures old(view).inCall.value == Data(NextFrame(old(view).out)) && Advanced(old(view).out, view.out)
    {
      hide Apply, Run, Advanced, Hazards;
      FrameUnderWay(cfg, log);
      var batch := outboundBatches.NextUnsent().value;
      outboundBatches.CountFrameSent();
      if batch.nextFrameIndex + 1 == |batch.frames| {
        highestFullySentMessageSeq := Max(highestFullySentMessageSeq, batch.messageSeq);
        outboundBatches.AdvanceUnsent();
      }
      StepEffect(cfg, view, Return(true));
      Record(Return(true));
    }

    /** After a reconnect: everything unacknowledged again, from frame 0 of the oldest message. */
    method ReplayUnacknowledged() returns (drained: bool)
      requires Valid() && outboundCallDepth == 0
      modifies this, outboundBatches
      ensures Valid() && Continues() && Justified() && Steady()
      ensures old(view).status != Live ==> !drained && log == old(log)
      ensures old(view.status == Live && !Expiring()) ==> old(log) + [Replay] <= log
      ensures old(view.status == Live && InTime() && !flushing && CanSend(view.(out := Rewind(view.out)))) ==>
                old(log) + [Replay, Emit] <= log
      ensures old(queuedInbound) == [] && view.status == Live && drained ==> !CanSend(view)
    {
      hide Apply, Run, Hazards;
      if disposed || degraded { return false; }
      var expired := DeadlineExpired();
      if expired { return false; }
      outboundBatches.ResetReplay();
      StepEffect(cfg, view, Replay);
      Record(Replay);
      drained := FlushPendingFrames();
    }

    // ---------- receiving ----------

    method AcceptPayload(candidate: Candidate) returns (handled: bool)
      requires Valid()
      modifies this, outboundBatches
      ensures Valid() && Continues() && Quiet() && Justified()
      ensures handled <==> old(view).status == Live && candidate.Own?
      ensures !handled ==> log == old(log) && view == old(view)
      ensures handled && !old(Expiring()) ==> old(log) + [Receive(candidate.payload)] <= log
      // in calm only a faulty payload stops the endpoint
      ensures handled && old(Calm() && outboundCallDepth == 0) ==>
                (view.status == Live <==>
                 RelayEndpoint.ProcessInbound(cfg, old(view), candidate.payload).status == Live)
      // during sendFrame it only waits
      ensures handled && old(outboundCallDepth) > 0 && old(deadlines) == [] ==>
                view.status == Live && log == old(log) + [Receive(candidate.payload)] && deadlines == []
                && view.queued == old(view).queued + [candidate.payload]
      decreases |script|, |queuedInbound|, 15
    {
      hide Apply, Run, Hazards;
      if disposed || degraded || candidate.Foreign? { return false; }
      var expired := DeadlineExpired();
      if expired { return true; }
      var payload := candidate.payload;
      if outboundCallDepth > 0 {
        queuedInbound := queuedInbound + [payload];
        StepEffect(cfg, view, Receive(payload));
        Record(Receive(payload));
        return true;
      }
      ProcessInbound(payload, Receive(payload));
      return true;
    }

    method DrainQueuedInbound()
      requires Valid()
      modifies this, outboundBatches
      ensures Valid() && Continues() && Quiet() && Spends() && Inward() && Justified() && Steady()
      ensures old(queuedInbound) == [] ==> log == old(log) && view == old(view) && queuedInbound == []
      ensures outboundCallDepth == 0 && view.status == Live ==> queuedInbound == []
      ensures old(outboundCallDepth == 0 && view.status == Live && queuedInbound != [] && queuedInbound[0] == Malformed)
              ==> view.status == Degraded
      decreases |script|, |queuedInbound|, 2
    {
      hide Apply, Run, Enabled, Hazards;
      if outboundCallDepth > 0 || disposed || degraded { return; }
      while |queuedInbound| > 0 && !disposed && !degraded
        invariant Valid() && Continues() && Quiet() && Spends() && Inward() && Justified() && Steady()
        invariant old(queuedInbound) == [] ==> log == old(log) && view == old(view) && queuedInbound == []
        invariant (queuedInbound == old(queuedInbound) && view == old(view))
                  || (old(queuedInbound != [] && queuedInbound[0] == Malformed) ==> view.status == Degraded)
        decreases |script|, |queuedInbound|
      {
        var payload := queuedInbound[0];
        queuedInbound := queuedInbound[1..];
        ProcessInbound(payload, Drain);
      }
    }

    /** Step `s` is about to process `payload`; the fields hold `waiting`, the state with the payload
        taken off the queue if it was queued. */
    ghost predicate Taking(s: Step, payload: Payload, waiting: Endpoint)
      reads this, outboundBatches
    {
      && Explained() && Holds(waiting) && outboundCallDepth == 0 && (s.Receive? || s.Drain?)
      && view.status == Live && waiting.status == Live && view.inCall.None? && waiting.inCall.None?
      && waiting == view.(queued := waiting.queued)
      && Enabled(cfg, view, s) && Apply(cfg, view, s) == RelayEndpoint.ProcessInbound(cfg, waiting, payload)
    }

    /** The state when step `s` begins to process a payload: a queued one has been taken off the queue. */
    ghost function Waiting(s: Step): Endpoint
      reads this
    {
      if s == Drain && view.queued != [] then view.(queued := view.queued[1..]) else view
    }

    /** In calm the payload alone decides whether the endpoint lives on. */
    twostate predicate TakenCalmly(s: Step, payload: Payload)
      reads this
    {
      old(Calm()) ==>
        Calm() && (view.status == Live <==> RelayEndpoint.ProcessInbound(cfg, old(Waiting(s)), payload).status == Live)
    }

    /** One inbound payload, as step `s`; when it was queued it has just been taken off the queue. */
    method ProcessInbound(payload: Payload, ghost s: Step)
      requires Explained() && view.status == Live && view.inCall.None? && outboundCallDepth == 0
      requires s == Receive(payload) || (s == Drain && view.queued != [] && view.queued[0] == payload)
      requires Holds(Waiting(s))
      modifies this, outboundBatches
      ensures Valid() && Continues() && Quiet() && Spends() && Inward() && Justified()
      ensures old(log) + [s] <= log
      ensures TakenCalmly(s, payload)
      ensures payload == Malformed ==> view.status == Degraded
      decreases |script|, |queuedInbound|, 14
    {
      hide Apply, Run, Enabled, Hazards, RelayEndpoint.ProcessInbound;
      level := level + 1;
      Process(payload, s);
      level, refusals := level - 1, old(refusals);
    }

    /** What happens while an inbound payload is processed happens one level further in. */
    twostate predicate Inward()
      reads this
    {
      refusals == old(refusals) && (old(view).status == Live && view.status != Live ==> stopLevel > level)
    }

    method Process(payload: Payload, ghost s: Step)
      requires Explained() && view.status == Live && view.inCall.None? && outboundCallDepth == 0
      requires s == Receive(payload) || (s == Drain && view.queued != [] && view.queued[0] == payload)
      requires Holds(Waiting(s))
      modifies this, outboundBatches
      ensures Valid() && Continues() && Quiet() && Spends() && Justified()
      ensures old(log) + [s] <= log
      ensures TakenCalmly(s, payload)
      ensures payload == Malformed ==> view.status == Degraded
      decreases |script|, |queuedInbound|, 13
    {
      hide Apply, Run, Hazards, RelayEndpoint.ProcessInbound, RelayAssembler.Accept, ValidFrame;
      ghost var waiting := Waiting(s);
      StepEffect(cfg, view, s);
      InboundStops(cfg, waiting, payload);
      assert Taking(s, payload, waiting);
      match payload
      case Malformed => Reject(payload, s, waiting);
      case Ack(a) => if a == 0 { Reject(payload, s, waiting); } else { ProcessAck(a, s, waiting); }
      case Data(f) => if !ValidFrame(f) { Reject(payload, s, waiting); } else { ProcessFrame(f, s, waiting); }
    }

    /** A payload at fault stops the endpoint. */
    method Reject(payload: Payload, ghost s: Step, ghost waiting: Endpoint)
      requires Taking(s, payload, waiting) && Apply(cfg, view, s) == Stopped(waiting, Degraded)
      modifies this, outboundBatches
      ensures Valid() && Continues() && Quiet() && Spends() && Justified()
      ensures log == old(log) + [s] && view.status == Degraded
      ensures old(Calm()) ==> Calm()
    {
      hide Apply, Run, Enabled, Hazards, RelayEndpoint.ProcessInbound;
      ResetDegraded();
      Record(s);
    }

    /** A completed message is acknowledged after its delivery, a duplicate with the last completed one. */
    method ProcessFrame(f: Frame, ghost s: Step, ghost waiting: Endpoint)
      requires Taking(s, Data(f), waiting) && ValidFrame(f)
      modifies this, outboundBatches
      ensures Valid() && Continues() && Quiet() && Spends() && Justified()
      ensures old(log) + [s] <= log
      ensures old(Calm()) ==>
                Calm() && (view.status == Live <==> !Accept(cfg.crc, waiting.assembler, f).1.Fault?)
      ensures
        var event := Accept(cfg.crc, waiting.assembler, f).1;
        && (event.Fault? ==> view.status != Live)
        && (view.status == Live && event.Complete? ==> Step.QueueAck(event.messageSeq) in log[|old(log)| + 1..])
        && (view.status == Live && event.Duplicate? && waiting.assembler.lastCompleted > 0 ==>
              Step.QueueAck(waiting.assembler.lastCompleted) in log[|old(log)| + 1..])
      decreases |script|, |queuedInbound|, 12
    {
      hide Apply, Run, Enabled, RelayAssembler.Accept, RelayEndpoint.ProcessInbound, Hazards;
      var event := Assemble(f, s, waiting);
      ghost var taken := |log|;
      match event
      case Fault(_) =>
      case Incomplete =>
      case Duplicate(ackMessageSeq) =>
        if ackMessageSeq.Some? {
          QueueAck(ackMessageSeq.value);
          if view.status == Live { assert log[taken] == log[|old(log)| + 1..][0]; }
        }
      case Complete(messageSeq, _) =>
        ghost var told := Deliver(messageSeq);
        if view.status == Live { assert log[told] == log[|old(log)| + 1..][told - |old(log)| - 1]; }
    }

    /** The listener is handed the message; unless it throws, the acknowledgement follows, as step `told`. */
    method Deliver(messageSeq: nat) returns (ghost told: nat)
      requires Valid() && outboundCallDepth == 0 && 1 <= messageSeq <= |view.delivered|
      requires view.status == Live ==> view.owed <= messageSeq
      modifies this, outboundBatches
      ensures Valid() && Goes(0) && Quiet() && Spends() && Justified() && Steady()
      ensures old(script) != [] ==> |script| < |old(script)|
      ensures old(script != [] && script[0].throws) ==> view.status != Live
      ensures view.status == Live ==> |old(log)| <= told < |log| && log[told] == Step.QueueAck(messageSeq)
      ensures view.status == Live && old(InTime() && !flushing) ==> told + 1 < |log| && log[told + 1] == Emit
      decreases |script|, |queuedInbound|, 11
    {
      hide Apply, Run, Enabled, Hazards;
      var threw := Notify();
      told := |log|;
      if threw {
        EnterDegraded();
        return;
      }
      if view.status == Live { OwedIsDelivered(cfg, log); }
      QueueAck(messageSeq);
    }

    /** The assembler takes the frame; a fault stops the endpoint. */
    method Assemble(f: Frame, ghost s: Step, ghost waiting: Endpoint) returns (event: Event)
      requires Taking(s, Data(f), waiting) && ValidFrame(f)
      modifies this, outboundBatches
      ensures Valid() && Goes(Owing(old(view).owed, event)) && Quiet() && Spends() && script == old(script)
      ensures log == old(log) + [s] && event == Accept(cfg.crc, waiting.assembler, f).1
      ensures deadlines == old(deadlines) && (old(queuedInbound) == [] ==> queuedInbound == [])
      ensures event.Fault? <==> view.status != Live
      ensures event.Duplicate? ==> event == Repeated(waiting.assembler)
      ensures event.Duplicate? && event.ack.Some? ==> 1 <= event.ack.value <= view.assembler.lastCompleted
      ensures event.Complete? ==> 1 <= event.messageSeq <= |view.delivered|
    {
      hide Apply, Run, Enabled, RelayAssembler.Accept, RelayEndpoint.ProcessInbound, Hazards;
      AssembleEffect(f, s, waiting);
      var (next, what) := Accept(cfg.crc, assembler.value, f);
      event := what;
      if event.Fault? {
        ResetDegraded();
      } else if !event.Duplicate? {
        assembler := Some(next);
      }
      Record(s);
    }

    /** What step `s` does to the state, by the assembler's answer. */
    lemma AssembleEffect(f: Frame, s: Step, waiting: Endpoint)
      requires Taking(s, Data(f), waiting) && ValidFrame(f)
      ensures
        var (next, event) := Accept(cfg.crc, waiting.assembler, f);
        var after := Apply(cfg, view, s);
        match event
        case Fault(_) => after == Stopped(waiting, Degraded)
        case Incomplete => after == waiting.(assembler := next)
        case Duplicate(_) =>
          after == waiting.(owed := Owing(waiting.owed, event)) && event == Repeated(waiting.assembler)
        case Complete(messageSeq, bytes) =>
          after == waiting.(assembler := next, delivered := waiting.delivered + [bytes], owed := messageSeq)
          && 1 <= messageSeq <= |waiting.delivered| + 1
    {
      RunInv(cfg, log);
      AcceptCounts(cfg.crc, waiting.assembler, f);
    }

    method QueueAck(messageSeq: nat)
      requires Valid() && outboundCallDepth == 0
      requires view.status == Live ==> 1 <= messageSeq <= view.assembler.lastCompleted
      modifies this, outboundBatches
      ensures Valid() && Continues() && Quiet() && Spends() && Justified() && Steady()
      ensures old(view).status == Live ==> old(log) + [Step.QueueAck(messageSeq)] <= log
      ensures old(view.status == Live && InTime() && !flushing) ==> old(log) + [Step.QueueAck(messageSeq), Emit] <= log
      ensures view.status == Live && old(view).owed <= messageSeq ==> view.owed == 0
      decreases |script|, |queuedInbound|, 10
    {
      hide Apply, Run, Hazards, ByFault;
      if disposed || degraded { return; }
      if pendingAckMessageSeq.None? {
        pendingAckMessageSeq := Some(messageSeq);
      } else if messageSeq > pendingAckMessageSeq.value {
        pendingAckMessageSeq := Some(messageSeq);
      }
      StepEffect(cfg, view, Step.QueueAck(messageSeq));
      Record(Step.QueueAck(messageSeq));
      var _ := FlushPendingFrames();
    }

    method ProcessAck(ackMessageSeq: nat, ghost s: Step, ghost waiting: Endpoint)
      requires Taking(s, Ack(ackMessageSeq), waiting) && ackMessageSeq > 0
      modifies this, outboundBatches
      ensures Valid() && Continues() && Quiet() && Spends() && Justified()
      ensures old(log) + [s] <= log
      ensures old(Calm()) ==>
                Calm() &&
                (view.status == Live <==> ackMessageSeq <= Max(waiting.out.lastAcked, waiting.out.highestFullySent))
      // a listener is told when the low watermark is reached
      ensures waiting.out.lastAcked < ackMessageSeq <= waiting.out.highestFullySent && old(script) != []
              && waiting.ledger.saturated
              && !Credited(cfg, waiting.ledger,
                           SumBytes(waiting.out.batches[..ReleaseCount(waiting.out.batches, ackMessageSeq)])).saturated
              ==> |script| < |old(script)|
      decreases |script|, |queuedInbound|, 11
    {
      hide Apply, Run, Enabled, RelayEndpoint.ProcessInbound, RelayEndpoint.ProcessAck, Released, Credited, Hazards;
      InboundAck(cfg, waiting, ackMessageSeq);
      if ackMessageSeq <= lastAckedMessageSeq {
        Record(s);
        return;
      }
      if ackMessageSeq > highestFullySentMessageSeq {
        Reject(Ack(ackMessageSeq), s, waiting);
        return;
      }
      var drains := ReleaseAcknowledged(ackMessageSeq, s, waiting);
      if drains { var _ := Notify(); }
    }

    /** Releases the acknowledged prefix; says whether the low watermark was reached. */
    method ReleaseAcknowledged(ackMessageSeq: nat, ghost s: Step, ghost waiting: Endpoint) returns (drains: bool)
      requires Taking(s, Ack(ackMessageSeq), waiting)
      requires view.out.lastAcked < ackMessageSeq <= view.out.highestFullySent
      modifies this`unacknowledgedByteCount, this`lastAckedMessageSeq, this`saturated, this`view, this`log,
               this`stopLevel, outboundBatches
      ensures Valid() && Continues() && Quiet() && view.status == Live && log == old(log) + [s]
      ensures drains <==>
                waiting.ledger.saturated &&
                !Credited(cfg, waiting.ledger,
                          SumBytes(waiting.out.batches[..ReleaseCount(waiting.out.batches, ackMessageSeq)])).saturated
    {
      hide Apply, Run, Enabled, RelayEndpoint.ProcessInbound, RelayEndpoint.ProcessAck, Released, Credited, Hazards;
      InboundAck(cfg, waiting, ackMessageSeq);
      var releasedBytes := ReleaseBatches(ackMessageSeq, waiting.out);
      drains := CreditBytes(releasedBytes, waiting.ledger);
      Record(s);
    }

    method ReleaseBatches(ackMessageSeq: nat, ghost o: Outgoing) returns (releasedBytes: nat)
      requires OutHolds(o)
      modifies this`lastAckedMessageSeq, outboundBatches
      ensures OutHolds(Released(o, ackMessageSeq))
      ensures releasedBytes == SumBytes(o.batches[..ReleaseCount(o.batches, ackMessageSeq)])
    {
      var bytes, _ := outboundBatches.ReleaseThrough(ackMessageSeq);
      lastAckedMessageSeq := ackMessageSeq;
      return bytes;
    }

    /** Takes the bytes off the count; says whether that reaches the low watermark. */
    method CreditBytes(releasedBytes: nat, ghost l: Ledger) returns (drains: bool)
      requires LedgerHolds(l)
      modifies this`unacknowledgedByteCount, this`saturated
      ensures LedgerHolds(Credited(cfg, l, releasedBytes))
      ensures drains <==> old(saturated) && !saturated
    {
      unacknowledgedByteCount :=
        if unacknowledgedByteCount < releasedBytes then 0 else unacknowledgedByteCount - releasedBytes;
      drains := saturated && unacknowledgedByteCount <= cfg.lowWater;
      if drains { saturated := false; }
    }
  }

  /** The state an object is in is the state of a run, so everything proved of runs holds of it. */
  lemma ObjectIsRun(relay: AcknowledgedRelayProtocol)
    requires relay.Valid()
    ensures Run(relay.cfg, relay.log) == Some(relay.view) && Inv(relay.cfg, relay.view)
  {
    RunInv(relay.cfg, relay.log);
  }

  /** Such a flush, from the start: one message is reserved, and the transport that takes its first frame
      hands in something malformed.  The endpoint degrades while the queue is drained inside the send
      loop, and flushPendingFrames answers true. */
  method DrainedThoughStopped(cfg: Config, measureFrameBytes: Frame -> int, message: Message, outerBytes: nat)
    returns (relay: AcknowledgedRelayProtocol, drained: bool)
    requires ValidConfig(cfg) && Enabled(cfg, FRESH, Reserve(message, outerBytes))
    ensures relay.Valid() && relay.view.status == Degraded && drained
  {
    hide Apply, Run, Hazards;
    var reply := Reply(true, false, [Accepting(Own(Malformed))]);
    StepEffect(cfg, FRESH, Reserve(message, outerBytes));
    relay := new AcknowledgedRelayProtocol(cfg, measureFrameBytes, [reply], []);
    var _ := relay.AppendMessage(message, outerBytes);
    drained := relay.FlushPendingFrames();
  }
}
