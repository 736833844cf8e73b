/** A payload handed to acceptPayload while the inbound queue is being drained, by a listener that calls
    back, is processed ahead of the queued ones. */
module RelayOvertaking {
  import opened Wrappers
  import opened RelayFrames
  import opened RelayAssembler
  import opened RelayBatchQueue
  import opened RelayEndpoint
  import opened RelayEndpointSafety
  import opened RelayNetwork

  /** A genuine frame processed at once, queue or no queue, leaves the endpoint live if and only if its
      number does not lie beyond the one expected. */
  lemma TakenUnlessBeyond(cfg: Config, s: Endpoint, r: Endpoint, f: Frame)
    requires Direction(cfg.crc, s, r) && r.status == Live && r.inCall.None?
    requires (forall m <- s.out.messages :: WithinLimits(m)) && Genuine(cfg.crc, s.out.messages, f)
    ensures Apply(cfg, r, Receive(Data(f))).status == Live <==> f.seqNo <= r.assembler.expectedSeq
  {
    var ms := s.out.messages;
    var m: nat, i: nat :| InTable(ms, m, i) && f == FrameAt(cfg.crc, ms, m, i);
    GenuineIsValid(cfg.crc, ms, m, i);
    AcceptGenuine(cfg.crc, ms, r.assembler, m, i);
  }

  /** The frame of the message at index m, when every message is one fragment. */
  function Single(crc: Crc, ms: seq<Message>, m: nat): Payload
    requires m < |ms|
  {
    Data(FrameAt(crc, ms, m, 0))
  }

  /** Such a run: while the first frame of its own message is being sent, the peer's first two messages
      arrive and are queued; draining the first, its listener hands in the third. */
  function Overtaking(crc: Crc, own: Message, outerBytes: nat, ms: seq<Message>): seq<Step>
    requires |ms| == 3
  {
    [Reserve(own, outerBytes), Emit, Receive(Single(crc, ms, 0)), Receive(Single(crc, ms, 1)), Return(true), Drain,
     Receive(Single(crc, ms, 2))]
  }

  lemma OneMore(cfg: Config, steps: seq<Step>, k: nat, e: Endpoint)
    requires k < |steps| && Run(cfg, steps[..k]) == Some(e) && Enabled(cfg, e, steps[k])
    ensures Run(cfg, steps[..k + 1]) == Some(Apply(cfg, e, steps[k]))
  {
    hide Run, Apply, Enabled;
    assert steps[..k + 1] == steps[..k] + [steps[k]];
    RunGrows(cfg, steps[..k], steps[k]);
  }

  /** Up to the moment the call has returned: both messages wait. */
  lemma BothWait(cfg: Config, own: Message, outerBytes: nat, ms: seq<Message>)
    requires |ms| == 3 && Enabled(cfg, FRESH, Reserve(own, outerBytes))
    ensures
      var run := Run(cfg, Overtaking(cfg.crc, own, outerBytes, ms)[..5]);
      && run.Some? && run.value.status == Live && run.value.inCall.None? && run.value.assembler == INITIAL
      && run.value.queued == [Single(cfg.crc, ms, 0), Single(cfg.crc, ms, 1)]
  {
    hide Run;
    var steps := Overtaking(cfg.crc, own, outerBytes, ms);
    assert Run(cfg, steps[..0]) == Some(FRESH) by { NoSteps(cfg, steps); }
    OneMore(cfg, steps, 0, FRESH);
    var reserved := Apply(cfg, FRESH, steps[0]);
    OneMore(cfg, steps, 1, reserved);
    var calling := Apply(cfg, reserved, Emit);
    OneMore(cfg, steps, 2, calling);
    var one := Apply(cfg, calling, steps[2]);
    OneMore(cfg, steps, 3, one);
    var two := Apply(cfg, one, steps[3]);
    OneMore(cfg, steps, 4, two);
  }

  lemma NoSteps(cfg: Config, steps: seq<Step>)
    ensures Run(cfg, steps[..0]) == Some(FRESH)
  {
  }

  /** A fresh assembler after the first of single-fragment messages. */
  lemma FirstTaken(crc: Crc, ms: seq<Message>)
    requires |ms| == 3 && (forall m <- ms :: |m| == 1 && WithinLimits(m))
    ensures
      var f := FrameAt(crc, ms, 0, 0);
      var (a, event) := Accept(crc, INITIAL, f);
      && ValidFrame(f) && event.Complete?
      && ValidFrame(FrameAt(crc, ms, 2, 0)) && Accept(crc, a, FrameAt(crc, ms, 2, 0)).1.Fault?
  {
    AcceptGenuine(crc, ms, INITIAL, 0, 0);
    GenuineIsValid(crc, ms, 0, 0);
    var (a, _) := Accept(crc, INITIAL, FrameAt(crc, ms, 0, 0));
    AcceptGenuine(crc, ms, a, 2, 0);
    GenuineIsValid(crc, ms, 2, 0);
    assert FirstSeq(ms, 2) == 3;
  }

  /** Draining one frame that completes a message, then taking one that faults. */
  lemma DrainedThenOvertaken(cfg: Config, e: Endpoint, f: Frame, second: Payload, g: Frame)
    requires e.status == Live && e.inCall.None? && e.queued == [Data(f), second]
    requires
      var (a, event) := Accept(cfg.crc, e.assembler, f);
      ValidFrame(f) && event.Complete? && ValidFrame(g) && Accept(cfg.crc, a, g).1.Fault?
    ensures
      Enabled(cfg, e, Drain) && Enabled(cfg, Apply(cfg, e, Drain), Receive(Data(g)))
      && Apply(cfg, e, Drain).status == Live && Apply(cfg, e, Drain).queued == [second]
      && Apply(cfg, Apply(cfg, e, Drain), Receive(Data(g))).status == Degraded
  {
    hide RelayAssembler.Accept, ValidFrame;
  }

  /** The endpoint degrades on the gap, though nothing was lost and everything arrived in order. */
  lemma OvertakingFaults(cfg: Config, own: Message, outerBytes: nat, ms: seq<Message>)
    requires |ms| == 3 && (forall m <- ms :: |m| == 1 && WithinLimits(m))
    requires Enabled(cfg, FRESH, Reserve(own, outerBytes))
    ensures
      var steps := Overtaking(cfg.crc, own, outerBytes, ms);
      Run(cfg, steps[..6]).Some? && Run(cfg, steps).Some?
      && Run(cfg, steps[..6]).value.status == Live && Run(cfg, steps[..6]).value.queued == [Single(cfg.crc, ms, 1)]
      && Run(cfg, steps).value.status == Degraded
  {
    hide Run, Apply, Enabled, RelayAssembler.Accept, ValidFrame;
    var steps := Overtaking(cfg.crc, own, outerBytes, ms);
    BothWait(cfg, own, outerBytes, ms);
    FirstTaken(cfg.crc, ms);
    var waiting := Run(cfg, steps[..5]).value;
    DrainedThenOvertaken(cfg, waiting, FrameAt(cfg.crc, ms, 0, 0), Single(cfg.crc, ms, 1), FrameAt(cfg.crc, ms, 2, 0));
    OneMore(cfg, steps, 5, waiting);
    OneMore(cfg, steps, 6, Apply(cfg, waiting, Drain));
    assert steps[..7] == steps;
  }
}
