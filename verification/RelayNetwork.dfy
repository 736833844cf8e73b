/** Two endpoints and a channel that may lose, repeat and reorder whatever was sent, but not forge.

    Delivery is exactly-once and in order over this channel already; RelayLink adds what a FIFO
    connection with replay after each disconnect gives on top. */
module RelayNetwork {
  import opened Wrappers
  import opened RelayFrames
  import opened RelayAssembler
  import opened RelayBatchQueue
  import opened RelayEndpoint
  import opened RelayEndpointSafety

  datatype Pair = Pair(a: Endpoint, b: Endpoint)

  datatype Move = AtA(step: Step) | AtB(step: Step)

  /** Limits may differ between the two ends; the checksum is the same. */
  ghost predicate ValidConfigs(ca: Config, cb: Config) {
    ValidConfig(ca) && ValidConfig(cb) && ca.crc == cb.crc
  }

  predicate Possible(cfg: Config, self: Endpoint, peer: Endpoint, s: Step) {
    Enabled(cfg, self, s) && (s.Receive? ==> s.payload in peer.wire)
  }

  function Moved(ca: Config, cb: Config, n: Pair, move: Move): Option<Pair> {
    match move
    case AtA(s) => if Possible(ca, n.a, n.b, s) then Some(n.(a := Apply(ca, n.a, s))) else None
    case AtB(s) => if Possible(cb, n.b, n.a, s) then Some(n.(b := Apply(cb, n.b, s))) else None
  }

  function Play(ca: Config, cb: Config, moves: seq<Move>): Option<Pair> {
    if moves == [] then Some(Pair(FRESH, FRESH))
    else
      var before := Play(ca, cb, moves[..|moves| - 1]);
      if before.None? then None else Moved(ca, cb, before.value, moves[|moves| - 1])
  }

  /** What the sender `s` and the receiver `r` agree on. */
  ghost predicate Direction(crc: Crc, s: Endpoint, r: Endpoint) {
    && (forall p <- r.queued :: p in s.wire)
    && (r.status == Live ==> Synced(crc, s.out.messages, r.assembler))
    && |r.delivered| <= |s.out.messages|
    && r.delivered == BytesOf(s.out.messages)[..|r.delivered|]
    && s.out.lastAcked <= |r.delivered|
  }

  ghost predicate PairInv(ca: Config, cb: Config, n: Pair) {
    Inv(ca, n.a) && Inv(cb, n.b) && Direction(ca.crc, n.a, n.b) && Direction(ca.crc, n.b, n.a)
  }

  // ---------- one step of `self`, seen by the direction it sends and the one it receives ----------

  lemma ReserveAgrees(cfg: Config, s: Endpoint, r: Endpoint, m: Message, outerBytes: nat)
    requires Direction(cfg.crc, s, r) && Enabled(cfg, s, Reserve(m, outerBytes))
    ensures Direction(cfg.crc, Apply(cfg, s, Reserve(m, outerBytes)), r)
  {
    if r.status == Live { SyncedAppend(cfg.crc, s.out.messages, m, r.assembler); }
    var k := |r.delivered|;
    assert BytesOf(s.out.messages + [m])[..k] == BytesOf(s.out.messages)[..k];
  }

  /** Taking one genuine frame: the assembler stays in step, and hands over the next message or none. */
  lemma FrameAgrees(crc: Crc, ms: seq<Message>, a: Assembler, f: Frame)
    requires Synced(crc, ms, a) && Genuine(crc, ms, f) && (forall m <- ms :: WithinLimits(m))
    ensures var (a', event) := Accept(crc, a, f);
            event.Fault? ||
            (&& Synced(crc, ms, a')
             && (event.Complete? ==> a.lastCompleted < |ms| && event.bytes == Flatten(ms[a.lastCompleted]))
             && (event.Duplicate? ==> a' == a))
  {
    var m: nat, i: nat :| InTable(ms, m, i) && f == FrameAt(crc, ms, m, i);
    AcceptGenuine(crc, ms, a, m, i);
  }

  lemma InboundAgrees(cfg: Config, s: Endpoint, r: Endpoint, p: Payload)
    requires Direction(cfg.crc, s, r) && r.status == Live && r.assembler.lastCompleted == |r.delivered|
    requires forall m <- s.out.messages :: WithinLimits(m)
    requires p.Data? ==> Genuine(cfg.crc, s.out.messages, p.frame)
    ensures Direction(cfg.crc, s, ProcessInbound(cfg, r, p))
  {
    if p.Data? {
      var ms := s.out.messages;
      FrameAgrees(cfg.crc, ms, r.assembler, p.frame);
      var k := |r.delivered|;
      if k < |ms| { assert BytesOf(ms)[..k + 1] == BytesOf(ms)[..k] + [Flatten(ms[k])]; }
    }
  }

  /** An acknowledgement moves the sender only to a message its peer was handed. */
  lemma AckAgrees(cfg: Config, s: Endpoint, r: Endpoint, p: Payload)
    requires Direction(cfg.crc, s, r)
    requires p.Ack? ==> p.messageSeq <= |r.delivered|
    ensures Direction(cfg.crc, ProcessInbound(cfg, s, p), r)
  {
  }

  lemma StepAgrees(cfg: Config, peerCfg: Config, self: Endpoint, peer: Endpoint, s: Step)
    requires ValidConfigs(cfg, peerCfg) && Inv(cfg, self) && Inv(peerCfg, peer) && Possible(cfg, self, peer, s)
    requires Direction(cfg.crc, self, peer) && Direction(cfg.crc, peer, self)
    ensures var self' := Apply(cfg, self, s);
            Inv(cfg, self') && Direction(cfg.crc, self', peer) && Direction(cfg.crc, peer, self')
  {
    StepInv(cfg, self, s);
    match s
    case Reserve(m, outerBytes) => ReserveAgrees(cfg, self, peer, m, outerBytes);
    case Receive(p) =>
      assert GenuinePayload(cfg.crc, peer.out.messages, |peer.delivered|, p);
      if self.inCall.None? { ProcessAgrees(cfg, self, peer, p); }
    case Drain => DrainAgrees(cfg, self, peer);
    case Emit =>
    case Return(_) =>
    case QueueAck(_) =>
    case Replay =>
    case Degrade =>
    case Dispose =>
  }

  lemma DrainAgrees(cfg: Config, self: Endpoint, peer: Endpoint)
    requires Inv(cfg, self) && Enabled(cfg, self, Drain)
    requires Histories(cfg.crc, peer.out.messages, |peer.delivered|, peer.wire)
    requires Direction(cfg.crc, self, peer) && Direction(cfg.crc, peer, self)
    ensures var self' := Apply(cfg, self, Drain);
            Direction(cfg.crc, self', peer) && Direction(cfg.crc, peer, self')
  {
    var rest := self.(queued := self.queued[1..]);
    assert self.queued[0] in peer.wire;
    assert forall q <- rest.queued :: q in self.queued;
    ProcessAgrees(cfg, rest, peer, self.queued[0]);
  }

  lemma ProcessAgrees(cfg: Config, self: Endpoint, peer: Endpoint, p: Payload)
    requires self.status == Live && Inbound(self.assembler, |self.delivered|, self.pendingAck, self.owed)
    requires Histories(cfg.crc, peer.out.messages, |peer.delivered|, peer.wire)
    requires GenuinePayload(cfg.crc, peer.out.messages, |peer.delivered|, p)
    requires Direction(cfg.crc, self, peer) && Direction(cfg.crc, peer, self)
    ensures var self' := ProcessInbound(cfg, self, p);
            Direction(cfg.crc, self', peer) && Direction(cfg.crc, peer, self')
  {
    InboundAgrees(cfg, peer, self, p);
    AckAgrees(cfg, self, peer, p);
  }

  // ---------- every reachable state ----------

  lemma NothingSent(crc: Crc, s: Endpoint, r: Endpoint)
    requires s.out.messages == [] && s.out.lastAcked == 0
    requires r.queued == [] && r.delivered == [] && r.assembler == INITIAL
    ensures Direction(crc, s, r)
  {
    SyncedInitially(crc, s.out.messages, r.assembler);
  }

  lemma FreshPair(ca: Config, cb: Config)
    requires ValidConfigs(ca, cb)
    ensures PairInv(ca, cb, Pair(FRESH, FRESH))
  {
    FreshInv(ca);
    FreshInv(cb);
    NothingSent(ca.crc, FRESH, FRESH);
  }

  lemma MovedInv(ca: Config, cb: Config, n: Pair, move: Move)
    requires ValidConfigs(ca, cb) && PairInv(ca, cb, n) && Moved(ca, cb, n, move).Some?
    ensures PairInv(ca, cb, Moved(ca, cb, n, move).value)
  {
    match move
    case AtA(s) => StepAgrees(ca, cb, n.a, n.b, s);
    case AtB(s) => StepAgrees(cb, ca, n.b, n.a, s);
  }

  lemma {:induction false} PlayInv(ca: Config, cb: Config, moves: seq<Move>)
    requires ValidConfigs(ca, cb) && Play(ca, cb, moves).Some?
    ensures PairInv(ca, cb, Play(ca, cb, moves).value)
  {
    if moves == [] {
      FreshPair(ca, cb);
    } else {
      PlayInv(ca, cb, moves[..|moves| - 1]);
      MovedInv(ca, cb, Play(ca, cb, moves[..|moves| - 1]).value, moves[|moves| - 1]);
    }
  }

  /** End to end, both ways, in every reachable state: what a listener was handed is a prefix of
      what the other side reserved, each message once and in order, and a message has left a live
      sender's replay buffer only if the receiver was handed it. */
  lemma ExactlyOnceInOrder(ca: Config, cb: Config, moves: seq<Move>)
    requires ValidConfigs(ca, cb) && Play(ca, cb, moves).Some?
    ensures var Pair(a, b) := Play(ca, cb, moves).value;
            && b.delivered <= BytesOf(a.out.messages)
            && a.delivered <= BytesOf(b.out.messages)
            && (a.status == Live ==> |a.out.messages| - |a.out.batches| <= |b.delivered|)
            && (b.status == Live ==> |b.out.messages| - |b.out.batches| <= |a.delivered|)
  {
    PlayInv(ca, cb, moves);
  }
}
