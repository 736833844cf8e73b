/** Cuts and replays never make the relay fault, and a quiet connection has delivered everything. */
module RelayLinkSafety {
  import opened Wrappers
  import opened RelayFrames
  import opened RelayAssembler
  import opened RelayBatchQueue
  import opened RelayEndpoint
  import opened RelayEndpointSafety
  import opened RelayNetwork
  import opened RelayLink

  /** The receiver expects a number of the message after the last one it completed. */
  lemma ExpectedAfterDelivered(crc: Crc, s: Endpoint, r: Endpoint)
    requires Direction(crc, s, r) && r.status == Live && r.assembler.lastCompleted == |r.delivered|
    ensures FirstSeq(s.out.messages, |r.delivered|) <= r.assembler.expectedSeq
    ensures |r.delivered| < |s.out.messages| ==>
              r.assembler.expectedSeq < FirstSeq(s.out.messages, |r.delivered| + 1)
  {
  }

  /** Nothing the peer was handed lies beyond what is in flight to it. */
  lemma DeliveredBelowReach(crc: Crc, s: Station, r: Station, k: nat)
    requires Direction(crc, s.e, r.e) && r.e.status == Live && r.e.assembler.lastCompleted == |r.e.delivered|
    requires k <= |r.e.delivered|
    ensures FirstSeq(s.e.out.messages, k) <= Reach(r.e.assembler.expectedSeq, r.e.queued + s.link)
  {
    ExpectedAfterDelivered(crc, s.e, r.e);
    if k < |r.e.delivered| { FirstSeqMonotone(s.e.out.messages, k, |r.e.delivered|); }
    ReachPrefix(r.e.assembler.expectedSeq, r.e.queued + s.link, 0);
  }

  // ---------- the acting side as the sender ----------

  /** Steps that touch neither the sending half nor the call under way, nor the link. */
  lemma SenderIdle(s: Station, r: Station, e': Endpoint)
    requires Fifo(s, r) && e'.out == s.e.out && e'.inCall == s.e.inCall && e'.wire == s.e.wire
    requires e'.status == Live ==> s.e.status == Live
    ensures Fifo(s.(e := e'), r)
  {
  }

  lemma SenderStops(s: Station, r: Station, status: Status)
    requires Fifo(s, r) && status != Live
    ensures Fifo(s.(e := Stopped(s.e, status)), r)
  {
  }

  lemma SenderReserves(cfg: Config, s: Station, r: Station, m: Message, outerBytes: nat)
    requires Fifo(s, r) && Inv(cfg, s.e) && Enabled(cfg, s.e, Reserve(m, outerBytes))
    ensures Fifo(s.(e := Apply(cfg, s.e, Reserve(m, outerBytes))), r)
  {
    ReserveNextSeq(cfg.crc, s.e.out, m, outerBytes);
    FirstSeqAppend(s.e.out.messages, m, |r.e.delivered|);
  }

  lemma SenderEmits(cfg: Config, s: Station, r: Station, take: bool)
    requires Fifo(s, r) && Inv(cfg, s.e) && Enabled(cfg, s.e, Emit) && (take ==> s.up)
    ensures var p := NextPayload(s.e);
            Fifo(Station(Apply(cfg, s.e, Emit), if take then s.link + [p] else s.link, s.up, take), r)
  {
    var p := NextPayload(s.e);
    var flight := r.e.queued + s.link;
    if take {
      assert r.e.queued + (s.link + [p]) == flight + [p];
      ReachAppend(r.e.assembler.expectedSeq, flight, p);
    }
  }

  lemma SenderReturns(cfg: Config, s: Station, r: Station)
    requires Fifo(s, r) && Inv(cfg, s.e) && Enabled(cfg, s.e, Return(s.taken))
    ensures Fifo(s.(e := Apply(cfg, s.e, Return(s.taken))), r)
  {
    if s.taken && s.e.inCall.value.Data? {
      AcceptedNextSeq(cfg.crc, s.e.out, NextFrame(s.e.out));
    }
  }

  lemma SenderReplays(cfg: Config, s: Station, r: Station)
    requires Fifo(s, r) && Inv(cfg, s.e) && Enabled(cfg, s.e, Replay) && Direction(cfg.crc, s.e, r.e)
    requires r.e.status == Live ==> r.e.assembler.lastCompleted == |r.e.delivered|
    ensures Fifo(s.(e := Apply(cfg, s.e, Replay), up := true), r)
  {
    RewindOutbound(cfg.crc, s.e.out);
    if r.e.status == Live { DeliveredBelowReach(cfg.crc, s, r, s.e.out.lastAcked); }
  }

  /** A genuine acknowledgement never comes from the future. */
  lemma AckNotFuture(cfg: Config, s: Station, r: Station, ack: nat)
    requires Fifo(s, r) && Inv(cfg, s.e) && s.e.status == Live && s.e.inCall.None? && ack <= |r.e.delivered|
    ensures ack <= s.e.out.highestFullySent
  {
    assert Below(s.e.out.messages, |r.e.delivered|, s.e.out.sentThrough);
  }

  lemma SenderAcked(cfg: Config, s: Station, r: Station, ack: nat)
    requires Fifo(s, r) && Inv(cfg, s.e) && s.e.status == Live && s.e.inCall.None?
    requires Direction(cfg.crc, s.e, r.e) && s.e.out.lastAcked < ack <= |r.e.delivered|
    requires r.e.status == Live ==> r.e.assembler.lastCompleted == |r.e.delivered|
    ensures var s' := s.(e := ProcessAck(cfg, s.e, ack));
            s'.e.status == Live && Fifo(s', r)
  {
    AckNotFuture(cfg, s, r, ack);
    AckMoves(cfg, s.e, ack);
    if r.e.status == Live { DeliveredBelowReach(cfg.crc, s, r, ack); }
    SenderMoves(s, r, ProcessAck(cfg, s.e, ack), FirstSeq(s.e.out.messages, ack));
  }

  lemma AckMoves(cfg: Config, e: Endpoint, ack: nat)
    requires Outbound(cfg.crc, e.out) && e.out.lastAcked < ack <= e.out.highestFullySent
    ensures var e' := ProcessAck(cfg, e, ack);
            && e'.status == e.status && e'.inCall == e.inCall && e'.wire == e.wire
            && e'.out.messages == e.out.messages && e'.out.sentThrough == e.out.sentThrough
            && NextSeq(e'.out) == Max(NextSeq(e.out), FirstSeq(e.out.messages, ack))
  {
    AckEffect(cfg, e, ack);
    DroppedNextSeq(cfg.crc, e.out, ack - e.out.lastAcked);
  }

  /** Moving the cursor up to a number already below what is in flight keeps the direction. */
  lemma SenderMoves(s: Station, r: Station, e': Endpoint, n: nat)
    requires Fifo(s, r) && s.e.status == e'.status == Live && s.e.inCall.None? && e'.inCall.None?
    requires NextSeq(e'.out) == Max(NextSeq(s.e.out), n) && e'.wire == s.e.wire
    requires e'.out.messages == s.e.out.messages && e'.out.sentThrough == s.e.out.sentThrough
    requires r.e.status == Live ==> n <= Reach(r.e.assembler.expectedSeq, r.e.queued + s.link)
    ensures Fifo(s.(e := e'), r)
  {
  }

  // ---------- the acting side as the receiver ----------

  /** Taking a frame at or below the expected number never faults. */
  lemma AcceptTakes(crc: Crc, ms: seq<Message>, a: Assembler, f: Frame)
    requires Synced(crc, ms, a) && (forall m <- ms :: WithinLimits(m))
    requires Genuine(crc, ms, f) && f.seqNo <= a.expectedSeq
    ensures ValidFrame(f)
    ensures var (a', event) := Accept(crc, a, f);
            && !event.Fault? && (event.Duplicate? ==> a' == a)
            && a'.expectedSeq == Max(a.expectedSeq, f.seqNo + 1)
            && (event.Complete? ==> a'.lastCompleted == a.lastCompleted + 1 && a'.active.None? && Synced(crc, ms, a'))
  {
    var m: nat, i: nat :| InTable(ms, m, i) && f == FrameAt(crc, ms, m, i);
    GenuineIsValid(crc, ms, m, i);
    AcceptGenuine(crc, ms, a, m, i);
  }

  lemma CompleteAligned(crc: Crc, ms: seq<Message>, a: Assembler)
    requires Synced(crc, ms, a) && a.active.None?
    ensures a.lastCompleted <= |ms| && FirstSeq(ms, a.lastCompleted) == a.expectedSeq
  {
  }

  lemma TakenFrame(cfg: Config, r: Endpoint, f: Frame, a': Assembler, event: Event)
    requires r.status == Live && ValidFrame(f) && Accept(cfg.crc, r.assembler, f) == (a', event)
    requires !event.Fault? && (event.Duplicate? ==> a' == r.assembler)
    ensures ProcessInbound(cfg, r, Data(f))
         == r.(assembler := a', delivered := if event.Complete? then r.delivered + [event.bytes] else r.delivered,
               owed := Owing(r.owed, event))
  {
  }

  lemma TakeEffect(cfg: Config, ms: seq<Message>, r: Endpoint, f: Frame)
    requires r.status == Live && Synced(cfg.crc, ms, r.assembler) && r.assembler.lastCompleted == |r.delivered|
    requires (forall m <- ms :: WithinLimits(m)) && Genuine(cfg.crc, ms, f) && f.seqNo <= r.assembler.expectedSeq
    ensures var r' := ProcessInbound(cfg, r, Data(f));
            && r'.status == Live && r'.queued == r.queued
            && r'.assembler.expectedSeq == Max(r.assembler.expectedSeq, f.seqNo + 1)
            && (r'.delivered == r.delivered
                || (|r'.delivered| <= |ms| && FirstSeq(ms, |r'.delivered|) == r'.assembler.expectedSeq))
  {
    var (a', event) := Accept(cfg.crc, r.assembler, f);
    AcceptTakes(cfg.crc, ms, r.assembler, f);
    TakenFrame(cfg, r, f, a', event);
    if event.Complete? { CompleteAligned(cfg.crc, ms, a'); }
  }

  lemma ReceiverTakes(cfg: Config, s: Station, r: Station, f: Frame, queued: seq<Payload>, link: seq<Payload>)
    requires Fifo(s, r) && Direction(cfg.crc, s.e, r.e) && r.e.status == Live
    requires r.e.assembler.lastCompleted == |r.e.delivered|
    requires forall m <- s.e.out.messages :: WithinLimits(m)
    requires r.e.queued + s.link == [Data(f)] + (queued + link) && Genuine(cfg.crc, s.e.out.messages, f)
    requires forall p <- link :: p in s.link
    ensures var r' := r.(e := ProcessInbound(cfg, r.e.(queued := queued), Data(f)));
            r'.e.status == Live && Fifo(s.(link := link), r')
  {
    var waiting := r.e.(queued := queued);
    TakeEffect(cfg, s.e.out.messages, waiting, f);
    ReceiverAdvances(s, r, f, ProcessInbound(cfg, waiting, Data(f)), link);
  }

  lemma ReceiverAdvances(s: Station, r: Station, f: Frame, e': Endpoint, link: seq<Payload>)
    requires Fifo(s, r) && r.e.status == Live && e'.status == Live
    requires r.e.queued + s.link == [Data(f)] + (e'.queued + link) && (forall p <- link :: p in s.link)
    requires e'.assembler.expectedSeq == Max(r.e.assembler.expectedSeq, f.seqNo + 1)
    requires |e'.delivered| <= |s.e.out.messages|
    requires e'.delivered == r.e.delivered
             || FirstSeq(s.e.out.messages, |e'.delivered|) == e'.assembler.expectedSeq
    ensures Fifo(s.(link := link), r.(e := e'))
  {
    assert (r.e.queued + s.link)[1..] == e'.queued + link;
    ReachPrefix(e'.assembler.expectedSeq, e'.queued + link, 0);
  }

  /** An acknowledgement passes through without touching what the receiver expects. */
  lemma ReceiverPasses(s: Station, r: Station, a: nat, e': Endpoint, link: seq<Payload>)
    requires Fifo(s, r) && r.e.status == Live
    requires r.e.queued + s.link == [Ack(a)] + (e'.queued + link)
    requires e'.assembler == r.e.assembler && e'.delivered == r.e.delivered
    requires e'.status == Live
    requires forall p <- link :: p in s.link
    ensures Fifo(s.(link := link), r.(e := e'))
  {
    assert (r.e.queued + s.link)[1..] == e'.queued + link;
  }

  lemma ReceiverStopped(s: Station, r: Station, e': Endpoint, link: seq<Payload>)
    requires Fifo(s, r) && e'.status != Live && e'.delivered == r.e.delivered
    requires forall p <- link :: p in s.link
    ensures Fifo(s.(link := link), r.(e := e'))
  {
  }

  lemma ReceiverIdle(s: Station, r: Station, r': Station)
    requires Fifo(s, r)
    requires r'.e.assembler == r.e.assembler && r'.e.delivered == r.e.delivered && r'.e.queued == r.e.queued
    requires r'.e.status == r.e.status
    ensures Fifo(s, r')
  {
  }

  lemma ReceiverQueues(s: Station, r: Station, e': Endpoint)
    requires Fifo(s, r) && s.link != [] && e' == r.e.(queued := r.e.queued + [s.link[0]])
    ensures Fifo(s.(link := s.link[1..]), r.(e := e'))
  {
    assert r.e.queued + s.link == e'.queued + s.link[1..];
  }

  // ---------- one act of a station ----------

  /** What one station knows of itself and of both directions. */
  ghost predicate Sees(cfg: Config, self: Station, peer: Station) {
    && Inv(cfg, self.e) && Direction(cfg.crc, self.e, peer.e) && Direction(cfg.crc, peer.e, self.e)
    && Histories(cfg.crc, peer.e.out.messages, |peer.e.delivered|, peer.e.wire)
    && (peer.e.status == Live ==> peer.e.assembler.lastCompleted == |peer.e.delivered|)
    && Fifo(self, peer) && Fifo(peer, self)
  }

  lemma AssemblerInStep(cfg: Config, self: Station, peer: Station)
    requires Sees(cfg, self, peer) && self.e.status == Live
    ensures self.e.assembler.lastCompleted == |self.e.delivered|
  {
  }

  /** Whatever is on the way was handed to sendFrame by the peer. */
  lemma FlightIsGenuine(cfg: Config, self: Station, peer: Station, p: Payload)
    requires Sees(cfg, self, peer) && p in self.e.queued + peer.link
    ensures GenuinePayload(cfg.crc, peer.e.out.messages, |peer.e.delivered|, p)
    ensures forall m <- peer.e.out.messages :: WithinLimits(m)
  {
    assert p in self.e.queued || p in peer.link;
  }

  /** Processing the oldest payload that has reached `self`: it stays live. */
  lemma ProcessOldest(cfg: Config, self: Station, peer: Station, p: Payload, queued: seq<Payload>, link: seq<Payload>)
    requires Sees(cfg, self, peer) && self.e.status == Live && self.e.inCall.None?
    requires self.e.queued + peer.link == [p] + (queued + link) && (forall q <- link :: q in peer.link)
    ensures var self' := self.(e := ProcessInbound(cfg, self.e.(queued := queued), p));
            && self'.e.status == Live
            && Fifo(self', peer.(link := link)) && Fifo(peer.(link := link), self')
  {
    hide Fifo, Inv, Direction, Histories, Accept;
    assert p == (self.e.queued + peer.link)[0];
    FlightIsGenuine(cfg, self, peer, p);
    AssemblerInStep(cfg, self, peer);
    if p.Data? {
      ReceiverTakes(cfg, peer, self, p.frame, queued, link);
      FrameLeavesSender(cfg, self, peer, p.frame, queued, link);
    } else {
      ProcessOldestAck(cfg, self, peer, p.messageSeq, queued, link);
    }
  }

  /** Taking a frame leaves the taking side's own sending half. */
  lemma FrameLeavesSender(cfg: Config, self: Station, peer: Station, f: Frame, queued: seq<Payload>, link: seq<Payload>)
    requires Fifo(self, peer) && self.e.status == Live && self.e.inCall.None?
    ensures Fifo(self.(e := ProcessInbound(cfg, self.e.(queued := queued), Data(f))), peer.(link := link))
  {
    hide Fifo, Accept, ValidFrame;
    var e' := ProcessInbound(cfg, self.e.(queued := queued), Data(f));
    if e'.status == Live {
      SenderIdle(self, peer, e');
    } else {
      SenderStops(self.(e := self.e.(queued := queued)), peer, Degraded) by {
        SenderIdle(self, peer, self.e.(queued := queued));
      }
    }
    ReceiverIdle(self.(e := e'), peer, peer.(link := link));
  }

  lemma ProcessOldestAck(cfg: Config, self: Station, peer: Station, a: nat, queued: seq<Payload>, link: seq<Payload>)
    requires Sees(cfg, self, peer) && self.e.status == Live && self.e.inCall.None? && 1 <= a <= |peer.e.delivered|
    requires self.e.queued + peer.link == [Ack(a)] + (queued + link) && (forall q <- link :: q in peer.link)
    ensures var self' := self.(e := ProcessAck(cfg, self.e.(queued := queued), a));
            && self'.e.status == Live
            && Fifo(self', peer.(link := link)) && Fifo(peer.(link := link), self')
  {
    var waiting := self.e.(queued := queued);
    SenderIdle(self, peer, waiting);
    if a > self.e.out.lastAcked { SenderAcked(cfg, self.(e := waiting), peer, a); }
    ReceiverPasses(peer, self, a, ProcessAck(cfg, waiting, a), link);
  }

  lemma ActKeeps(cfg: Config, peerCfg: Config, self: Station, peer: Station, act: Act)
    requires ValidConfigs(cfg, peerCfg) && Sees(cfg, self, peer) && Acted(cfg, self, peer.link, act).Some?
    ensures var (self', link) := Acted(cfg, self, peer.link, act).value;
            Fifo(self', peer.(link := link)) && Fifo(peer.(link := link), self')
    // only the environment can stop an endpoint
    ensures self.e.status == Live && act != Local(Degrade) && act != Local(Dispose) ==>
              Acted(cfg, self, peer.link, act).value.0.e.status == Live
  {
    hide Fifo, Inv, Direction, ProcessInbound, Histories;
    var (self', link) := Acted(cfg, self, peer.link, act).value;
    match act
    case Local(s) => LocalKeeps(cfg, self, peer, s);
    case Send(take) =>
      SenderEmits(cfg, self, peer, take);
      ReceiverIdle(peer, self, self');
    case Back =>
      SenderReturns(cfg, self, peer);
      ReceiverIdle(peer, self, self');
    case Deliver =>
      DeliverKeeps(cfg, self, peer);
    case Reconnect =>
      SenderReplays(cfg, self, peer);
      ReceiverIdle(peer, self, self');
  }

  lemma DeliverKeeps(cfg: Config, self: Station, peer: Station)
    requires Sees(cfg, self, peer) && Acted(cfg, self, peer.link, Deliver).Some?
    ensures var (self', link) := Acted(cfg, self, peer.link, Deliver).value;
            && Fifo(self', peer.(link := link)) && Fifo(peer.(link := link), self')
            && (self.e.status == Live ==> self'.e.status == Live)
  {
    hide Fifo, Inv, Direction, Histories, Accept;
    var link := peer.link[1..];
    if self.e.status != Live {
      ReceiverStopped(peer, self, self.e, link);
      ReceiverIdle(self, peer, peer.(link := link));
      assert self.(e := self.e) == self;
    } else if self.e.inCall.Some? {
      var e' := self.e.(queued := self.e.queued + [peer.link[0]]);
      SenderIdle(self, peer, e');
      ReceiverQueues(peer, self, e');
      ReceiverIdle(self.(e := e'), peer, peer.(link := link));
    } else {
      DeliverProcesses(cfg, self, peer, link);
    }
  }

  lemma DeliverProcesses(cfg: Config, self: Station, peer: Station, link: seq<Payload>)
    requires Sees(cfg, self, peer) && self.e.status == Live && self.e.inCall.None? && self.e.queued == []
    requires peer.link != [] && link == peer.link[1..]
    ensures var self' := self.(e := ProcessInbound(cfg, self.e, peer.link[0]));
            && self'.e.status == Live
            && Fifo(self', peer.(link := link)) && Fifo(peer.(link := link), self')
  {
    hide Fifo, Inv, Direction, Histories, Accept;
    assert self.e.queued + peer.link == [peer.link[0]] + ([] + link);
    ProcessOldest(cfg, self, peer, peer.link[0], [], link);
    assert self.e.(queued := []) == self.e;
  }

  lemma LocalKeeps(cfg: Config, self: Station, peer: Station, s: Step)
    requires ValidConfig(cfg) && Sees(cfg, self, peer) && IsLocal(s) && Enabled(cfg, self.e, s)
    ensures var self' := self.(e := Apply(cfg, self.e, s));
            Fifo(self', peer) && Fifo(peer, self') && (s != Degrade && s != Dispose ==> self'.e.status == Live)
  {
    hide Fifo, Inv, Direction, Histories, Accept;
    var e' := Apply(cfg, self.e, s);
    match s
    case Reserve(m, outerBytes) =>
      SenderReserves(cfg, self, peer, m, outerBytes);
      ReceiverIdle(peer, self, self.(e := e'));
    case QueueAck(_) =>
      SenderIdle(self, peer, e');
      ReceiverIdle(peer, self, self.(e := e'));
    case Drain =>
      assert self.e.queued + peer.link == [self.e.queued[0]] + (self.e.queued[1..] + peer.link);
      ProcessOldest(cfg, self, peer, self.e.queued[0], self.e.queued[1..], peer.link);
    case Degrade =>
      SenderStops(self, peer, Degraded);
      ReceiverStopped(peer, self, e', peer.link);
    case Dispose =>
      SenderStops(self, peer, Disposed);
      ReceiverStopped(peer, self, e', peer.link);
  }

  // ---------- whole histories ----------

  lemma LinkInWire(s: Station, r: Station)
    requires Fifo(s, r) && s.link != []
    ensures s.link[0] in s.e.wire
  {
  }

  lemma WorldSees(ca: Config, cb: Config, w: World)
    requires WorldInv(ca, cb, w) && ValidConfigs(ca, cb)
    ensures Sees(ca, w.a, w.b) && Sees(cb, w.b, w.a)
  {
  }

  /** An act is one step of the pair, or none at all. */
  lemma ActAgrees(cfg: Config, peerCfg: Config, self: Station, peer: Station, act: Act)
    requires ValidConfigs(cfg, peerCfg) && Sees(cfg, self, peer) && Inv(peerCfg, peer.e)
    requires Acted(cfg, self, peer.link, act).Some?
    ensures var self' := Acted(cfg, self, peer.link, act).value.0;
            Inv(cfg, self'.e) && Direction(cfg.crc, self'.e, peer.e) && Direction(cfg.crc, peer.e, self'.e)
  {
    hide Inv, Fifo, Direction, ProcessInbound;
    match act
    case Local(s) => StepAgrees(cfg, peerCfg, self.e, peer.e, s);
    case Send(_) => StepAgrees(cfg, peerCfg, self.e, peer.e, Emit);
    case Back => StepAgrees(cfg, peerCfg, self.e, peer.e, Return(self.taken));
    case Deliver =>
      if self.e.status == Live {
        LinkInWire(peer, self);
        StepAgrees(cfg, peerCfg, self.e, peer.e, Receive(peer.link[0]));
      }
    case Reconnect => StepAgrees(cfg, peerCfg, self.e, peer.e, Replay);
  }

  lemma CutKeeps(s: Station, r: Station, k: nat)
    requires Fifo(s, r) && k <= |s.link|
    ensures Fifo(s.(link := s.link[..k], up := false), r)
  {
    var flight := r.e.queued + s.link;
    assert r.e.queued + s.link[..k] == flight[..|r.e.queued| + k];
    ReachPrefix(r.e.assembler.expectedSeq, flight, |r.e.queued| + k);
  }

  lemma HappenedInv(ca: Config, cb: Config, w: World, action: Action)
    requires ValidConfigs(ca, cb) && WorldInv(ca, cb, w) && Happened(ca, cb, w, action).Some?
    ensures WorldInv(ca, cb, Happened(ca, cb, w, action).value)
  {
    hide Inv, Fifo, Direction, Apply, Histories;
    WorldSees(ca, cb, w);
    match action
    case AtA(act) =>
      ActKeeps(ca, cb, w.a, w.b, act);
      ActAgrees(ca, cb, w.a, w.b, act);
    case AtB(act) =>
      ActKeeps(cb, ca, w.b, w.a, act);
      ActAgrees(cb, ca, w.b, w.a, act);
    case Cut(i, j) =>
      CutKeeps(w.a, w.b, i);
      CutKeeps(w.b, w.a, j);
      ReceiverIdle(w.a.(link := w.a.link[..i], up := false), w.b, w.b.(link := w.b.link[..j], up := false));
      ReceiverIdle(w.b.(link := w.b.link[..j], up := false), w.a, w.a.(link := w.a.link[..i], up := false));
  }

  lemma StartFifo(s: Station, r: Station)
    requires s.link == [] && r.e.queued == [] && r.e.delivered == [] && r.e.assembler.expectedSeq == 1
    requires s.e.inCall.None? && s.e.out.sentThrough == 1 && NextSeq(s.e.out) == 1
    ensures Fifo(s, r)
  {
    assert r.e.queued + s.link == [];
  }

  lemma {:induction false} HistoryInv(ca: Config, cb: Config, actions: seq<Action>)
    requires ValidConfigs(ca, cb) && History(ca, cb, actions).Some?
    ensures WorldInv(ca, cb, History(ca, cb, actions).value)
  {
    if actions == [] {
      FreshPair(ca, cb);
      StartFifo(START.a, START.b);
      StartFifo(START.b, START.a);
    } else {
      HistoryInv(ca, cb, actions[..|actions| - 1]);
      HappenedInv(ca, cb, History(ca, cb, actions[..|actions| - 1]).value, actions[|actions| - 1]);
    }
  }

  /** Over any history of sends, cuts and replays, nothing the protocol does stops an endpoint:
      after any action but its own degrade or dispose, a live endpoint is live. */
  lemma NoProtocolFault(ca: Config, cb: Config, actions: seq<Action>, action: Action)
    requires ValidConfigs(ca, cb) && History(ca, cb, actions + [action]).Some?
    ensures History(ca, cb, actions).Some?
    ensures var w := History(ca, cb, actions).value; var w' := History(ca, cb, actions + [action]).value;
            && (w.a.e.status == Live && action != Action.AtA(Local(Degrade)) && action != Action.AtA(Local(Dispose)) ==>
                  w'.a.e.status == Live)
            && (w.b.e.status == Live && action != Action.AtB(Local(Degrade)) && action != Action.AtB(Local(Dispose)) ==>
                  w'.b.e.status == Live)
  {
    assert (actions + [action])[..|actions|] == actions;
    HistoryInv(ca, cb, actions);
    var w := History(ca, cb, actions).value;
    match action
    case AtA(act) => ActKeeps(ca, cb, w.a, w.b, act);
    case AtB(act) => ActKeeps(cb, ca, w.b, w.a, act);
    case Cut(_, _) =>
  }

  ghost predicate NoData(flight: seq<Payload>) {
    forall p <- flight :: !p.Data?
  }

  lemma {:induction false} QuietReach(expected: nat, flight: seq<Payload>)
    requires NoData(flight)
    ensures Reach(expected, flight) == expected
    decreases |flight|
  {
    if flight != [] {
      assert flight[0] in flight;
      QuietReach(expected, flight[1..]);
    }
  }

  /** A live connected sender with nothing left to send and no data in flight: the receiver has been
      handed every message ever reserved, whatever was cut on the way. */
  lemma QuietMeansDelivered(ca: Config, cb: Config, actions: seq<Action>)
    requires ValidConfigs(ca, cb) && History(ca, cb, actions).Some?
    ensures var World(a, b) := History(ca, cb, actions).value;
            && (Both(a, b) && a.up && !HasUnsent(a.e.out) && NoData(b.e.queued + a.link) ==>
                  b.e.delivered == BytesOf(a.e.out.messages))
            && (Both(a, b) && b.up && !HasUnsent(b.e.out) && NoData(a.e.queued + b.link) ==>
                  a.e.delivered == BytesOf(b.e.out.messages))
  {
    HistoryInv(ca, cb, actions);
    var World(a, b) := History(ca, cb, actions).value;
    if Both(a, b) && a.up && !HasUnsent(a.e.out) && NoData(b.e.queued + a.link) { Quiet(ca, a, b); }
    if Both(a, b) && b.up && !HasUnsent(b.e.out) && NoData(a.e.queued + b.link) { Quiet(cb, b, a); }
  }

  lemma Quiet(cfg: Config, s: Station, r: Station)
    requires Fifo(s, r) && Direction(cfg.crc, s.e, r.e) && Inv(cfg, s.e) && Both(s, r) && s.up
    requires r.e.assembler.lastCompleted == |r.e.delivered|
    requires !HasUnsent(s.e.out) && NoData(r.e.queued + s.link)
    ensures r.e.delivered == BytesOf(s.e.out.messages)
  {
    QuietReach(r.e.assembler.expectedSeq, r.e.queued + s.link);
    ExpectedAfterDelivered(cfg.crc, s.e, r.e);
    var ms := s.e.out.messages;
    if |r.e.delivered| + 1 < |ms| { FirstSeqMonotone(ms, |r.e.delivered| + 1, |ms|); }
    assert BytesOf(ms)[..|ms|] == BytesOf(ms);
  }
}
